// Batched embedding: texts cut to the model's context, sent in batches, and the rows of
// each answer checked and put back into the order of the texts.
module Embedding {
  import opened Text

  /** A number of a vector; `finite` is what the check of each value finds. */
  datatype Value = Value(number: real, finite: bool)

  type Vector = seq<Value>

  /** `row.get("index")`, apart from whether the key is there at all. */
  datatype Index = Absent | Number(n: int) | Other

  datatype Row = NotAnObject | Object(index: Index, embedding: Option<Vector>)

  /** The `data` of an answer. */
  datatype Data = NotAList | Rows(rows: seq<Row>)

  datatype Error = ValueError | HttpError | ZeroDivision

  datatype Result<+T> = Ok(value: T) | Err(error: Error)

  // ---- One batch.

  /** Insertion into rows sorted by index, behind those with the same one. */
  function Insert(rows: seq<Row>, row: Row): (r: seq<Row>)
    requires row.Object? && row.index.Number? && AllNumbered(rows)
    ensures AllNumbered(r) && |r| == |rows| + 1
  {
    if rows == [] || rows[|rows| - 1].index.n <= row.index.n then rows + [row]
    else Insert(rows[..|rows| - 1], row) + [rows[|rows| - 1]]
  }

  predicate AllNumbered(rows: seq<Row>) {
    forall i :: 0 <= i < |rows| ==> rows[i].Object? && rows[i].index.Number?
  }

  /** `sorted(data, key=itemgetter("index"))`. */
  function SortRows(rows: seq<Row>): (r: seq<Row>)
    requires AllNumbered(rows)
    ensures AllNumbered(r) && |r| == |rows|
  {
    if rows == [] then [] else Insert(SortRows(rows[..|rows| - 1]), rows[|rows| - 1])
  }

  /** `sorted(indices) == list(range(count))`, the indices being those of sorted rows. */
  predicate IsRange(rows: seq<Row>)
    requires AllNumbered(rows)
  {
    forall k :: 0 <= k < |rows| ==> rows[k].index.n == k
  }

  predicate AllObjects(rows: seq<Row>) {
    forall i :: 0 <= i < |rows| ==> rows[i].Object?
  }

  predicate AnyIndexed(rows: seq<Row>) {
    exists i :: 0 <= i < |rows| && rows[i].Object? && rows[i].index != Absent
  }

  predicate AllFinite(v: Vector) {
    forall i :: 0 <= i < |v| ==> v[i].finite
  }

  /** A row whose vector can stand in a result of this dimension. */
  predicate GoodRow(row: Row, dimension: nat) {
    row.Object? && row.embedding.Some? && row.embedding.value != [] && |row.embedding.value| == dimension
    && forall value <- row.embedding.value :: value.finite
  }

  predicate AllGood(rows: seq<Row>, dimension: nat) {
    forall row <- rows :: GoodRow(row, dimension)
  }

  /** A dimension not known yet can be any. */
  predicate Fits(dimension: Option<nat>, d: nat) {
    dimension.Some? ==> d == dimension.value
  }

  /** Row `i` says it belongs to text `k`. */
  predicate HasIndex(rows: seq<Row>, i: nat, k: int) {
    i < |rows| && rows[i].Object? && rows[i].index == Number(k)
  }

  /** Every place has a row that names it. */
  ghost predicate Covers(rows: seq<Row>) {
    forall k :: 0 <= k < |rows| ==> Named(rows, k)
  }

  ghost predicate Named(rows: seq<Row>, k: int) {
    exists i: nat :: HasIndex(rows, i, k)
  }

  /** The answer leaves the order of its rows to their places. */
  predicate Unindexed(rows: seq<Row>) {
    forall row <- rows :: row.Object? ==> row.index == Absent
  }

  lemma IndexedOrNot(rows: seq<Row>)
    ensures AnyIndexed(rows) <==> !Unindexed(rows)
  {
    if row :| row in rows && row.Object? && row.index != Absent {
      var i :| 0 <= i < |rows| && rows[i] == row;
    }
  }

  /** The row that answers text `k`: the one that names it, or the one in its place when no
      row has an index. */
  ghost function RowFor(rows: seq<Row>, k: nat): (i: nat)
    requires k < |rows| && (Unindexed(rows) || Covers(rows))
    ensures i < |rows|
  {
    if Unindexed(rows) then k
    else
      assert Named(rows, k);
      var i: nat :| HasIndex(rows, i, k);
      i
  }

  /** The answers a batch of `count` texts can do with: one row for each, whichever way
      they are put in order, and one dimension. */
  ghost predicate Accepts(data: Data, count: nat, dimension: Option<nat>) {
    && data.Rows? && |data.rows| == count
    && AllObjects(data.rows)
    && (Unindexed(data.rows) || Covers(data.rows))
    && (exists d: nat :: Fits(dimension, d) && AllGood(data.rows, d))
  }

  // ---- Sorting.

  predicate Sorted(rows: seq<Row>)
    requires AllNumbered(rows)
  {
    forall i, j :: 0 <= i < j < |rows| ==> rows[i].index.n <= rows[j].index.n
  }

  lemma {:induction false} InsertKeeps(rows: seq<Row>, row: Row)
    requires row.Object? && row.index.Number? && AllNumbered(rows)
    ensures multiset(Insert(rows, row)) == multiset(rows) + multiset{row}
  {
    if rows != [] && rows[|rows| - 1].index.n > row.index.n {
      assert rows == rows[..|rows| - 1] + [rows[|rows| - 1]];
      InsertKeeps(rows[..|rows| - 1], row);
    }
  }

  lemma {:induction false} InsertSorts(rows: seq<Row>, row: Row)
    requires row.Object? && row.index.Number? && AllNumbered(rows) && Sorted(rows)
    ensures Sorted(Insert(rows, row))
    ensures forall i :: 0 <= i < |Insert(rows, row)| ==>
      (rows != [] && Insert(rows, row)[i].index.n <= rows[|rows| - 1].index.n)
      || Insert(rows, row)[i].index.n <= row.index.n
  {
    if rows != [] && rows[|rows| - 1].index.n > row.index.n {
      InsertSorts(rows[..|rows| - 1], row);
    }
  }

  lemma {:induction false} SortSorts(rows: seq<Row>)
    requires AllNumbered(rows)
    ensures Sorted(SortRows(rows)) && multiset(SortRows(rows)) == multiset(rows)
  {
    if rows != [] {
      var front, last := rows[..|rows| - 1], rows[|rows| - 1];
      assert rows == front + [last];
      SortSorts(front);
      InsertSorts(SortRows(front), last);
      InsertKeeps(SortRows(front), last);
    }
  }

  lemma SameRows(a: seq<Row>, b: seq<Row>, row: Row)
    requires multiset(a) == multiset(b)
    ensures row in a <==> row in b
  {
    assert row in a <==> row in multiset(a);
    assert row in b <==> row in multiset(b);
  }

  lemma SameGood(a: seq<Row>, b: seq<Row>, d: nat)
    requires multiset(a) == multiset(b)
    ensures AllGood(a, d) <==> AllGood(b, d)
  {
    forall row
      ensures row in a <==> row in b
    {
      SameRows(a, b, row);
    }
  }

  /** A sorted list of `n` rows naming all of 0 to n - 1 names them in this order. */
  lemma {:induction false} SortedAt(s: seq<Row>, k: nat, at: nat)
    requires AllNumbered(s) && Sorted(s) && Covers(s) && k < |s| && HasIndex(s, at, k)
    ensures at >= k
  {
    if k > 0 {
      assert Named(s, k - 1);
      var before: nat :| HasIndex(s, before, k - 1);
      SortedAt(s, k - 1, before);
    }
  }

  lemma {:induction false} SortedAtMost(s: seq<Row>, k: nat, at: nat)
    requires AllNumbered(s) && Sorted(s) && Covers(s) && k < |s| && HasIndex(s, at, k)
    ensures at <= k
    decreases |s| - k
  {
    if k < |s| - 1 {
      assert Named(s, k + 1);
      var after: nat :| HasIndex(s, after, k + 1);
      SortedAtMost(s, k + 1, after);
    }
  }

  lemma SortedCoversIsRange(s: seq<Row>)
    requires AllNumbered(s) && Sorted(s) && Covers(s)
    ensures IsRange(s)
  {
    forall k | 0 <= k < |s|
      ensures s[k].index.n == k
    {
      assert Named(s, k);
      var at: nat :| HasIndex(s, at, k);
      SortedAt(s, k, at);
      SortedAtMost(s, k, at);
    }
  }

  // ---- Covering every place leaves no row over.

  lemma {:induction false} Pick(rows: seq<Row>, m: nat) returns (picked: set<nat>)
    requires m <= |rows| && Covers(rows)
    ensures |picked| == m && forall i <- picked :: exists k :: 0 <= k < m && HasIndex(rows, i, k)
  {
    picked := {};
    if m > 0 {
      picked := Pick(rows, m - 1);
      assert Named(rows, m - 1);
      var i: nat :| HasIndex(rows, i, m - 1);
      assert i !in picked;
      picked := picked + {i};
    }
  }

  lemma {:induction false} Below(n: nat) returns (all: set<nat>)
    ensures |all| == n && forall i: nat :: i in all <==> i < n
  {
    all := {};
    if n > 0 {
      all := Below(n - 1);
      all := all + {n - 1};
    }
  }

  lemma {:induction false} FullSubset(a: set<nat>, b: set<nat>)
    requires a <= b && |a| == |b|
    ensures a == b
  {
    if a != {} {
      var x :| x in a;
      FullSubset(a - {x}, b - {x});
    } else {
      assert |b| == 0;
    }
  }

  lemma CoversAreNumbered(rows: seq<Row>)
    requires Covers(rows)
    ensures AllNumbered(rows)
  {
    var picked := Pick(rows, |rows|);
    var all := Below(|rows|);
    forall i | i in picked
      ensures i in all
    {
      var k :| 0 <= k < |rows| && HasIndex(rows, i, k);
    }
    FullSubset(picked, all);
    forall i | 0 <= i < |rows|
      ensures rows[i].Object? && rows[i].index.Number?
    {
      assert i in picked;
    }
  }

  lemma SameNamed(a: seq<Row>, b: seq<Row>, k: int)
    requires multiset(a) == multiset(b)
    ensures Named(a, k) ==> Named(b, k)
  {
    if Named(a, k) {
      var i: nat :| HasIndex(a, i, k);
      SameRows(a, b, a[i]);
      var j :| 0 <= j < |b| && b[j] == a[i];
      assert HasIndex(b, j, k);
    }
  }

  /** The check on the indices asks exactly that every place is named. */
  lemma RangeIffCovers(rows: seq<Row>)
    ensures AllNumbered(rows) && IsRange(SortRows(rows)) <==> Covers(rows)
  {
    if Covers(rows) {
      CoversAreNumbered(rows);
      SortSorts(rows);
      forall k | 0 <= k < |rows|
        ensures Named(SortRows(rows), k)
      {
        assert Named(rows, k);
        SameNamed(rows, SortRows(rows), k);
      }
      SortedCoversIsRange(SortRows(rows));
    }
    if AllNumbered(rows) && IsRange(SortRows(rows)) {
      SortSorts(rows);
      forall k | 0 <= k < |rows|
        ensures Named(rows, k)
      {
        assert HasIndex(SortRows(rows), k, k);
        SameNamed(SortRows(rows), rows, k);
      }
    }
  }

  /** Sorting brings to place `k` the very row that names it. */
  lemma SortedIsChosen(rows: seq<Row>, k: nat)
    requires !Unindexed(rows) && Covers(rows) && AllNumbered(rows) && k < |rows|
    ensures SortRows(rows)[k] == rows[RowFor(rows, k)]
  {
    RangeIffCovers(rows);
    SortSorts(rows);
    var i := RowFor(rows, k);
    SameRows(rows, SortRows(rows), rows[i]);
    var j :| 0 <= j < |rows| && SortRows(rows)[j] == rows[i];
  }

  // ---- The check of one answer.

  method ReadVectors(rows: seq<Row>, known: Option<nat>) returns (r: Result<seq<Vector>>)
    requires AllObjects(rows)
    ensures r.Ok? <==> exists d: nat :: Fits(known, d) && AllGood(rows, d)
    ensures r.Err? ==> r.error == ValueError
    ensures r.Ok? ==> |r.value| == |rows|
    ensures r.Ok? ==> forall k :: 0 <= k < |rows| ==> rows[k].embedding == Some(r.value[k])
    ensures r.Ok? ==> exists d: nat :: Fits(known, d) && forall k :: 0 <= k < |rows| ==> |r.value[k]| == d
  {
    var dimension: Option<nat> := known;
    var vectors: seq<Vector> := [];
    var i := 0;
    while i < |rows|
      invariant 0 <= i <= |rows|
      invariant |vectors| == i && forall k :: 0 <= k < i ==> rows[k].embedding == Some(vectors[k])
      invariant known.Some? ==> dimension == known
      invariant dimension.None? ==> i == 0
      invariant dimension.Some? ==> forall k :: 0 <= k < i ==> GoodRow(rows[k], dimension.value)
      invariant forall d: nat :: Fits(known, d) && AllGood(rows, d) ==> Fits(dimension, d)
    {
      var row := rows[i];
      assert row in rows;
      if row.embedding.None? || row.embedding.value == [] {
        return Err(ValueError);
      }
      var vector := row.embedding.value;
      if dimension.None? {
        dimension := Some(|vector|);
      }
      if |vector| != dimension.value {
        return Err(ValueError);
      }
      if !AllFinite(vector) {
        return Err(ValueError);
      }
      vectors := vectors + [vector];
      i := i + 1;
    }
    var d := if dimension.Some? then dimension.value else 0;
    assert Fits(known, d) && AllGood(rows, d);
    return Ok(vectors);
  }

  ghost function VectorFor(data: Data, k: nat): Vector
    requires data.Rows? && k < |data.rows| && (Unindexed(data.rows) || Covers(data.rows))
    requires AllObjects(data.rows) && forall row <- data.rows :: row.Object? && row.embedding.Some?
  {
    assert data.rows[RowFor(data.rows, k)] in data.rows;
    data.rows[RowFor(data.rows, k)].embedding.value
  }

  method ValidateEmbeddingBatch(data: Data, count: nat, dimension: Option<nat>) returns (r: Result<seq<Vector>>)
    ensures r.Ok? <==> Accepts(data, count, dimension)
    ensures r.Err? ==> r.error == ValueError
    ensures r.Ok? ==> |r.value| == count
    ensures r.Ok? ==> forall k :: 0 <= k < count ==> r.value[k] == VectorFor(data, k)
    ensures r.Ok? ==> exists d: nat :: Fits(dimension, d) && forall k :: 0 <= k < count ==> |r.value[k]| == d
  {
    hide SortRows;
    if data.NotAList? || |data.rows| != count {
      return Err(ValueError);
    }
    var rows := data.rows;
    if exists i :: 0 <= i < |rows| && rows[i].NotAnObject? {
      return Err(ValueError);
    }
    IndexedOrNot(rows);
    if AnyIndexed(rows) {
      RangeIffCovers(rows);
      if !AllNumbered(rows) || !IsRange(SortRows(rows)) {
        return Err(ValueError);
      }
      SortSorts(rows);
      rows := SortRows(rows);
      forall d: nat
        ensures AllGood(data.rows, d) <==> AllGood(rows, d)
      {
        SameGood(data.rows, rows, d);
      }
      forall k | 0 <= k < count
        ensures rows[k] == data.rows[RowFor(data.rows, k)]
      {
        SortedIsChosen(data.rows, k);
      }
    }
    r := ReadVectors(rows, dimension);
  }

  // ---- Cutting texts to the context.

  /** `text[0:cutoff]`. */
  function SliceTo(text: string, cutoff: int): (t: string)
    ensures t <= text
    ensures cutoff >= 0 ==> |t| == if cutoff <= |text| then cutoff else |text|
    ensures cutoff < 0 ==> |t| == if |text| + cutoff > 0 then |text| + cutoff else 0
  {
    if cutoff >= |text| then text
    else if cutoff >= 0 then text[..cutoff]
    else if |text| + cutoff >= 0 then text[..|text| + cutoff]
    else ""
  }

  /** Integer division rounds down here: the divisor is a count of tokens. */
  function Cutoff(text: string, contextSize: int, tokens: nat): int
    requires tokens > 0
  {
    |text| * contextSize / tokens
  }

  predicate DividesByZero(contextSize: int, tokens: nat) {
    tokens >= contextSize && tokens == 0
  }

  function Cut(text: string, contextSize: int, tokens: nat): (t: string)
    requires !DividesByZero(contextSize, tokens)
    ensures t <= text
  {
    if tokens >= contextSize then SliceTo(text, Cutoff(text, contextSize, tokens)) else text
  }

  lemma CutIs(text: string, contextSize: int, tokens: nat)
    requires !DividesByZero(contextSize, tokens)
    ensures tokens < contextSize ==> Cut(text, contextSize, tokens) == text
    ensures tokens >= contextSize ==>
      Cut(text, contextSize, tokens) == SliceTo(text, |text| * contextSize / tokens)
  {
  }

  /** The cutoff of a text too long is a place inside it, so exactly that many characters
      are kept. */
  lemma CutoffIsInside(text: string, contextSize: int, tokens: nat)
    requires 0 <= contextSize <= tokens && tokens > 0
    ensures 0 <= Cutoff(text, contextSize, tokens) <= |text|
    ensures |Cut(text, contextSize, tokens)| == Cutoff(text, contextSize, tokens)
  {
    assert |text| * contextSize <= |text| * tokens;
    assert |text| * tokens / tokens == |text|;
    DivMono(|text| * contextSize, |text| * tokens, tokens);
  }

  lemma MulMono(a: nat, b: nat, p: nat)
    requires a <= b
    ensures a * p <= b * p
  {
  }

  lemma DivMono(a: nat, b: nat, d: nat)
    requires a <= b && d > 0
    ensures 0 <= a / d <= b / d
  {
    assert (b / d + 1) * d == b / d * d + d;
    if a / d > b / d {
      MulMono(b / d + 1, a / d, d);
    }
  }

  method CutTexts(texts: seq<string>, contextSize: int, count: string -> nat) returns (r: Result<seq<string>>)
    ensures r.Ok? <==> forall text <- texts :: !DividesByZero(contextSize, count(text))
    ensures r.Err? ==> r.error == ZeroDivision
    ensures r.Ok? ==> |r.value| == |texts|
    ensures r.Ok? ==> forall i :: 0 <= i < |texts| ==>
      !DividesByZero(contextSize, count(texts[i])) && r.value[i] == Cut(texts[i], contextSize, count(texts[i]))
  {
    hide Cut, SliceTo;
    var inputs: seq<string> := [];
    for i := 0 to |texts|
      invariant |inputs| == i
      invariant forall j :: 0 <= j < i ==>
        !DividesByZero(contextSize, count(texts[j])) && inputs[j] == Cut(texts[j], contextSize, count(texts[j]))
    {
      var text := texts[i];
      var numTokens := count(text);
      if numTokens > 0 || numTokens < contextSize {
        CutIs(text, contextSize, numTokens);
      }
      if numTokens >= contextSize {
        if numTokens == 0 {
          assert text in texts;
          return Err(ZeroDivision);
        }
        inputs := inputs + [SliceTo(text, |text| * contextSize / numTokens)];
      } else {
        inputs := inputs + [text];
      }
    }
    return Ok(inputs);
  }

  // ---- The batches.

  /** What the server does with one request: fail, or answer with data and token usage,
      each of which may be missing. */
  datatype Reply = Failed | Answer(data: Option<Data>, tokens: Option<int>)

  /** `inputs[i : i + max_chunks]`: the next `m` inputs from `i` on, as far as there are any. */
  function Batch(inputs: seq<string>, i: nat, m: nat): (batch: seq<string>)
    requires i <= |inputs|
    ensures |batch| == m || (|batch| < m && i + |batch| == |inputs|)
    ensures forall j :: 0 <= j < |batch| ==> i + j < |inputs| && batch[j] == inputs[i + j]
  {
    if i + m <= |inputs| then inputs[i..i + m] else inputs[i..]
  }

  /** Batch number `b` is there and is answered with vectors of dimension `d`. */
  ghost predicate BatchOk(serve: (nat, seq<string>) -> Reply, inputs: seq<string>, m: nat, b: nat, d: nat) {
    b * m <= |inputs| &&
    var batch := Batch(inputs, b * m, m);
    var reply := serve(b * m, batch);
    && reply.Answer? && reply.data.Some? && reply.tokens.Some?
    && Accepts(reply.data.value, |batch|, Some(d))
  }

  /** The vector the server returned for text `i`: from batch `i / m`, place `i % m`. */
  ghost function VectorOf(serve: (nat, seq<string>) -> Reply, inputs: seq<string>, m: nat, i: nat, d: nat): Vector
    requires 0 < m && i < |inputs| && BatchOk(serve, inputs, m, i / m, d)
  {
    PlaceInBatch(i, m);
    var b := i / m;
    VectorFor(serve(b * m, Batch(inputs, b * m, m)).data.value, i - b * m)
  }

  lemma PlaceInBatch(i: nat, m: nat)
    requires m > 0
    ensures i / m * m <= i < i / m * m + m
    ensures i - i / m * m == i % m
  {
  }

  lemma BatchOfPlace(i: nat, m: nat, b: nat)
    requires m > 0 && b * m <= i < b * m + m
    ensures i / m == b
  {
    PlaceInBatch(i, m);
    if i / m < b {
      MulMono(i / m + 1, b, m);
    } else if i / m > b {
      MulMono(b + 1, i / m, m);
    }
  }

  lemma AcceptsKnown(data: Data, count: nat, known: Option<nat>, d: nat)
    requires Fits(known, d) && Accepts(data, count, Some(d))
    ensures Accepts(data, count, known)
  {
  }

  lemma AcceptedDimension(data: Data, count: nat, d: nat, k: nat)
    requires Accepts(data, count, Some(d)) && k < count
    ensures |VectorFor(data, k)| == d
  {
    assert data.rows[RowFor(data.rows, k)] in data.rows;
  }

  lemma Narrow(data: Data, count: nat, known: Option<nat>, d: nat)
    requires Accepts(data, count, known) && count > 0 && |VectorFor(data, 0)| == d
    ensures Accepts(data, count, Some(d))
  {
    assert data.rows[RowFor(data.rows, 0)] in data.rows;
  }

  /** The token usage reported for batch `b`, and for the first `n` batches. */
  ghost function TokensOf(serve: (nat, seq<string>) -> Reply, inputs: seq<string>, m: nat, b: nat): int {
    if b * m <= |inputs| then
      var reply := serve(b * m, Batch(inputs, b * m, m));
      if reply.Answer? && reply.tokens.Some? then reply.tokens.value else 0
    else 0
  }

  ghost function UsedTokens(serve: (nat, seq<string>) -> Reply, inputs: seq<string>, m: nat, n: nat): int {
    if n == 0 then 0 else UsedTokens(serve, inputs, m, n - 1) + TokensOf(serve, inputs, m, n - 1)
  }

  /** `n` batches of `m` are just enough for the inputs. */
  ghost predicate JustEnough(inputs: seq<string>, m: nat, n: nat) {
    n * m >= |inputs| && (n > 0 ==> (n - 1) * m < |inputs|)
  }

  /** One request and the check of its answer; `i` is where batch `b` starts. */
  method AskBatch(serve: (nat, seq<string>) -> Reply, inputs: seq<string>, m: nat, i: nat, dimension: Option<nat>,
                  ghost b: nat)
    returns (r: Result<(seq<Vector>, int)>)
    requires m > 0 && i == b * m && i < |inputs|
    ensures r.Ok? <==> exists d: nat :: Fits(dimension, d) && BatchOk(serve, inputs, m, b, d)
    ensures r.Ok? ==> |r.value.0| == |Batch(inputs, i, m)| > 0
    ensures r.Ok? ==> (var d := |r.value.0[0]|; Fits(dimension, d) && BatchOk(serve, inputs, m, b, d))
    ensures r.Ok? ==> forall k :: 0 <= k < |r.value.0| ==> |r.value.0[k]| == |r.value.0[0]|
    ensures r.Ok? ==> (forall j: nat, d: nat | i <= j < i + |r.value.0| && j / m == b && BatchOk(serve, inputs, m, b, d)
                         :: r.value.0[j - i] == VectorOf(serve, inputs, m, j, d))
    ensures r.Ok? ==> r.value.1 == TokensOf(serve, inputs, m, b)
  {
    hide Accepts, VectorFor;
    var batch := Batch(inputs, i, m);
    var reply := serve(i, batch);
    if reply.Failed? || reply.data.None? {
      return Err(HttpError);
    }
    var e := ValidateEmbeddingBatch(reply.data.value, |batch|, dimension);
    forall d: nat | Fits(dimension, d) && Accepts(reply.data.value, |batch|, Some(d))
      ensures e.Ok?
    {
      AcceptsKnown(reply.data.value, |batch|, dimension, d);
    }
    if e.Err? {
      return Err(e.error);
    }
    if reply.tokens.None? {
      return Err(HttpError);
    }
    Narrow(reply.data.value, |batch|, dimension, |e.value[0]|);
    return Ok((e.value, reply.tokens.value));
  }

  /** All texts are sent, the batches being numbered from 0, and all answers are good. */
  ghost predicate AllAnswered(serve: (nat, seq<string>) -> Reply, inputs: seq<string>, m: nat, d: nat) {
    forall b: nat :: b * m < |inputs| ==> BatchOk(serve, inputs, m, b, d)
  }

  /** The vectors are those the server returned for the texts, in the order of the texts,
      and share the dimension `d`. */
  ghost predicate InOrder(serve: (nat, seq<string>) -> Reply, inputs: seq<string>, m: nat, d: nat, vectors: seq<Vector>)
    requires m > 0 && |vectors| <= |inputs|
  {
    forall i :: 0 <= i < |vectors| ==>
      BatchOk(serve, inputs, m, i / m, d) && vectors[i] == VectorOf(serve, inputs, m, i, d) && |vectors[i]| == d
  }

  lemma OneDimension(serve: (nat, seq<string>) -> Reply, inputs: seq<string>, m: nat, b: nat, d: nat, e: nat)
    requires m > 0 && b * m < |inputs|
    requires BatchOk(serve, inputs, m, b, d) && BatchOk(serve, inputs, m, b, e)
    ensures d == e
  {
    hide VectorFor;
    var batch := Batch(inputs, b * m, m);
    var data := serve(b * m, batch).data.value;
    assert |batch| > 0;
    AcceptedDimension(data, |batch|, d, 0);
    AcceptedDimension(data, |batch|, e, 0);
  }

  lemma InOrderGrows(serve: (nat, seq<string>) -> Reply, inputs: seq<string>, m: nat, d: nat,
                     vectors: seq<Vector>, more: seq<Vector>, b: nat)
    requires m > 0 && |vectors| == b * m && |vectors| + |more| <= |inputs| && |more| <= m
    requires InOrder(serve, inputs, m, d, vectors) && BatchOk(serve, inputs, m, b, d)
    requires forall k :: 0 <= k < |more| ==> |more[k]| == d
    requires forall j: nat | b * m <= j < b * m + |more| && j / m == b
               :: more[j - b * m] == VectorOf(serve, inputs, m, j, d)
    ensures InOrder(serve, inputs, m, d, vectors + more)
  {
    hide BatchOk, VectorOf;
    forall i | |vectors| <= i < |vectors| + |more|
      ensures i / m == b
    {
      BatchOfPlace(i, m, b);
    }
  }

  /** So text `i` stood at place `i % m` of one request, a slice of the texts, and vector `i`
      is what the server answered for that place. */
  lemma VectorsAreForTheirTexts(serve: (nat, seq<string>) -> Reply, inputs: seq<string>, m: nat, d: nat,
                                vectors: seq<Vector>, i: nat)
    requires m > 0 && |vectors| <= |inputs| && InOrder(serve, inputs, m, d, vectors) && i < |vectors|
    ensures var start := i / m * m;
      var request := inputs[start..if start + m <= |inputs| then start + m else |inputs|];
      var reply := serve(start, request);
      && request[i % m] == inputs[i]
      && reply.Answer? && reply.data.Some? && Accepts(reply.data.value, |request|, Some(d))
      && vectors[i] == VectorFor(reply.data.value, i % m)
  {
    hide VectorFor, Accepts;
    PlaceInBatch(i, m);
    var start := i / m * m;
    assert BatchOk(serve, inputs, m, i / m, d);
    assert Batch(inputs, start, m) == inputs[start..if start + m <= |inputs| then start + m else |inputs|];
  }

  method EmbedBatches(serve: (nat, seq<string>) -> Reply, inputs: seq<string>, m: nat)
    returns (r: Result<(seq<Vector>, int)>)
    requires m > 0
    ensures r.Ok? <==> exists d: nat :: AllAnswered(serve, inputs, m, d)
    ensures r.Ok? ==> |r.value.0| == |inputs|
    ensures r.Ok? ==> exists d: nat :: AllAnswered(serve, inputs, m, d) && InOrder(serve, inputs, m, d, r.value.0)
    ensures r.Ok? ==> exists n: nat :: JustEnough(inputs, m, n) && r.value.1 == UsedTokens(serve, inputs, m, n)
  {
    hide BatchOk, VectorOf, TokensOf;
    var batched: seq<Vector> := [];
    var dimension: Option<nat> := None;
    var used := 0;
    var i := 0;
    ghost var b: nat := 0;
    while i < |inputs|
      invariant i == b * m
      invariant b > 0 ==> (b - 1) * m < |inputs|
      invariant used == UsedTokens(serve, inputs, m, b)
      invariant |batched| == if i <= |inputs| then i else |inputs|
      invariant dimension.None? <==> b == 0
      invariant dimension.Some? ==> InOrder(serve, inputs, m, dimension.value, batched)
      invariant dimension.Some? ==> forall e: nat :: e < b ==> BatchOk(serve, inputs, m, e, dimension.value)
      invariant forall d: nat :: AllAnswered(serve, inputs, m, d) ==> Fits(dimension, d)
    {
      var e := AskBatch(serve, inputs, m, i, dimension, b);
      if e.Err? {
        return Err(e.error);
      }
      var (embeddings, tokens) := e.value;
      forall d: nat | AllAnswered(serve, inputs, m, d)
        ensures d == |embeddings[0]|
      {
        OneDimension(serve, inputs, m, b, d, |embeddings[0]|);
      }
      InOrderGrows(serve, inputs, m, |embeddings[0]|, batched, embeddings, b);
      dimension := Some(|embeddings[0]|);
      used := used + tokens;
      batched := batched + embeddings;
      i := i + m;
      b := b + 1;
    }
    ghost var d: nat := if dimension.Some? then dimension.value else 0;
    forall e: nat | e * m < |inputs|
      ensures BatchOk(serve, inputs, m, e, d)
    {
      if e >= b {
        MulMono(b, e, m);
      }
    }
    assert AllAnswered(serve, inputs, m, d);
    assert JustEnough(inputs, m, b);
    return Ok((batched, used));
  }

  /** The inputs are the texts, each cut to the context. */
  ghost predicate AreCut(texts: seq<string>, contextSize: int, count: string -> nat, inputs: seq<string>) {
    && |inputs| == |texts|
    && forall i :: 0 <= i < |texts| ==>
         !DividesByZero(contextSize, count(texts[i])) && inputs[i] == Cut(texts[i], contextSize, count(texts[i]))
  }

  lemma CutIsUnique(texts: seq<string>, contextSize: int, count: string -> nat, a: seq<string>, b: seq<string>)
    requires AreCut(texts, contextSize, count, a) && AreCut(texts, contextSize, count, b)
    ensures a == b
  {
    hide Cut;
  }

  /** What a successful call gives: for every batch size from 1 on, the vectors of the cut
      texts in their order. */
  method Invoke(texts: seq<string>, contextSize: int, maxChunks: int, count: string -> nat,
                serve: (nat, seq<string>) -> Reply)
    returns (r: Result<(seq<Vector>, int)>)
    ensures maxChunks == 0 ==> r.Err?
    ensures r.Ok? && maxChunks > 0 ==> |r.value.0| == |texts|
    ensures r.Ok? && maxChunks > 0 ==> exists inputs: seq<string>, d: nat ::
      && AreCut(texts, contextSize, count, inputs)
      && AllAnswered(serve, inputs, maxChunks, d) && InOrder(serve, inputs, maxChunks, d, r.value.0)
    ensures maxChunks > 0 ==> (r.Ok? <==> exists inputs: seq<string>, d: nat ::
      AreCut(texts, contextSize, count, inputs) && AllAnswered(serve, inputs, maxChunks, d))
    ensures r.Ok? && maxChunks > 0 ==> exists inputs: seq<string>, n: nat ::
      && AreCut(texts, contextSize, count, inputs)
      && JustEnough(inputs, maxChunks, n) && r.value.1 == UsedTokens(serve, inputs, maxChunks, n)
    ensures r.Ok? && maxChunks < 0 ==> r.value == ([], 0)
    ensures r.Ok? ==> (|r.value.0| == |texts| <==> maxChunks > 0 || texts == [])
  {
    hide AllAnswered, InOrder, UsedTokens, JustEnough;
    var cut := CutTexts(texts, contextSize, count);
    forall inputs | AreCut(texts, contextSize, count, inputs)
      ensures cut.Ok? && inputs == cut.value
    {
      if cut.Ok? {
        assert AreCut(texts, contextSize, count, cut.value);
        CutIsUnique(texts, contextSize, count, inputs, cut.value);
      }
    }
    if cut.Err? {
      return Err(cut.error);
    }
    if maxChunks == 0 {
      return Err(ValueError);
    }
    if maxChunks < 0 {
      // the range of starts is empty
      return Ok(([], 0));
    }
    r := EmbedBatches(serve, cut.value, maxChunks);
    assert AreCut(texts, contextSize, count, cut.value);
  }
}
