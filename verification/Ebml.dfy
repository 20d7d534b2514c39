// Telling WebM from other EBML files by their header: variable-size integers (section 4 of
// RFC 8794) and the walk over the header's elements (section 6).
module Ebml {
  import opened Text

  type Byte = b: nat | b < 256
  type Bytes = seq<Byte>

  const MAGIC: Bytes := [0x1A, 0x45, 0xDF, 0xA3]
  const DOC_TYPE: Bytes := [0x42, 0x82]
  const WEBM: Bytes := [0x77, 0x65, 0x62, 0x6D]
  const MAX_ID_WIDTH := 4
  const MAX_SIZE_WIDTH := 8

  // ---- Variable-size integers.

  function Pow2(n: nat): (p: nat)
    ensures p > 0
  {
    if n == 0 then 1 else 2 * Pow2(n - 1)
  }

  /** Python's `int.bit_length`. */
  function BitLength(n: nat): nat {
    if n == 0 then 0 else 1 + BitLength(n / 2)
  }

  /** Python's `int.from_bytes`, big-endian. */
  function FromBytes(b: Bytes): nat {
    if b == [] then 0 else 256 * FromBytes(b[..|b| - 1]) + b[|b| - 1]
  }

  function ReadSize(data: Bytes, offset: nat): (r: Option<(nat, nat)>)
    ensures r.Some? ==> offset < r.value.1 <= |data|
  {
    if offset >= |data| then None
    else
      ByteBits(data[offset]);
      var width := 9 - BitLength(data[offset]);
      if width > MAX_SIZE_WIDTH || offset + width > |data| then None
      else
        var value := FromBytes(data[offset..offset + width]) % Pow2(7 * width);
        if value == Pow2(7 * width) - 1 then None else Some((value, offset + width))
  }

  /** The reference encoder: the lowest `width` bytes of a number, most significant first. */
  function ToBytes(width: nat, n: nat): (b: Bytes)
    ensures |b| == width
  {
    if width == 0 then [] else ToBytes(width - 1, n / 256) + [n % 256]
  }

  predicate Encodable(width: nat, value: nat) {
    1 <= width <= MAX_SIZE_WIDTH && value < Pow2(7 * width) - 1
  }

  /** A size of `width` bytes: a marker bit, and 7 bits a byte for the value. */
  function Encode(width: nat, value: nat): (b: Bytes)
    ensures |b| == width
  {
    ToBytes(width, Pow2(7 * width) + value)
  }

  lemma {:induction false} BitLengthBounds(n: nat)
    ensures n > 0 ==> BitLength(n) > 0 && Pow2(BitLength(n) - 1) <= n
    ensures n < Pow2(BitLength(n))
  {
    if n > 0 {
      BitLengthBounds(n / 2);
    }
  }

  lemma {:induction false} Pow2Add(a: nat, b: nat)
    ensures Pow2(a + b) == Pow2(a) * Pow2(b)
  {
    if a > 0 {
      Pow2Add(a - 1, b);
      assert Pow2(a + b) == 2 * (Pow2(a - 1) * Pow2(b));
    }
  }

  lemma {:induction false} Pow2Mono(a: nat, b: nat)
    requires a <= b
    ensures Pow2(a) <= Pow2(b)
  {
    if a < b {
      Pow2Mono(a, b - 1);
    }
  }

  lemma Pow2Of8()
    ensures Pow2(8) == 256
  {
    assert Pow2(4) == 16;
  }

  lemma ByteBits(b: Byte)
    ensures BitLength(b) <= 8
  {
    BitLengthBounds(b);
    Pow2Of8();
    if BitLength(b) > 8 {
      Pow2Mono(8, BitLength(b) - 1);
    }
  }

  /** A number with bit length `k`, and no other, is between two powers. */
  lemma BitLengthIs(n: nat, k: nat)
    requires k > 0 && Pow2(k - 1) <= n < Pow2(k)
    ensures BitLength(n) == k
  {
    BitLengthBounds(n);
    if BitLength(n) < k {
      Pow2Mono(BitLength(n), k - 1);
    } else if BitLength(n) > k {
      Pow2Mono(k, BitLength(n) - 1);
    }
  }

  lemma {:induction false} FromToBytes(width: nat, n: nat)
    requires n < Pow2(8 * width)
    ensures FromBytes(ToBytes(width, n)) == n
  {
    if width > 0 {
      Pow2Of8();
      Pow2Add(8, 8 * (width - 1));
      assert Pow2(8 * width) == 256 * Pow2(8 * (width - 1));
      FromToBytes(width - 1, n / 256);
      assert ToBytes(width, n)[..width - 1] == ToBytes(width - 1, n / 256);
    }
  }

  lemma {:induction false} ToFromBytes(b: Bytes)
    ensures ToBytes(|b|, FromBytes(b)) == b
    ensures FromBytes(b) < Pow2(8 * |b|)
  {
    if b != [] {
      var n := |b| - 1;
      ToFromBytes(b[..n]);
      Pow2Of8();
      Pow2Add(8, 8 * n);
      assert Pow2(8 * |b|) == 256 * Pow2(8 * n);
      assert FromBytes(b) / 256 == FromBytes(b[..n]) && FromBytes(b) % 256 == b[n];
      assert b == b[..n] + [b[n]];
    }
  }

  lemma MulMono(a: nat, b: nat, p: nat)
    requires a <= b
    ensures a * p <= b * p
  {
  }

  lemma OneMoreByte(x: nat, q: nat, f: nat, last: Byte)
    requires x * q <= f < (x + 1) * q
    ensures x * (256 * q) <= 256 * f + last < (x + 1) * (256 * q)
  {
    assert x * (256 * q) == 256 * (x * q);
    assert (x + 1) * (256 * q) == 256 * ((x + 1) * q);
  }

  /** The first byte holds the topmost eight bits. */
  lemma {:induction false} FirstByte(b: Bytes)
    requires b != []
    ensures var p := Pow2(8 * (|b| - 1)); b[0] * p <= FromBytes(b) < (b[0] + 1) * p
  {
    var n := |b| - 1;
    if n > 0 {
      FirstByte(b[..n]);
      OneMoreByte(b[0], Pow2(8 * (n - 1)), FromBytes(b[..n]), b[n]);
      Pow2Of8();
      Pow2Add(8, 8 * (n - 1));
    } else {
      assert b[..0] == [];
    }
  }

  /** `x` is the part of `n` above `p`. */
  lemma TopPart(x: nat, lo: nat, hi: nat, p: nat, n: nat)
    requires x * p <= n < (x + 1) * p
    ensures lo <= x < hi <==> lo * p <= n < hi * p
  {
    if lo <= x {
      MulMono(lo, x, p);
    } else {
      MulMono(x + 1, lo, p);
    }
    if x < hi {
      MulMono(x + 1, hi, p);
    } else {
      MulMono(hi, x, p);
    }
  }

  lemma BitLengthIff(n: nat, k: nat)
    requires k > 0
    ensures BitLength(n) == k <==> Pow2(k - 1) <= n < Pow2(k)
  {
    BitLengthBounds(n);
    if Pow2(k - 1) <= n < Pow2(k) {
      BitLengthIs(n, k);
    }
  }

  /** An encoded size shows its width in the bit length of its first byte. */
  lemma MarkerGivesWidth(b: Bytes)
    requires 1 <= |b| <= 8
    ensures BitLength(b[0]) == 9 - |b| <==> Pow2(7 * |b|) <= FromBytes(b) < 2 * Pow2(7 * |b|)
  {
    hide BitLength, FromBytes;
    var w := |b|;
    FirstByte(b);
    BitLengthIff(b[0], 9 - w);
    TopPart(b[0], Pow2(8 - w), Pow2(9 - w), Pow2(8 * (w - 1)), FromBytes(b));
    Pow2Add(8 - w, 8 * (w - 1));
    Pow2Add(9 - w, 8 * (w - 1));
    assert 8 - w + 8 * (w - 1) == 7 * w && 9 - w + 8 * (w - 1) == 7 * w + 1;
  }

  lemma Remainder(n: nat, p: nat)
    requires 0 < p <= n < 2 * p
    ensures n % p == n - p
  {
    assert n == p * 1 + (n - p);
    assert n / p == 1;
  }

  lemma MaskIsRemainder(n: nat, p: nat, v: nat)
    requires 0 < p <= n < 2 * p
    ensures n % p == v <==> n == p + v
  {
    Remainder(n, p);
  }

  lemma FitsWidth(width: nat, value: nat)
    requires Encodable(width, value)
    ensures Pow2(7 * width) + value < Pow2(8 * width)
  {
    Pow2Mono(7 * width + 1, 8 * width);
  }

  /** Reading a size is exactly the inverse of encoding one: it succeeds where some width
      and value were encoded, and returns that value and the place right after it. */
  lemma ReadSizeInvertsEncode(data: Bytes, offset: nat, width: nat, value: nat)
    ensures (Encodable(width, value) && offset + width <= |data| && data[offset..offset + width] == Encode(width, value))
      <==> ReadSize(data, offset) == Some((value, offset + width))
  {
    hide BitLength, FromBytes, ToBytes, Pow2;
    if 1 <= width <= 8 && offset + width <= |data| {
      var b, p := data[offset..offset + width], Pow2(7 * width);
      ByteBits(data[offset]);
      MarkerGivesWidth(b);
      ToFromBytes(b);
      if p <= FromBytes(b) < 2 * p {
        MaskIsRemainder(FromBytes(b), p, value);
      }
      if Encodable(width, value) {
        FitsWidth(width, value);
        FromToBytes(width, p + value);
      }
    }
  }

  /** In front of anything and behind anything, an encoded size reads back. */
  lemma DecodeUndoesEncode(before: Bytes, width: nat, value: nat, rest: Bytes)
    requires Encodable(width, value)
    ensures ReadSize(before + Encode(width, value) + rest, |before|) == Some((value, |before| + width))
  {
    hide Encode;
    var data := before + Encode(width, value) + rest;
    assert data[|before|..|before| + width] == Encode(width, value);
    ReadSizeInvertsEncode(data, |before|, width, value);
  }

  // ---- The header.

  /** One element: an id and what it holds. */
  datatype Element = Element(id: Bytes, payload: Bytes)

  predicate IsId(id: Bytes) {
    1 <= |id| <= MAX_ID_WIDTH && BitLength(id[0]) == 9 - |id|
  }

  /** The element at `offset`, if it is whole, inside its parent and inside the file, and
      the offset behind it. */
  function NextElement(header: Bytes, offset: nat, rootEnd: nat): (r: Option<(Element, nat)>)
    ensures r.Some? ==> offset < r.value.1 <= |header| && r.value.1 <= rootEnd
  {
    if offset >= rootEnd || offset >= |header| then None
    else
      ByteBits(header[offset]);
      var idWidth := 9 - BitLength(header[offset]);
      if idWidth > MAX_ID_WIDTH || offset + idWidth > rootEnd || offset + idWidth > |header| then None
      else
        match ReadSize(header, offset + idWidth)
        case None => None
        case Some((size, start)) =>
          if start + size > rootEnd || start + size > |header| then None
          else Some((Element(header[offset..offset + idWidth], header[start..start + size]), start + size))
  }

  /** The elements up to the first that is not whole. */
  function Elements(header: Bytes, offset: nat, rootEnd: nat): seq<Element>
    decreases |header| - offset
  {
    match NextElement(header, offset, rootEnd)
    case None => []
    case Some((element, next)) => [element] + Elements(header, next, rootEnd)
  }

  /** `b.partition(b"\0")[0]`. */
  function UpToNul(b: Bytes): (r: Bytes)
    ensures r <= b && 0 !in r
    ensures r == b || b[|r|] == 0
  {
    if b == [] || b[0] == 0 then [] else [b[0]] + UpToNul(b[1..])
  }

  /** The first document type among the elements is WebM. */
  predicate IsWebm(elements: seq<Element>) {
    if elements == [] then false
    else if elements[0].id == DOC_TYPE then UpToNul(elements[0].payload) == WEBM
    else IsWebm(elements[1..])
  }

  /** The root's elements, when the file starts with a root of known size. */
  function RootElements(header: Bytes): seq<Element> {
    if !(MAGIC <= header) then []
    else match ReadSize(header, |MAGIC|)
      case None => []
      case Some((size, offset)) => Elements(header, offset, offset + size)
  }

  lemma NothingIsNotWebm()
    ensures !IsWebm([])
  {
  }

  /** What one element decides. */
  lemma IsWebmAt(header: Bytes, offset: nat, rootEnd: nat)
    ensures IsWebm(Elements(header, offset, rootEnd)) <==>
      match NextElement(header, offset, rootEnd)
      case None => false
      case Some((element, next)) =>
        if element.id == DOC_TYPE then UpToNul(element.payload) == WEBM
        else IsWebm(Elements(header, next, rootEnd))
  {
    hide NextElement, UpToNul;
    if NextElement(header, offset, rootEnd).Some? {
      var (element, next) := NextElement(header, offset, rootEnd).value;
      assert ([element] + Elements(header, next, rootEnd))[1..] == Elements(header, next, rootEnd);
    }
  }

  method IsWebmHeader(header: Bytes) returns (r: bool)
    ensures r <==> IsWebm(RootElements(header))
  {
    hide ReadSize, UpToNul, BitLength, Elements, IsWebm;
    NothingIsNotWebm();
    if !(MAGIC <= header) {
      return false;
    }
    var root := ReadSize(header, 4);
    if root.None? {
      return false;
    }
    var (rootSize, offset) := root.value;
    var rootEnd := offset + rootSize;
    while offset < rootEnd
      invariant IsWebm(RootElements(header)) == IsWebm(Elements(header, offset, rootEnd))
      decreases |header| - offset
    {
      IsWebmAt(header, offset, rootEnd);
      if offset >= |header| {
        break;
      }
      ByteBits(header[offset]);
      var idWidth := 9 - BitLength(header[offset]);
      if idWidth > MAX_ID_WIDTH || offset + idWidth > if rootEnd < |header| then rootEnd else |header| {
        break;
      }
      var elementId := header[offset..offset + idWidth];
      var element := ReadSize(header, offset + idWidth);
      if element.None? {
        break;
      }
      var (elementSize, valueStart) := element.value;
      var valueEnd := valueStart + elementSize;
      if valueEnd > rootEnd || valueEnd > |header| {
        break;
      }
      assert NextElement(header, offset, rootEnd)
          == Some((Element(elementId, header[valueStart..valueEnd]), valueEnd));
      if elementId == DOC_TYPE {
        return UpToNul(header[valueStart..valueEnd]) == WEBM;
      }
      offset := valueEnd;
    }
    IsWebmAt(header, offset, rootEnd);
    return false;
  }

  // ---- Printed headers.

  /** An element and the width its size is written with. */
  datatype Item = Item(element: Element, sizeWidth: nat)

  predicate Printable(item: Item) {
    IsId(item.element.id) && Encodable(item.sizeWidth, |item.element.payload|)
  }

  function PrintItem(item: Item): Bytes {
    item.element.id + Encode(item.sizeWidth, |item.element.payload|) + item.element.payload
  }

  function PrintItems(items: seq<Item>): Bytes {
    if items == [] then [] else PrintItem(items[0]) + PrintItems(items[1..])
  }

  function PrintHeader(rootWidth: nat, items: seq<Item>): Bytes {
    MAGIC + Encode(rootWidth, |PrintItems(items)|) + PrintItems(items)
  }

  function ElementsOf(items: seq<Item>): seq<Element> {
    if items == [] then [] else [items[0].element] + ElementsOf(items[1..])
  }

  /** A printed element is the next element, wherever its parent ends behind it. */
  lemma NextIsPrinted(before: Bytes, item: Item, after: Bytes, rootEnd: nat)
    requires Printable(item) && |before| + |PrintItem(item)| <= rootEnd
    ensures NextElement(before + PrintItem(item) + after, |before|, rootEnd)
         == Some((item.element, |before| + |PrintItem(item)|))
  {
    hide BitLength, ReadSize, Encode;
    var header := before + PrintItem(item) + after;
    var (id, payload) := (item.element.id, item.element.payload);
    var size := Encode(item.sizeWidth, |payload|);
    assert header[|before|] == id[0];
    assert header == (before + id) + size + (payload + after);
    DecodeUndoesEncode(before + id, item.sizeWidth, |payload|, payload + after);
    var start := |before| + |id| + item.sizeWidth;
    assert header[|before|..|before| + |id|] == id;
    assert header[start..start + |payload|] == payload;
  }

  lemma Regroup(before: Bytes, first: Bytes, rest: Bytes, after: Bytes)
    ensures before + (first + rest) + after == before + first + (rest + after)
    ensures before + (first + rest) + after == (before + first) + rest + after
  {
  }

  lemma WalkEnds(header: Bytes, rootEnd: nat)
    ensures Elements(header, rootEnd, rootEnd) == []
    ensures PrintItems([]) == [] && ElementsOf([]) == []
  {
  }

  lemma WalkStep(header: Bytes, offset: nat, rootEnd: nat, items: seq<Item>)
    requires items != [] && NextElement(header, offset, rootEnd).Some?
    ensures var (element, next) := NextElement(header, offset, rootEnd).value;
      Elements(header, offset, rootEnd) == [element] + Elements(header, next, rootEnd)
    ensures ElementsOf(items) == [items[0].element] + ElementsOf(items[1..])
  {
    hide NextElement, PrintItem;
  }

  lemma PrintStep(items: seq<Item>)
    requires items != []
    ensures PrintItems(items) == PrintItem(items[0]) + PrintItems(items[1..])
  {
    hide PrintItem;
  }

  lemma {:induction false} WalkSeesPrinted(before: Bytes, items: seq<Item>, after: Bytes, header: Bytes, rootEnd: nat)
    requires forall i :: 0 <= i < |items| ==> Printable(items[i])
    requires header == before + PrintItems(items) + after && rootEnd == |before| + |PrintItems(items)|
    ensures Elements(header, |before|, rootEnd) == ElementsOf(items)
    decreases |items|
  {
    hide NextElement, PrintItem, Printable, Elements, PrintItems, ElementsOf;
    if items == [] {
      WalkEnds(header, rootEnd);
    } else {
      var first, rest := PrintItem(items[0]), PrintItems(items[1..]);
      PrintStep(items);
      Regroup(before, first, rest, after);
      NextIsPrinted(before, items[0], rest + after, rootEnd);
      WalkSeesPrinted(before + first, items[1..], after, header, rootEnd);
      assert NextElement(header, |before|, rootEnd) == Some((items[0].element, |before + first|));
      WalkStep(header, |before|, rootEnd, items);
    }
  }

  /** On every printed header that fits, with anything behind it, the answer is yes exactly
      when the first document type among the printed elements is WebM. */
  lemma PrintedHeaderIsRecognised(rootWidth: nat, items: seq<Item>, after: Bytes)
    requires forall i :: 0 <= i < |items| ==> Printable(items[i])
    requires Encodable(rootWidth, |PrintItems(items)|)
    ensures RootElements(PrintHeader(rootWidth, items) + after) == ElementsOf(items)
    ensures IsWebm(RootElements(PrintHeader(rootWidth, items) + after)) <==> IsWebm(ElementsOf(items))
  {
    hide Elements, ReadSize, PrintItems, Encode, Encodable, ElementsOf;
    var body := PrintItems(items);
    var size := Encode(rootWidth, |body|);
    var header := PrintHeader(rootWidth, items) + after;
    assert header == MAGIC + size + (body + after);
    assert header == (MAGIC + size) + body + after;
    DecodeUndoesEncode(MAGIC, rootWidth, |body|, body + after);
    WalkSeesPrinted(MAGIC + size, items, after, header, |MAGIC + size| + |body|);
  }

  // ---- Headers cut short.

  lemma ReadSizeOfCut(header: Bytes, n: nat, offset: nat)
    requires n <= |header| && ReadSize(header[..n], offset).Some?
    ensures ReadSize(header, offset) == ReadSize(header[..n], offset)
  {
    hide BitLength, FromBytes, Pow2;
    ByteBits(header[offset]);
    var width := 9 - BitLength(header[offset]);
    assert header[..n][offset..offset + width] == header[offset..offset + width];
  }

  lemma NextOfCut(header: Bytes, n: nat, offset: nat, rootEnd: nat)
    requires n <= |header| && NextElement(header[..n], offset, rootEnd).Some?
    ensures NextElement(header, offset, rootEnd) == NextElement(header[..n], offset, rootEnd)
  {
    hide BitLength, ReadSize;
    ByteBits(header[offset]);
    var idWidth := 9 - BitLength(header[offset]);
    ReadSizeOfCut(header, n, offset + idWidth);
    var (size, start) := ReadSize(header, offset + idWidth).value;
    assert header[..n][offset..offset + idWidth] == header[offset..offset + idWidth];
    assert header[..n][start..start + size] == header[start..start + size];
  }

  lemma {:induction false} ElementsOfCut(header: Bytes, n: nat, offset: nat, rootEnd: nat)
    requires n <= |header|
    ensures Elements(header[..n], offset, rootEnd) <= Elements(header, offset, rootEnd)
    decreases n - offset
  {
    hide NextElement;
    if NextElement(header[..n], offset, rootEnd).Some? {
      NextOfCut(header, n, offset, rootEnd);
      ElementsOfCut(header, n, NextElement(header, offset, rootEnd).value.1, rootEnd);
    }
  }

  lemma {:induction false} IsWebmOfPrefix(a: seq<Element>, b: seq<Element>)
    requires a <= b && IsWebm(a)
    ensures IsWebm(b)
  {
    if a[0].id != DOC_TYPE {
      IsWebmOfPrefix(a[1..], b[1..]);
    }
  }

  /** Cutting a file short can hide a WebM header but never fake one. */
  lemma CutNeverFakesWebm(header: Bytes, n: nat)
    requires n <= |header|
    ensures IsWebm(RootElements(header[..n])) ==> IsWebm(RootElements(header))
  {
    hide IsWebm, ReadSize, Elements;
    NothingIsNotWebm();
    if MAGIC <= header[..n] && ReadSize(header[..n], |MAGIC|).Some? {
      ReadSizeOfCut(header, n, |MAGIC|);
      var (size, offset) := ReadSize(header, |MAGIC|).value;
      ElementsOfCut(header, n, offset, offset + size);
      if IsWebm(RootElements(header[..n])) {
        IsWebmOfPrefix(RootElements(header[..n]), RootElements(header));
      }
    }
  }
}
