/**
 Pixel sizes from PNG and JPEG headers: `image_dimensions` of cli/src/cli.rs.
 The marker structure is that of sections B.1.1 and B.2.2 of ITU-T T.81, the
 PNG header that of section 4.1.1 of RFC 2083.
 */
module ImageHeader {
  import opened Basics

  type Byte = x: int | 0 <= x < 256

  const SIGNATURE: seq<Byte> := [0x89, 0x50, 0x4E, 0x47, 0x0D, 0x0A, 0x1A, 0x0A]
  const IHDR: seq<Byte> := [0x49, 0x48, 0x44, 0x52]
  const SOI: seq<Byte> := [0xFF, 0xD8]

  function Big(bytes: seq<Byte>): (n: nat) {
    if bytes == [] then 0 else Big(bytes[..|bytes| - 1]) * 256 + bytes[|bytes| - 1]
  }

  /** Markers without a length field. */
  predicate IsStandalone(marker: Byte) {
    marker == 0xD8 || marker == 0xD9 || marker == 0x01 || 0xD0 <= marker <= 0xD7
  }

  /** Frame headers: all of C0 to CF but DHT, JPG and DAC. */
  predicate IsFrame(marker: Byte) {
    0xC0 <= marker <= 0xCF && marker !in {0xC4, 0xC8, 0xCC}
  }

  /** Of the sixteen markers from C0 on, the first and those not at a multiple of four. */
  predicate IsStartOfFrame(marker: Byte) {
    var n := marker - 0xC0;
    0 <= n < 16 && (n == 0 || n % 4 != 0)
  }

  lemma FrameMarkers(marker: Byte)
    ensures IsFrame(marker) <==> IsStartOfFrame(marker)
  {
    var n := marker - 0xC0;
    assert 0 <= n < 16 && n % 4 == 0 ==> n == 0 || n == 4 || n == 8 || n == 12;
  }

  predicate LooksLikePng(bytes: seq<Byte>) {
    |bytes| >= 24 && bytes[0..8] == SIGNATURE && bytes[12..16] == IHDR
  }

  predicate LooksLikeJpeg(bytes: seq<Byte>) {
    |bytes| > 4 && bytes[0] == 0xFF && bytes[1] == 0xD8
  }

  /** Where the walk goes from a position that holds no frame header. */
  function Next(bytes: seq<Byte>, i: nat): (j: nat)
    requires i + 9 < |bytes|
    ensures i < j
  {
    if bytes[i] != 0xFF || bytes[i + 1] == 0xFF then i + 1
    else if IsStandalone(bytes[i + 1]) then i + 2
    else i + 2 + Big(bytes[i + 2..i + 4])
  }

  predicate FrameAt(bytes: seq<Byte>, i: nat) {
    i + 9 < |bytes| && bytes[i] == 0xFF && IsFrame(bytes[i + 1])
  }

  /** Width and height of the first frame header the walk meets. */
  function Walk(bytes: seq<Byte>, i: nat): Option<(nat, nat)>
    decreases |bytes| - i
  {
    if i + 9 >= |bytes| then None
    else if FrameAt(bytes, i) then Some((Big(bytes[i + 7..i + 9]), Big(bytes[i + 5..i + 7])))
    else Walk(bytes, Next(bytes, i))
  }

  function Dimensions(bytes: seq<Byte>): Option<(nat, nat)> {
    if LooksLikePng(bytes) then Some((Big(bytes[16..20]), Big(bytes[20..24])))
    else if LooksLikeJpeg(bytes) then Walk(bytes, 2)
    else None
  }

  lemma SizesArePresent(bytes: seq<Byte>)
    ensures LooksLikePng(bytes) ==> |bytes| >= 24
  {
  }

  method ImageDimensions(bytes: seq<Byte>) returns (r: Option<(nat, nat)>)
    ensures r == Dimensions(bytes)
  {
    hide Big, LooksLikePng, LooksLikeJpeg;
    SizesArePresent(bytes);
    if LooksLikePng(bytes) {
      return Some((Big(bytes[16..20]), Big(bytes[20..24])));
    }
    if LooksLikeJpeg(bytes) {
      var i := 2;
      while i + 9 < |bytes|
        invariant Dimensions(bytes) == Walk(bytes, i)
        decreases |bytes| - i
      {
        if bytes[i] != 0xFF {
          i := i + 1;
          continue;
        }
        var marker := bytes[i + 1];
        if marker == 0xFF {
          i := i + 1;
          continue;
        }
        if IsStandalone(marker) {
          i := i + 2;
          continue;
        }
        var length := Big(bytes[i + 2..i + 4]);
        if IsFrame(marker) {
          return Some((Big(bytes[i + 7..i + 9]), Big(bytes[i + 5..i + 7])));
        }
        i := i + 2 + length;
      }
    }
    return None;
  }

  /** A size always comes from a frame header at or after the start of the walk. */
  lemma {:induction false} SizeIsInAFrame(bytes: seq<Byte>, i: nat) returns (k: nat)
    requires Walk(bytes, i).Some?
    ensures i <= k && k + 9 < |bytes| && bytes[k] == 0xFF && IsStartOfFrame(bytes[k + 1])
    ensures Walk(bytes, i).value == (Big(bytes[k + 7..k + 9]), Big(bytes[k + 5..k + 7]))
    decreases |bytes| - i
  {
    hide Big, Next;
    k := i;
    if FrameAt(bytes, i) {
      FrameMarkers(bytes[i + 1]);
    } else {
      k := SizeIsInAFrame(bytes, Next(bytes, i));
    }
  }

  // ---- building headers --------------------------------------------------------------

  /** What may stand before the frame header; a marker can be preceded by fill bytes. */
  datatype Item =
    | Stray(value: Byte)
    | Standalone(fill: nat, marker: Byte)
    | Segment(fill: nat, marker: Byte, payload: seq<Byte>)

  predicate IsProper(item: Item) {
    match item
    case Stray(value) => value != 0xFF
    case Standalone(_, marker) => marker == 0x01 || 0xD0 <= marker <= 0xD9
    case Segment(_, marker, payload) =>
      && marker != 0x01 && !(0xD0 <= marker <= 0xD9) && !IsStartOfFrame(marker) && marker != 0xFF
      && |payload| + 2 < 0x1_0000
  }

  function Fill(n: nat): (r: seq<Byte>)
    ensures |r| == n
  {
    seq(n, _ => 0xFF)
  }

  function Be16(n: nat): (r: seq<Byte>)
    requires n < 0x1_0000
    ensures |r| == 2
  {
    [n / 256, n % 256]
  }

  function Be32(n: nat): (r: seq<Byte>)
    requires n < 0x1_0000_0000
    ensures |r| == 4
  {
    Be16(n / 0x1_0000) + Be16(n % 0x1_0000)
  }

  function Encode(item: Item): (r: seq<Byte>)
    requires IsProper(item)
    ensures r != []
  {
    match item
    case Stray(value) => [value]
    case Standalone(fill, marker) => Fill(fill) + [0xFF, marker]
    case Segment(fill, marker, payload) => Fill(fill) + [0xFF, marker] + Be16(|payload| + 2) + payload
  }

  function EncodeAll(items: seq<Item>): seq<Byte>
    requires forall item :: item in items ==> IsProper(item)
  {
    if items == [] then [] else Encode(items[0]) + EncodeAll(items[1..])
  }

  /** A frame header: its length, sample precision, height and width. */
  function Frame(fill: nat, marker: Byte, length: nat, precision: Byte, height: nat, width: nat): seq<Byte>
    requires length < 0x1_0000 && height < 0x1_0000 && width < 0x1_0000
  {
    Fill(fill) + [0xFF, marker] + Be16(length) + [precision] + Be16(height) + Be16(width)
  }

  lemma Big16(n: nat)
    requires n < 0x1_0000
    ensures Big(Be16(n)) == n
  {
    var s := Be16(n);
    assert s[..1] == [s[0]] && s[..1][..0] == [];
    assert Big(s[..1]) == s[0];
  }

  lemma Big32(n: nat)
    requires n < 0x1_0000_0000
    ensures Big(Be32(n)) == n
  {
    var h, l := n / 0x1_0000, n % 0x1_0000;
    var s := Be32(n);
    Big16(h);
    assert s[..3] == Be16(h) + [l / 256] && s[..3][..2] == Be16(h);
    assert Big(s[..3]) == h * 256 + l / 256;
  }

  // ---- the walk inverts the building ------------------------------------------------------

  lemma {:induction false} WalkOverFill(bytes: seq<Byte>, i: nat, n: nat)
    requires i + n + 9 <= |bytes| && bytes[i + n] == 0xFF
    requires forall k :: i <= k < i + n ==> bytes[k] == 0xFF
    ensures Walk(bytes, i) == Walk(bytes, i + n)
    decreases n
  {
    hide Big;
    if n > 0 {
      assert bytes[i] == 0xFF && bytes[i + 1] == 0xFF;
      WalkOverFill(bytes, i + 1, n - 1);
    }
  }

  lemma WalkOverMarker(bytes: seq<Byte>, k: nat, size: nat)
    requires k + 9 < |bytes| && bytes[k] == 0xFF
    requires
      var marker := bytes[k + 1];
      || (IsStandalone(marker) && size == 2)
      || (!IsStandalone(marker) && !IsFrame(marker) && marker != 0xFF && size == 2 + Big(bytes[k + 2..k + 4]))
    ensures Walk(bytes, k) == Walk(bytes, k + size)
  {
    hide Big;
  }

  lemma MarkerLayout(before: seq<Byte>, fill: nat, marker: Byte, after: seq<Byte>)
    ensures
      var bytes := before + (Fill(fill) + [0xFF, marker]) + after;
      && |before| + fill + 1 < |bytes| && bytes[|before| + fill + 1] == marker
      && forall k :: |before| <= k <= |before| + fill ==> bytes[k] == 0xFF
  {
  }

  lemma WalkOverItem(before: seq<Byte>, item: Item, after: seq<Byte>)
    requires IsProper(item) && |after| >= 9
    ensures Walk(before + Encode(item) + after, |before|) == Walk(before + Encode(item) + after, |before + Encode(item)|)
  {
    hide Big, IsStandalone, IsFrame;
    var bytes, i := before + Encode(item) + after, |before|;
    if item.Stray? {
      assert bytes[i] == item.value;
    } else {
      WalkOverMarked(before, item, after);
    }
  }

  function AfterMarker(item: Item): seq<Byte>
    requires IsProper(item)
  {
    if item.Segment? then Be16(|item.payload| + 2) + item.payload else []
  }

  lemma AfterMarkerLength(item: Item)
    requires IsProper(item)
    ensures |AfterMarker(item)| == if item.Segment? then |item.payload| + 2 else 0
  {
  }

  lemma Regrouped(a: seq<Byte>, b: seq<Byte>, c: seq<Byte>, d: seq<Byte>)
    ensures a + (b + c) + d == a + b + (c + d)
  {
  }

  lemma EncodedMarker(item: Item)
    requires IsProper(item) && !item.Stray?
    ensures Encode(item) == Fill(item.fill) + [0xFF, item.marker] + AfterMarker(item)
  {
  }

  lemma WalkOverMarked(before: seq<Byte>, item: Item, after: seq<Byte>)
    requires IsProper(item) && !item.Stray? && |after| >= 9
    ensures Walk(before + Encode(item) + after, |before|) == Walk(before + Encode(item) + after, |before + Encode(item)|)
  {
    hide Big, IsFrame, Walk, Fill, Encode, AfterMarker;
    var bytes, i, k := before + Encode(item) + after, |before|, |before| + item.fill;
    var more := AfterMarker(item);
    EncodedMarker(item);
    AfterMarkerLength(item);
    MarkerLayout(before, item.fill, item.marker, more + after);
    Regrouped(before, Fill(item.fill) + [0xFF, item.marker], more, after);
    FrameMarkers(item.marker);
    if item.Segment? {
      SegmentLength(before, item, after);
    }
    WalkOverFill(bytes, i, item.fill);
    WalkOverMarker(bytes, k, 2 + |more|);
  }

  lemma SegmentLength(before: seq<Byte>, item: Item, after: seq<Byte>)
    requires IsProper(item) && item.Segment?
    ensures
      var bytes, k := before + Encode(item) + after, |before| + item.fill;
      k + 4 <= |bytes| && Big(bytes[k + 2..k + 4]) == |item.payload| + 2
  {
    hide Big;
    var k := |before| + item.fill;
    var n := |item.payload| + 2;
    var bytes := before + Encode(item) + after;
    var head := before + Fill(item.fill) + [0xFF, item.marker];
    assert bytes == head + Be16(n) + (item.payload + after);
    assert |head| == k + 2;
    assert bytes[k + 2..k + 4] == Be16(n);
    Big16(n);
  }

  lemma {:induction false} WalkOverItems(before: seq<Byte>, items: seq<Item>, after: seq<Byte>)
    requires (forall item :: item in items ==> IsProper(item)) && |after| >= 9
    ensures Walk(before + EncodeAll(items) + after, |before|)
      == Walk(before + EncodeAll(items) + after, |before + EncodeAll(items)|)
    decreases |items|
  {
    hide Walk, Encode, IsProper;
    if items == [] {
      assert before + EncodeAll(items) == before;
    } else {
      var head, tail := Encode(items[0]), EncodeAll(items[1..]);
      assert before + EncodeAll(items) + after == before + head + (tail + after);
      assert before + EncodeAll(items) + after == before + head + tail + after;
      assert |before + EncodeAll(items)| == |before + head + tail|;
      WalkOverItem(before, items[0], tail + after);
      WalkOverItems(before + head, items[1..], after);
    }
  }

  /** The size written in a frame header is the one found, whatever proper items
      and fill bytes stand before it, exactly when something follows the width; in
      a proper header the number of components does. */
  lemma JpegRoundTrip(items: seq<Item>, fill: nat, marker: Byte, length: nat, precision: Byte,
                      height: nat, width: nat, rest: seq<Byte>)
    requires (forall item :: item in items ==> IsProper(item)) && IsStartOfFrame(marker)
    requires length < 0x1_0000 && height < 0x1_0000 && width < 0x1_0000
    ensures Dimensions(SOI + EncodeAll(items) + (Frame(fill, marker, length, precision, height, width) + rest))
      == if rest != [] then Some((width, height)) else None
  {
    hide Big, Walk, IsFrame, EncodeAll;
    var frame := Frame(fill, marker, length, precision, height, width);
    var bytes := SOI + EncodeAll(items) + (frame + rest);
    FrameMarkers(marker);
    WalkOverItems(SOI, items, frame + rest);
    var i := |SOI + EncodeAll(items)|;
    assert bytes[0] == 0xFF && bytes[1] == 0xD8 && bytes[..8][0] == 0xFF;
    assert bytes[i..] == frame + rest;
    WalkFindsFrame(bytes, i, fill, marker, length, precision, height, width, rest);
  }

  lemma WalkFindsFrame(bytes: seq<Byte>, i: nat, fill: nat, marker: Byte, length: nat, precision: Byte,
                       height: nat, width: nat, rest: seq<Byte>)
    requires IsFrame(marker) && length < 0x1_0000 && height < 0x1_0000 && width < 0x1_0000
    requires i <= |bytes| && bytes[i..] == Frame(fill, marker, length, precision, height, width) + rest
    ensures Walk(bytes, i) == if rest != [] then Some((width, height)) else None
  {
    hide Big, IsFrame;
    var tail, k := bytes[i..], i + fill;
    FrameLayout(fill, marker, length, precision, height, width, rest);
    hide Frame;
    assert forall j :: 0 <= j < |tail| ==> bytes[i + j] == tail[j];
    forall j | i <= j <= k ensures bytes[j] == 0xFF {
      assert tail[j - i] == 0xFF;
    }
    assert bytes[k + 5..k + 7] == tail[fill + 5..fill + 7] && bytes[k + 7..k + 9] == tail[fill + 7..fill + 9];
    WalkOverFill(bytes, i, fill);
  }

  lemma FrameLayout(fill: nat, marker: Byte, length: nat, precision: Byte, height: nat, width: nat, rest: seq<Byte>)
    requires length < 0x1_0000 && height < 0x1_0000 && width < 0x1_0000
    ensures
      var bytes := Frame(fill, marker, length, precision, height, width) + rest;
      && |bytes| == fill + 9 + |rest|
      && (forall k :: 0 <= k <= fill ==> bytes[k] == 0xFF) && bytes[fill + 1] == marker
      && Big(bytes[fill + 5..fill + 7]) == height && Big(bytes[fill + 7..fill + 9]) == width
  {
    hide Big;
    var bytes := Frame(fill, marker, length, precision, height, width) + rest;
    var head := Fill(fill) + [0xFF, marker] + Be16(length) + [precision];
    assert bytes == head + Be16(height) + (Be16(width) + rest);
    assert bytes == head + Be16(height) + Be16(width) + rest;
    assert |head| == fill + 5;
    assert bytes[fill + 5..fill + 7] == Be16(height) && bytes[fill + 7..fill + 9] == Be16(width);
    Big16(height);
    Big16(width);
  }

  lemma PngRoundTrip(length: nat, width: nat, height: nat, rest: seq<Byte>)
    requires length < 0x1_0000_0000 && width < 0x1_0000_0000 && height < 0x1_0000_0000
    ensures Dimensions(SIGNATURE + Be32(length) + IHDR + Be32(width) + Be32(height) + rest) == Some((width, height))
  {
    hide Big, Be32;
    var bytes := SIGNATURE + Be32(length) + IHDR + Be32(width) + Be32(height) + rest;
    assert bytes[0..8] == SIGNATURE && bytes[12..16] == IHDR;
    assert bytes[16..20] == Be32(width) && bytes[20..24] == Be32(height);
    Big32(width);
    Big32(height);
  }
}
