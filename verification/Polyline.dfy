/**
 The Encoded Polyline decoder (src/modules/maps/maps.service.ts) against the published encoding.

 Coordinates are whole 1e-5 degrees. A text is its sequence of UTF-16 code units. Bits are gathered
 in 32-bit words, as the source's `|=` and `<<` do.
 */
module Polyline {
  import opened Wrappers

  datatype Point = Point(lat: int, lng: int)

  // ---- The published encoding -------------------------------------------------------------

  /** Shift left one bit and invert if the value is negative. */
  function Zigzag(d: int): nat {
    if d < 0 then -2 * d - 1 else 2 * d
  }

  /** Five-bit groups, lowest first, each but the last marked with 0x20, all offset by 63. */
  function Groups(z: nat): (s: seq<int>)
    ensures |s| >= 1
  {
    if z < 32 then [z + 63] else [z % 32 + 0x20 + 63] + Groups(z / 32)
  }

  function EncodeFrom(points: seq<Point>, from: Point): seq<int> {
    if points == [] then []
    else
      Groups(Zigzag(points[0].lat - from.lat)) + Groups(Zigzag(points[0].lng - from.lng))
      + EncodeFrom(points[1..], points[0])
  }

  function Encode(points: seq<Point>): seq<int> {
    EncodeFrom(points, Point(0, 0))
  }

  // ---- What the decoder computes ----------------------------------------------------------------

  /** `charCodeAt(i) - 63`; past the end it is NaN. */
  function Unit(text: seq<int>, i: nat): Option<int> {
    if i < |text| then Some(text[i] - 63) else None
  }

  function LowBits(b: Option<int>): (r: bv32)
    ensures r < 32
  {
    match b case None => 0 case Some(v) => (v % 32) as bv32
  }

  predicate Continues(b: Option<int>) {
    b.Some? && b.value >= 0x20
  }

  function By5(c: bv32): bv32 {
    c << 5
  }

  /** `c << shift` on 32 bits: the count is taken modulo 32. */
  function ShiftLeft(c: bv32, shift: nat): bv32
    decreases shift
  {
    if shift >= 32 then ShiftLeft(c, shift - 32)
    else if shift >= 5 then ShiftLeft(By5(c), shift - 5)
    else if shift >= 1 then ShiftLeft(c << 1, shift - 1)
    else c
  }

  function Or(a: bv32, b: bv32): bv32 {
    a | b
  }

  function Gather(result: bv32, b: Option<int>, shift: nat): bv32 {
    Or(result, ShiftLeft(LowBits(b), shift))
  }

  /** The groups read from index `i` on, and the index after them. */
  function ReadGroups(text: seq<int>, i: nat, shift: nat, result: bv32): (r: (bv32, nat))
    ensures i < r.1 && (i <= |text| ==> r.1 <= |text| + 1)
    decreases |text| - i
  {
    var b := Unit(text, i);
    var result' := Gather(result, b, shift);
    if Continues(b) then ReadGroups(text, i + 1, shift + 5, result') else (result', i + 1)
  }

  function ToInt32(w: bv32): int {
    if w < 0x8000_0000 then w as int else w as int - 0x1_0000_0000
  }

  /** `(result & 1) !== 0 ? ~(result >> 1) : result >> 1` */
  function Unzigzag(w: bv32): int {
    var r := ToInt32(w);
    if r % 2 != 0 then -(r / 2) - 1 else r / 2
  }

  function DecodeFrom(text: seq<int>, i: nat, from: Point): seq<Point>
    decreases |text| - i
  {
    if i >= |text| then []
    else
      var (w, j) := ReadGroups(text, i, 0, 0);
      var (v, k) := ReadGroups(text, j, 0, 0);
      var p := Point(from.lat + Unzigzag(w), from.lng + Unzigzag(v));
      [p] + DecodeFrom(text, k, p)
  }

  method ReadNumber(text: seq<int>, start: nat) returns (value: int, index: nat)
    ensures (value, index) == (Unzigzag(ReadGroups(text, start, 0, 0).0), ReadGroups(text, start, 0, 0).1)
  {
    hide LowBits, Gather, Unzigzag;
    index := start;
    var shift, result := 0, 0 as bv32;
    var more := true;
    while more
      invariant start <= index
      invariant ReadGroups(text, start, 0, 0) == if more then ReadGroups(text, index, shift, result)
                 else (result, index)
      decreases more, |text| - index
    {
      var b := Unit(text, index);
      index := index + 1;
      result := Gather(result, b, shift);
      shift := shift + 5;
      more := b.Some? && b.value >= 0x20;
    }
    value := Unzigzag(result);
  }

  method Decode(text: seq<int>) returns (coords: seq<Point>)
    ensures coords == DecodeFrom(text, 0, Point(0, 0))
  {
    hide ReadGroups, Unzigzag;
    coords := [];
    var index, lat, lng := 0, 0, 0;
    while index < |text|
      invariant coords + DecodeFrom(text, index, Point(lat, lng)) == DecodeFrom(text, 0, Point(0, 0))
      decreases |text| - index
    {
      var dLat, dLng;
      dLat, index := ReadNumber(text, index);
      lat := lat + dLat;
      dLng, index := ReadNumber(text, index);
      lng := lng + dLng;
      coords := coords + [Point(lat, lng)];
    }
  }

  // ---- Any text ---------------------------------------------------------------------------------

  /** On any text, even cut short, each point costs at least two code units. */
  lemma {:induction false} AtMostHalf(text: seq<int>, i: nat, from: Point)
    ensures i <= |text| ==> |DecodeFrom(text, i, from)| <= (|text| - i + 1) / 2
    ensures i > |text| ==> DecodeFrom(text, i, from) == []
    decreases |text| - i
  {
    hide Unzigzag, Gather;
    if i < |text| {
      var (w, j) := ReadGroups(text, i, 0, 0);
      var (v, k) := ReadGroups(text, j, 0, 0);
      AtMostHalf(text, k, Point(from.lat + Unzigzag(w), from.lng + Unzigzag(v)));
    }
  }

  // ---- Round trip ---------------------------------------------------------------------------------

  /** Two to the power of a shift met while decoding. */
  function Pow(shift: nat): nat {
    if shift == 0 then 1
    else if shift == 5 then 32
    else if shift == 10 then 1024
    else if shift == 15 then 32768
    else if shift == 20 then 1048576
    else 33554432
  }

  predicate IsShift(shift: nat) {
    shift % 5 == 0 && shift <= 25
  }

  /** The value of a word read as unsigned. */
  function Val(w: bv32): nat {
    w as int
  }

  /** ORing a group above the bits already gathered adds it. */
  lemma OrAdds(result: bv32, b: Option<int>, shift: nat)
    requires IsShift(shift) && Val(result) < Pow(shift)
    ensures Val(Gather(result, b, shift)) == Val(result) + Val(LowBits(b)) * Pow(shift)
  {
    var c := LowBits(b);
    hide Val, Or, ShiftLeft, LowBits;
    if shift == 0 { OrAbove0(result, c); }
    else if shift == 5 { OrAbove5(result, c); }
    else if shift == 10 { OrAbove10(result, c); }
    else if shift == 15 { OrAbove15(result, c); }
    else if shift == 20 { OrAbove20(result, c); }
    else { OrAbove25(result, c); }
  }

  lemma OrPlain0(r: bv32, c: bv32)
    requires r as int < 1 && c < 32
    ensures (r | c) as int == r as int + c as int * 1
  {
    assert r < 1;
    assert (r | c) == r + c * 1;
  }

  lemma OrAbove0(r: bv32, c: bv32)
    requires Val(r) < 1 && c < 32
    ensures Val(Or(r, ShiftLeft(c, 0))) == Val(r) + Val(c) * 1
  {
    OrPlain0(r, c);
    assert Val(Or(r, c)) == Val(r) + Val(c) * 1;
    hide Val, Or, By5;
  }

  lemma OrPlain5(r: bv32, c: bv32)
    requires r as int < 32 && c < 32
    ensures (r | (c << 5)) as int == r as int + c as int * 32
  {
    assert r < 32;
    assert (r | (c << 5)) == r + c * 32;
  }

  lemma OrAbove5(r: bv32, c: bv32)
    requires Val(r) < 32 && c < 32
    ensures Val(Or(r, ShiftLeft(c, 5))) == Val(r) + Val(c) * 32
  {
    OrPlain5(r, c);
    assert Val(Or(r, By5(c))) == Val(r) + Val(c) * 32;
    hide Val, Or, By5;
    assert ShiftLeft(c, 5) == ShiftLeft(By5(c), 0);
  }

  lemma OrPlain10(r: bv32, c: bv32)
    requires r as int < 1024 && c < 32
    ensures (r | ((c << 5) << 5)) as int == r as int + c as int * 1024
  {
    assert r < 1024;
    assert (r | ((c << 5) << 5)) == r + c * 1024;
  }

  lemma OrAbove10(r: bv32, c: bv32)
    requires Val(r) < 1024 && c < 32
    ensures Val(Or(r, ShiftLeft(c, 10))) == Val(r) + Val(c) * 1024
  {
    OrPlain10(r, c);
    assert Val(Or(r, By5(By5(c)))) == Val(r) + Val(c) * 1024;
    hide Val, Or, By5;
    assert ShiftLeft(c, 10) == ShiftLeft(By5(c), 5);
    assert ShiftLeft(By5(c), 5) == ShiftLeft(By5(By5(c)), 0);
  }

  lemma OrPlain15(r: bv32, c: bv32)
    requires r as int < 32768 && c < 32
    ensures (r | (((c << 5) << 5) << 5)) as int == r as int + c as int * 32768
  {
    assert r < 32768;
    assert (r | (((c << 5) << 5) << 5)) == r + c * 32768;
  }

  lemma OrAbove15(r: bv32, c: bv32)
    requires Val(r) < 32768 && c < 32
    ensures Val(Or(r, ShiftLeft(c, 15))) == Val(r) + Val(c) * 32768
  {
    OrPlain15(r, c);
    assert Val(Or(r, By5(By5(By5(c))))) == Val(r) + Val(c) * 32768;
    hide Val, Or, By5;
    assert ShiftLeft(c, 15) == ShiftLeft(By5(c), 10);
    assert ShiftLeft(By5(c), 10) == ShiftLeft(By5(By5(c)), 5);
    assert ShiftLeft(By5(By5(c)), 5) == ShiftLeft(By5(By5(By5(c))), 0);
  }

  lemma OrPlain20(r: bv32, c: bv32)
    requires r as int < 1048576 && c < 32
    ensures (r | ((((c << 5) << 5) << 5) << 5)) as int == r as int + c as int * 1048576
  {
    assert r < 1048576;
    assert (r | ((((c << 5) << 5) << 5) << 5)) == r + c * 1048576;
  }

  lemma OrAbove20(r: bv32, c: bv32)
    requires Val(r) < 1048576 && c < 32
    ensures Val(Or(r, ShiftLeft(c, 20))) == Val(r) + Val(c) * 1048576
  {
    OrPlain20(r, c);
    assert Val(Or(r, By5(By5(By5(By5(c)))))) == Val(r) + Val(c) * 1048576;
    hide Val, Or, By5;
    assert ShiftLeft(c, 20) == ShiftLeft(By5(c), 15);
    assert ShiftLeft(By5(c), 15) == ShiftLeft(By5(By5(c)), 10);
    assert ShiftLeft(By5(By5(c)), 10) == ShiftLeft(By5(By5(By5(c))), 5);
    assert ShiftLeft(By5(By5(By5(c))), 5) == ShiftLeft(By5(By5(By5(By5(c)))), 0);
  }

  lemma OrPlain25(r: bv32, c: bv32)
    requires r as int < 33554432 && c < 32
    ensures (r | (((((c << 5) << 5) << 5) << 5) << 5)) as int == r as int + c as int * 33554432
  {
    assert r < 33554432;
    assert (r | (((((c << 5) << 5) << 5) << 5) << 5)) == r + c * 33554432;
  }

  lemma OrAbove25(r: bv32, c: bv32)
    requires Val(r) < 33554432 && c < 32
    ensures Val(Or(r, ShiftLeft(c, 25))) == Val(r) + Val(c) * 33554432
  {
    OrPlain25(r, c);
    assert Val(Or(r, By5(By5(By5(By5(By5(c))))))) == Val(r) + Val(c) * 33554432;
    hide Val, Or, By5;
    assert ShiftLeft(c, 25) == ShiftLeft(By5(c), 20);
    assert ShiftLeft(By5(c), 20) == ShiftLeft(By5(By5(c)), 15);
    assert ShiftLeft(By5(By5(c)), 15) == ShiftLeft(By5(By5(By5(c))), 10);
    assert ShiftLeft(By5(By5(By5(c))), 10) == ShiftLeft(By5(By5(By5(By5(c)))), 5);
    assert ShiftLeft(By5(By5(By5(By5(c)))), 5) == ShiftLeft(By5(By5(By5(By5(By5(c))))), 0);
  }

  const WORD := 0x4000_0000

  /** Reading back the groups of `z`, placed anywhere in a text. */
  lemma {:induction false} ReadBack(text: seq<int>, i: nat, z: nat, shift: nat, result: bv32)
    requires i + |Groups(z)| <= |text| && text[i..i + |Groups(z)|] == Groups(z)
    requires IsShift(shift) && Val(result) < Pow(shift) && z * Pow(shift) < WORD
    ensures ReadGroups(text, i, shift, result).1 == i + |Groups(z)|
    ensures Val(ReadGroups(text, i, shift, result).0) == Val(result) + z * Pow(shift)
    decreases z
  {
    hide LowBits, Gather, Pow, Val;
    var b := Unit(text, i);
    assert text[i] == text[i..i + |Groups(z)|][0];
    OrAdds(result, b, shift);
    if z < 32 {
      GroupBits(z + 63, z);
    } else {
      GroupBits(z % 32 + 0x20 + 63, z % 32);
      NextPower(z, shift, Val(result));
      assert Groups(z / 32) == Groups(z)[1..];
      assert text[i + 1..i + 1 + |Groups(z / 32)|] == text[i..i + |Groups(z)|][1..];
      ReadBack(text, i + 1, z / 32, shift + 5, Gather(result, b, shift));
    }
  }

  lemma GroupBits(code: int, group: nat)
    requires group < 32 && (code == group + 63 || code == group + 0x20 + 63)
    ensures Val(LowBits(Some(code - 63))) == group
    ensures Continues(Some(code - 63)) <==> code == group + 0x20 + 63
  {
    assert (code - 63) % 32 == group;
    SmallWord(group);
  }

  lemma SmallWord(n: nat)
    requires n < 32
    ensures (n as bv32) as int == n
  {
  }

  lemma NextPower(z: nat, shift: nat, result: int)
    requires IsShift(shift) && z >= 32 && z * Pow(shift) < WORD && 0 <= result < Pow(shift)
    ensures IsShift(shift + 5) && Pow(shift + 5) == 32 * Pow(shift)
    ensures z / 32 * Pow(shift + 5) + z % 32 * Pow(shift) == z * Pow(shift)
    ensures z / 32 * Pow(shift + 5) < WORD
    ensures result + z % 32 * Pow(shift) < Pow(shift + 5)
  {
    assert z == z / 32 * 32 + z % 32;
  }

  lemma UnzigzagInverts(w: bv32, d: int)
    requires Val(w) == Zigzag(d) < WORD
    ensures Unzigzag(w) == d
  {
    assert w < 0x4000_0000;
  }

  /** Latitudes and longitudes in degrees lie far inside. */
  const LIMIT := 0x0FFF_FFFF

  predicate InRange(p: Point) {
    -LIMIT <= p.lat <= LIMIT && -LIMIT <= p.lng <= LIMIT
  }

  lemma ReadBackNumber(text: seq<int>, i: nat, d: int)
    requires -2 * LIMIT <= d <= 2 * LIMIT
    requires i + |Groups(Zigzag(d))| <= |text| && text[i..i + |Groups(Zigzag(d))|] == Groups(Zigzag(d))
    ensures ReadGroups(text, i, 0, 0).1 == i + |Groups(Zigzag(d))|
    ensures Unzigzag(ReadGroups(text, i, 0, 0).0) == d
  {
    ReadBack(text, i, Zigzag(d), 0, 0);
    UnzigzagInverts(ReadGroups(text, i, 0, 0).0, d);
  }

  lemma Parts(text: seq<int>, i: nat, a: seq<int>, b: seq<int>, rest: seq<int>)
    requires i <= |text| && text[i..] == a + b + rest
    ensures i + |a| + |b| <= |text|
    ensures text[i..i + |a|] == a && text[i + |a|..i + |a| + |b|] == b && text[i + |a| + |b|..] == rest
  {
    assert |text| == i + |a| + |b| + |rest|;
    assert text[i..i + |a|] == text[i..][..|a|];
    assert text[i + |a|..i + |a| + |b|] == text[i..][|a|..|a| + |b|];
    assert text[i + |a| + |b|..] == text[i..][|a| + |b|..];
  }

  lemma {:induction false} DecodeTail(text: seq<int>, i: nat, points: seq<Point>, from: Point)
    requires i <= |text| && text[i..] == EncodeFrom(points, from)
    requires InRange(from) && forall p | p in points :: InRange(p)
    ensures DecodeFrom(text, i, from) == points
    decreases |points|
  {
    hide ReadGroups, Unzigzag, Groups, Zigzag;
    assert points == [] ==> text[i..] == [];
    if points != [] {
      var p := points[0];
      assert InRange(p);
      var a, b := Groups(Zigzag(p.lat - from.lat)), Groups(Zigzag(p.lng - from.lng));
      var rest := EncodeFrom(points[1..], p);
      var j, k := i + |a|, i + |a| + |b|;
      Parts(text, i, a, b, rest);
      ReadBackNumber(text, i, p.lat - from.lat);
      ReadBackNumber(text, j, p.lng - from.lng);
      DecodeTail(text, k, points[1..], p);
    }
  }

  /** Main result: decoding inverts the published encoding. */
  lemma RoundTrip(points: seq<Point>)
    requires forall p | p in points :: InRange(p)
    ensures DecodeFrom(Encode(points), 0, Point(0, 0)) == points
  {
    assert Encode(points)[0..] == Encode(points);
    DecodeTail(Encode(points), 0, points, Point(0, 0));
  }

  // ---- Words, on any input ------------------------------------------------------------------------

  /** A signed 32-bit word has the bits of the unsigned one. */
  lemma SignedWord(w: bv32)
    ensures -0x8000_0000 <= ToInt32(w) < 0x8000_0000
    ensures ToInt32(w) == w as int || ToInt32(w) == w as int - 0x1_0000_0000
  {
    assert w as int < 0x1_0000_0000;
  }

  /** Even words halve, odd ones halve and flip, whatever their sign. */
  lemma UnzigzagIs(w: bv32)
    ensures ToInt32(w) % 2 == 0 ==> 2 * Unzigzag(w) == ToInt32(w)
    ensures ToInt32(w) % 2 == 1 ==> 2 * Unzigzag(w) == -ToInt32(w) - 1
  {
    hide ToInt32;
  }

  function By1(c: bv32): bv32 {
    c << 1
  }

  lemma Unrolls(c: bv32, shift: nat)
    ensures ShiftLeft(c, 0) == c && ShiftLeft(c, shift + 32) == ShiftLeft(c, shift)
    ensures 5 <= shift < 32 ==> ShiftLeft(c, shift) == ShiftLeft(By5(c), shift - 5)
    ensures 1 <= shift < 5 ==> ShiftLeft(c, shift) == ShiftLeft(By1(c), shift - 1)
  {
    hide By5;
  }

  /** Shifting by one more is shifting once first; the count wraps at 32. */
  lemma {:induction false} OneMoreShift(c: bv32, shift: nat)
    ensures ShiftLeft(c, 0) == c && ShiftLeft(c, shift + 32) == ShiftLeft(c, shift)
    ensures shift < 31 ==> ShiftLeft(c, shift + 1) == ShiftLeft(By1(c), shift)
    decreases shift
  {
    Unrolls(c, shift);
    Unrolls(c, shift + 1);
    Unrolls(By1(c), shift);
    FiveAndOne(c);
    if shift == 4 {
      FiveOnes(c);
    }
    hide ShiftLeft, By1, By5;
    if 5 <= shift < 31 {
      OneMoreShift(By5(c), shift - 5);
    }
  }

  lemma FiveAndOne(c: bv32)
    ensures By1(By5(c)) == By5(By1(c))
  {
    hide *;
    UnfoldShifts(c);
    ShiftsCommute(c);
  }

  lemma UnfoldShifts(c: bv32)
    ensures By1(By5(c)) == (c << 5) << 1
    ensures By5(By1(c)) == (c << 1) << 5
  {
  }

  lemma ShiftsCommute(c: bv32)
    ensures (c << 5) << 1 == (c << 1) << 5
  {
  }

  lemma FiveOnes(c: bv32)
    ensures ShiftLeft(c, 5) == ShiftLeft(By1(c), 4)
  {
    var d := By1(c);
    assert By1(By1(By1(By1(d)))) == By5(c);
    hide ShiftLeft, By1, By5;
    Unrolls(c, 5);
    Unrolls(By5(c), 0);
    Unrolls(d, 4);
    Unrolls(By1(d), 3);
    Unrolls(By1(By1(d)), 2);
    Unrolls(By1(By1(By1(d))), 1);
    Unrolls(By1(By1(By1(By1(d)))), 0);
  }

  /** Past the end of a truncated text, a number is what was gathered so far. */
  lemma PastTheEnd(text: seq<int>, shift: nat, result: bv32)
    ensures ReadGroups(text, |text|, shift, result) == (result, |text| + 1)
  {
    NothingShifted(shift);
    assert result | 0 == result;
  }

  lemma {:induction false} NothingShifted(shift: nat)
    ensures ShiftLeft(0, shift) == 0
    decreases shift
  {
    assert (0 as bv32) << 1 == 0 && By5(0) == 0;
    if shift >= 32 { NothingShifted(shift - 32); }
    else if shift >= 5 { NothingShifted(shift - 5); }
    else if shift >= 1 { NothingShifted(shift - 1); }
  }

  // ---- The published example --------------------------------------------------------------------

  function Codes(s: string): seq<int> {
    seq(|s|, i requires 0 <= i < |s| => s[i] as int)
  }

  /** The groups of one number, one step at a time. */
  lemma GroupsOf(z: nat, rest: seq<int>)
    requires z >= 32 && Groups(z / 32) == rest
    ensures Groups(z) == [z % 32 + 95] + rest
  {
  }

  /** Main result: (38.5, -120.2), (40.7, -120.95), (43.252, -126.453) are encoded as the format's description says. */
  lemma PublishedExample()
    ensures Encode([Point(3850000, -12020000), Point(4070000, -12095000), Point(4325200, -12645300)])
         == Codes("_p~iF~ps|U_ulLnnqC_mqNvxq`@")
  {
    var p, q, r := Point(3850000, -12020000), Point(4070000, -12095000), Point(4325200, -12645300);
    FirstNumbers();
    OtherNumbers();
    JoinsUp();
    hide Groups, Codes, Zigzag;
    var a, b, c := Codes("_p~iF") + Codes("~ps|U"), Codes("_ulL") + Codes("nnqC"), Codes("_mqN") + Codes("vxq`@");
    assert EncodeFrom([], r) == [];
    assert EncodeFrom([r], q) == c by { assert [r][1..] == []; }
    assert EncodeFrom([q, r], p) == b + c by { assert [q, r][1..] == [r]; }
    assert EncodeFrom([p, q, r], Point(0, 0)) == a + (b + c) by { assert [p, q, r][1..] == [q, r]; }
  }

  lemma JoinsUp()
    ensures Codes("_p~iF") + Codes("~ps|U") + (Codes("_ulL") + Codes("nnqC") + (Codes("_mqN") + Codes("vxq`@")))
         == Codes("_p~iF~ps|U_ulLnnqC_mqNvxq`@")
  {
  }

  lemma FirstNumbers()
    ensures Groups(Zigzag(3850000)) == Codes("_p~iF") && Groups(Zigzag(-12020000)) == Codes("~ps|U")
  {
    assert Groups(7) == [70] && Groups(22) == [85];
    hide Groups;
    GroupsOf(234, [70]);
    GroupsOf(7519, [105, 70]);
    GroupsOf(240625, [126, 105, 70]);
    GroupsOf(7700000, [112, 126, 105, 70]);
    GroupsOf(733, [85]);
    GroupsOf(23476, [124, 85]);
    GroupsOf(751249, [115, 124, 85]);
    GroupsOf(24039999, [112, 115, 124, 85]);
  }

  lemma OtherNumbers()
    ensures Groups(Zigzag(220000)) == Codes("_ulL") && Groups(Zigzag(-75000)) == Codes("nnqC")
    ensures Groups(Zigzag(255200)) == Codes("_mqN") && Groups(Zigzag(-550300)) == Codes("vxq`@")
  {
    assert Groups(13) == [76] && Groups(4) == [67] && Groups(15) == [78] && Groups(1) == [64];
    hide Groups;
    GroupsOf(429, [76]);
    GroupsOf(13750, [108, 76]);
    GroupsOf(440000, [117, 108, 76]);
    GroupsOf(146, [67]);
    GroupsOf(4687, [113, 67]);
    GroupsOf(149999, [110, 113, 67]);
    GroupsOf(498, [78]);
    GroupsOf(15950, [113, 78]);
    GroupsOf(510400, [109, 113, 78]);
    GroupsOf(33, [64]);
    GroupsOf(1074, [96, 64]);
    GroupsOf(34393, [113, 96, 64]);
    GroupsOf(1100599, [120, 113, 96, 64]);
  }
}
