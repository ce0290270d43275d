/**
 * Go strings are byte strings.  Ranging over one decodes UTF-8 as section 4 of
 * RFC 3629 allows it; a byte that starts no valid sequence decodes, alone, to U+FFFD.
 */
module GoStrings {

  type byte = b: int | 0 <= b < 256
  type Str = seq<byte>
  type rune = int

  const RUNE_ERROR: rune := 0xFFFD

  // ------------------------------------------------------------ decoding

  predicate Cont(b: byte) {
    0x80 <= b <= 0xBF
  }

  predicate IsTwo(a: byte, b: byte) {
    0xC2 <= a <= 0xDF && Cont(b)
  }

  predicate IsThree(a: byte, b: byte, c: byte) {
    && Cont(b) && Cont(c)
    && 0xE0 <= a <= 0xEF
    && (a == 0xE0 ==> 0xA0 <= b)
    && (a == 0xED ==> b <= 0x9F)
  }

  predicate IsFour(a: byte, b: byte, c: byte, d: byte) {
    && Cont(b) && Cont(c) && Cont(d)
    && 0xF0 <= a <= 0xF4
    && (a == 0xF0 ==> 0x90 <= b)
    && (a == 0xF4 ==> b <= 0x8F)
  }

  /** Number of bytes the first rune of `s` takes. */
  function Width(s: Str): (w: nat)
    requires s != []
    ensures 1 <= w <= 4 && w <= |s|
  {
    if |s| >= 2 && IsTwo(s[0], s[1]) then 2
    else if |s| >= 3 && IsThree(s[0], s[1], s[2]) then 3
    else if |s| >= 4 && IsFour(s[0], s[1], s[2], s[3]) then 4
    else 1
  }

  /** The first rune of `s`. */
  function First(s: Str): (r: rune)
    requires s != []
    ensures IsScalar(r)
  {
    match Width(s)
    case 2 => (s[0] - 0xC0) * 0x40 + (s[1] - 0x80)
    case 3 => ((s[0] - 0xE0) * 0x40 + (s[1] - 0x80)) * 0x40 + (s[2] - 0x80)
    case 4 => (((s[0] - 0xF0) * 0x40 + (s[1] - 0x80)) * 0x40 + (s[2] - 0x80)) * 0x40 + (s[3] - 0x80)
    case _ => if s[0] < 0x80 then s[0] else RUNE_ERROR
  }

  predicate IsScalar(r: rune) {
    0 <= r < 0xD800 || 0xE000 <= r <= 0x10FFFF
  }

  /** The runes a range loop over `s` visits. */
  function Decode(s: Str): seq<rune>
    decreases |s|
  {
    if s == [] then [] else [First(s)] + Decode(s[Width(s)..])
  }

  predicate AllScalar(rs: seq<rune>) {
    forall k :: 0 <= k < |rs| ==> IsScalar(rs[k])
  }

  /** A rune takes one to four bytes. */
  lemma {:induction false} DecodeBounds(s: Str)
    ensures |Decode(s)| <= |s| <= 4 * |Decode(s)|
    ensures AllScalar(Decode(s))
    decreases |s|
  {
    if s != [] { DecodeBounds(s[Width(s)..]); }
  }

  function RuneCount(s: Str): nat {
    |Decode(s)|
  }

  /** `s` starts with a properly encoded rune. */
  predicate StartsValid(s: Str)
    requires s != []
  {
    s[0] < 0x80 || Width(s) > 1
  }

  /** A byte that starts no valid sequence is one rune by itself, U+FFFD. */
  lemma BadByteIs(s: Str)
    requires s != []
    ensures !StartsValid(s) <==> First(s) == 0xFFFD && Width(s) == 1
  {
  }

  predicate Valid(s: Str)
    decreases |s|
  {
    s == [] || (StartsValid(s) && Valid(s[Width(s)..]))
  }

  // ------------------------------------------------------------ encoding

  /** What WriteRune appends. */
  function Encode(r: rune): (s: Str)
    ensures 1 <= |s| <= 4
  {
    if 0 <= r < 0x80 then [r]
    else if 0 <= r < 0x800 then [0xC0 + r / 0x40, 0x80 + r % 0x40]
    else if !IsScalar(r) then [0xEF, 0xBF, 0xBD]
    else
      var q := r / 0x40;
      if r < 0x10000 then [0xE0 + q / 0x40, 0x80 + q % 0x40, 0x80 + r % 0x40]
      else
        var p := q / 0x40;
        [0xF0 + p / 0x40, 0x80 + p % 0x40, 0x80 + q % 0x40, 0x80 + r % 0x40]
  }

  function EncodeAll(rs: seq<rune>): Str {
    if rs == [] then [] else Encode(rs[0]) + EncodeAll(rs[1..])
  }

  /** Replaces every byte that decodes to nothing by U+FFFD, as a JSON encoder does. */
  function Sanitize(s: Str): Str {
    EncodeAll(Decode(s))
  }

  // ------------------------------------------------------------ decoding and encoding are inverse

  lemma EncodedIsValid(r: rune)
    requires IsScalar(r)
    ensures Width(Encode(r)) == |Encode(r)| && First(Encode(r)) == r && StartsValid(Encode(r))
  {
    var s := Encode(r);
    if 0x80 <= r < 0x800 {
      assert IsTwo(s[0], s[1]);
    } else if 0x800 <= r < 0x10000 {
      assert IsThree(s[0], s[1], s[2]);
    } else if 0x10000 <= r {
      assert IsFour(s[0], s[1], s[2], s[3]);
    }
  }

  lemma FirstThenEncode(s: Str)
    requires s != [] && StartsValid(s)
    ensures Encode(First(s)) == s[..Width(s)]
  {
    match Width(s)
    case 2 => EncodeTwo(s[0], s[1]);
    case 3 => EncodeThree(s[0], s[1], s[2]);
    case 4 => EncodeFour(s[0], s[1], s[2], s[3]);
    case _ =>
  }

  lemma EncodeTwo(a: byte, b: byte)
    requires IsTwo(a, b)
    ensures Encode((a - 0xC0) * 0x40 + (b - 0x80)) == [a, b]
  {
  }

  lemma EncodeThree(a: byte, b: byte, c: byte)
    requires IsThree(a, b, c)
    ensures Encode(((a - 0xE0) * 0x40 + (b - 0x80)) * 0x40 + (c - 0x80)) == [a, b, c]
  {
    var q := (a - 0xE0) * 0x40 + (b - 0x80);
    var r := q * 0x40 + (c - 0x80);
    assert r / 0x40 == q && r % 0x40 == c - 0x80;
    assert q / 0x40 == a - 0xE0 && q % 0x40 == b - 0x80;
  }

  lemma EncodeFour(a: byte, b: byte, c: byte, d: byte)
    requires IsFour(a, b, c, d)
    ensures Encode((((a - 0xF0) * 0x40 + (b - 0x80)) * 0x40 + (c - 0x80)) * 0x40 + (d - 0x80)) == [a, b, c, d]
  {
    var p := (a - 0xF0) * 0x40 + (b - 0x80);
    var q := p * 0x40 + (c - 0x80);
    var r := q * 0x40 + (d - 0x80);
    assert r / 0x40 == q && r % 0x40 == d - 0x80;
    assert q / 0x40 == p && q % 0x40 == c - 0x80;
    assert p / 0x40 == a - 0xF0 && p % 0x40 == b - 0x80;
  }

  lemma EncodeThenFirst(r: rune, rest: Str)
    requires IsScalar(r)
    ensures Width(Encode(r) + rest) == |Encode(r)|
    ensures First(Encode(r) + rest) == r && StartsValid(Encode(r) + rest)
  {
    EncodedIsValid(r);
    ValidWidthExtends(Encode(r), rest);
  }

  /** What follows a properly encoded rune does not matter to it. */
  lemma ValidWidthExtends(s: Str, t: Str)
    requires s != [] && StartsValid(s)
    ensures Width(s + t) == Width(s) && First(s + t) == First(s) && StartsValid(s + t)
  {
    var u := s + t;
    assert forall k :: 0 <= k < |s| ==> u[k] == s[k];
  }

  /** Decoding undoes encoding. */
  lemma {:induction false} DecodeEncode(rs: seq<rune>)
    requires AllScalar(rs)
    ensures Decode(EncodeAll(rs)) == rs && Valid(EncodeAll(rs))
  {
    if rs != [] {
      DecodeEncode(rs[1..]);
      EncodeThenFirst(rs[0], EncodeAll(rs[1..]));
      var s := EncodeAll(rs);
      assert s[Width(s)..] == EncodeAll(rs[1..]);
    }
  }

  /** Encoding undoes decoding exactly on valid strings. */
  lemma EncodeDecode(s: Str)
    ensures Valid(s) <==> Sanitize(s) == s
  {
    DecodeBounds(s);
    DecodeEncode(Decode(s));
    if Valid(s) { ValidIsKept(s); }
  }

  lemma {:induction false} ValidIsKept(s: Str)
    requires Valid(s)
    ensures EncodeAll(Decode(s)) == s
    decreases |s|
  {
    if s != [] {
      var c, rest := HeadAndRest(s);
      ValidIsKept(rest);
      EncodeStep(c, Decode(rest));
    }
  }

  /** A valid string is the encoding of its first rune followed by a valid rest. */
  lemma HeadAndRest(s: Str) returns (c: rune, rest: Str)
    requires Valid(s) && s != []
    ensures s == Encode(c) + rest && Decode(s) == [c] + Decode(rest)
    ensures Valid(rest) && |rest| < |s|
  {
    c, rest := First(s), s[Width(s)..];
    FirstThenEncode(s);
    DecodeStep(s);
    assert s == s[..Width(s)] + rest;
  }

  lemma EncodeStep(c: rune, rs: seq<rune>)
    ensures EncodeAll([c] + rs) == Encode(c) + EncodeAll(rs)
  {
    assert ([c] + rs)[1..] == rs;
  }

  // ------------------------------------------------------------ rune boundaries

  /** The decoder never needs more than the bytes of the rune to recognise it. */
  lemma WidthOfPrefix(s: Str, p: nat)
    requires s != [] && Width(s) <= p <= |s|
    ensures Width(s[..p]) == Width(s) && First(s[..p]) == First(s)
    ensures StartsValid(s[..p]) == StartsValid(s)
  {
  }

  /** A byte that is no continuation byte always starts a rune. */
  predicate Boundary(t: Str) {
    t == [] || !Cont(t[0])
  }

  lemma WidthConcat(s: Str, t: Str)
    requires s != [] && Boundary(t)
    ensures Width(s + t) == Width(s) && First(s + t) == First(s)
    ensures StartsValid(s + t) == StartsValid(s)
  {
    var u := s + t;
    assert forall k :: 0 <= k < |s| ==> u[k] == s[k];
    assert t != [] ==> u[|s|] == t[0];
  }

  lemma DecodeStep(s: Str)
    requires s != []
    ensures Decode(s) == [First(s)] + Decode(s[Width(s)..])
    ensures Valid(s) == (StartsValid(s) && Valid(s[Width(s)..]))
  {
  }

  /** With its first rune on, a string continues as its rest does. */
  lemma ConcatStep(s: Str, t: Str)
    requires s != [] && Boundary(t)
    ensures var w, u := Width(s), s + t;
      && Width(u) == w && First(u) == First(s) && StartsValid(u) == StartsValid(s)
      && u[w..] == s[w..] + t
  {
    WidthConcat(s, t);
    var w, u := Width(s), s + t;
    assert u[w..] == s[w..] + t;
  }

  lemma {:induction false} DecodeConcat(s: Str, t: Str)
    requires Boundary(t)
    ensures Decode(s + t) == Decode(s) + Decode(t)
    decreases |s|
  {
    if s == [] {
      assert s + t == t;
    } else {
      var rest := s[Width(s)..];
      ConcatStep(s, t);
      DecodeConcat(rest, t);
      DecodeStep(s);
      DecodeStep(s + t);
      InFront(First(s), Decode(rest), Decode(t));
    }
  }

  lemma InFront(c: rune, a: seq<rune>, b: seq<rune>)
    ensures [c] + (a + b) == ([c] + a) + b
  {
  }

  lemma {:induction false} ValidConcat(s: Str, t: Str)
    requires Boundary(t)
    ensures Valid(s + t) <==> Valid(s) && Valid(t)
    decreases |s|
  {
    if s == [] {
      assert s + t == t;
    } else {
      ConcatStep(s, t);
      ValidConcat(s[Width(s)..], t);
      DecodeStep(s);
      DecodeStep(s + t);
    }
  }
}
