/**
 * Go searches the UTF-8 bytes of a URL, Painless its UTF-16 units.  Because the
 * patterns are ASCII, both rewrites do to the text what the rewrite on runes does.
 */
module UrlEncodings {
  import opened GoStrings
  import opened StorageUrls

  type Encoding = rune -> Units

  function EncodeWith(enc: Encoding, rs: seq<rune>): Units {
    if rs == [] then [] else enc(rs[0]) + EncodeWith(enc, rs[1..])
  }

  function Utf8(r: rune): Units {
    Encode(r)
  }

  function Utf16(r: rune): Units {
    if r < 0x10000 then [r]
    else
      var q := r - 0x10000;
      [0xD800 + q / 0x400, 0xDC00 + q % 0x400]
  }

  predicate IsAscii(p: Units) {
    forall k :: 0 <= k < |p| ==> 0 <= p[k] < 0x80
  }

  predicate AllHigh(x: Units) {
    forall k :: 0 <= k < |x| ==> x[k] >= 0x80
  }

  /** ASCII is encoded as itself and never occurs in the encoding of anything else. */
  ghost predicate Transparent(enc: Encoding) {
    forall r: rune :: IsScalar(r) ==> if r < 0x80 then enc(r) == [r] else enc(r) != [] && AllHigh(enc(r))
  }

  lemma Utf8High(r: rune)
    requires IsScalar(r) && r >= 0x80
    ensures Utf8(r) != [] && AllHigh(Utf8(r))
  {
  }

  lemma Utf16High(r: rune)
    requires IsScalar(r) && r >= 0x80
    ensures Utf16(r) != [] && AllHigh(Utf16(r))
  {
  }

  lemma BothTransparent()
    ensures Transparent(Utf8) && Transparent(Utf16)
  {
    forall r: rune | IsScalar(r)
      ensures if r < 0x80 then Utf8(r) == [r] else Utf8(r) != [] && AllHigh(Utf8(r))
      ensures if r < 0x80 then Utf16(r) == [r] else Utf16(r) != [] && AllHigh(Utf16(r))
    {
      if r >= 0x80 {
        Utf8High(r);
        Utf16High(r);
      }
    }
  }

  lemma {:induction false} Utf8IsGo(rs: seq<rune>)
    ensures EncodeWith(Utf8, rs) == EncodeAll(rs)
  {
    if rs != [] { Utf8IsGo(rs[1..]); }
  }

  lemma {:induction false} EncodeConcat(enc: Encoding, a: seq<rune>, b: seq<rune>)
    ensures EncodeWith(enc, a + b) == EncodeWith(enc, a) + EncodeWith(enc, b)
  {
    if a == [] {
      assert a + b == b;
    } else {
      assert (a + b)[1..] == a[1..] + b;
      EncodeConcat(enc, a[1..], b);
    }
  }

  lemma {:induction false} EncodeAscii(enc: Encoding, p: Units)
    requires Transparent(enc) && IsAscii(p)
    ensures EncodeWith(enc, p) == p
  {
    if p != [] {
      EncodeAscii(enc, p[1..]);
      assert enc(p[0]) == [p[0]];
      assert p == [p[0]] + p[1..];
    }
  }

  // ------------------------------------------------------------ searching encoded text

  /** An ASCII pattern is a prefix of the encoded text exactly if it is one of the text. */
  lemma {:induction false} PrefixCommutes(enc: Encoding, rs: seq<rune>, p: Units)
    requires Transparent(enc) && AllScalar(rs) && IsAscii(p)
    ensures p <= EncodeWith(enc, rs) <==> p <= rs
    decreases |p|
  {
    if p != [] && rs != [] {
      var u, head := EncodeWith(enc, rs), enc(rs[0]);
      assert IsScalar(rs[0]);
      assert u[0] == head[0];
      if rs[0] == p[0] {
        assert head == [p[0]];
        PrefixCommutes(enc, rs[1..], p[1..]);
        assert u[1..] == EncodeWith(enc, rs[1..]);
        PrefixOfTail(p, u);
        PrefixOfTail(p, rs);
      } else {
        assert u[0] != p[0];
      }
    }
  }

  lemma PrefixOfTail(p: Units, u: Units)
    requires p != [] && u != [] && p[0] == u[0]
    ensures p <= u <==> p[1..] <= u[1..]
  {
    if p[1..] <= u[1..] {
      assert forall k :: 1 <= k < |p| ==> p[k] == p[1..][k - 1] == u[1..][k - 1] == u[k];
    }
  }

  lemma {:induction false} SkipHigh(x: Units, rest: Units, p: Units)
    requires AllHigh(x) && p != [] && IsAscii(p)
    ensures IndexOf(x + rest, p) == if IndexOf(rest, p) < 0 then -1 else |x| + IndexOf(rest, p)
    decreases |x|
  {
    if x == [] {
      assert x + rest == rest;
    } else {
      assert (x + rest)[0] == x[0] != p[0];
      assert (x + rest)[1..] == x[1..] + rest;
      SkipHigh(x[1..], rest, p);
    }
  }

  /** The pattern is found right after the encoding of what precedes it. */
  lemma {:induction false} IndexCommutes(enc: Encoding, rs: seq<rune>, p: Units)
    requires Transparent(enc) && AllScalar(rs) && p != [] && IsAscii(p)
    ensures var i, j := IndexOf(rs, p), IndexOf(EncodeWith(enc, rs), p);
      && (i < 0 <==> j < 0)
      && (i >= 0 ==> j == |EncodeWith(enc, rs[..i])|)
    decreases |rs|
  {
    PrefixCommutes(enc, rs, p);
    if p <= rs {
      assert rs[..0] == [];
    } else if rs != [] {
      var rest := rs[1..];
      IndexCommutes(enc, rest, p);
      HeadSkipped(enc, rs, p);
      if IndexOf(rest, p) >= 0 { EncodeFront(enc, rs, IndexOf(rest, p)); }
    }
  }

  lemma EncodeFront(enc: Encoding, rs: seq<rune>, i: nat)
    requires i < |rs|
    ensures |EncodeWith(enc, rs[..i + 1])| == |enc(rs[0])| + |EncodeWith(enc, rs[1..][..i])|
  {
    assert rs[..i + 1][1..] == rs[1..][..i];
  }

  /** A first rune where the pattern does not start shifts the search by its encoding. */
  lemma HeadSkipped(enc: Encoding, rs: seq<rune>, p: Units)
    requires Transparent(enc) && AllScalar(rs) && rs != [] && p != [] && IsAscii(p) && !(p <= rs)
    ensures var j := IndexOf(EncodeWith(enc, rs[1..]), p);
      IndexOf(EncodeWith(enc, rs), p) == if j < 0 then -1 else |enc(rs[0])| + j
  {
    var u, head, rest := EncodeWith(enc, rs), enc(rs[0]), EncodeWith(enc, rs[1..]);
    assert IsScalar(rs[0]);
    assert u == head + rest;
    if rs[0] < 0x80 {
      PrefixCommutes(enc, rs, p);
      assert u[1..] == rest;
    } else {
      SkipHigh(head, rest, p);
    }
  }

  lemma PatternsAscii()
    ensures IsAscii(V1_POST) && IsAscii(V1_PROFILE) && IsAscii(V2_POST) && IsAscii(V2_PROFILE)
    ensures IsAscii(V2_STORAGE) && IsAscii(HTTP) && IsAscii(HTTPS)
  {
  }

  /** Cutting the pattern off after finding it. */
  lemma TailCommutes(enc: Encoding, rs: seq<rune>, p: Units)
    requires Transparent(enc) && AllScalar(rs) && p != [] && IsAscii(p) && IndexOf(rs, p) >= 0
    ensures var i, j := IndexOf(rs, p), IndexOf(EncodeWith(enc, rs), p);
      && j >= 0 && EncodeWith(enc, rs)[j + |p|..] == EncodeWith(enc, rs[i + |p|..])
  {
    IndexCommutes(enc, rs, p);
    TailAt(enc, rs, p, IndexOf(rs, p));
  }

  lemma TailAt(enc: Encoding, rs: seq<rune>, p: Units, i: nat)
    requires Transparent(enc) && IsAscii(p) && At(rs, p, i)
    ensures var u, j := EncodeWith(enc, rs), |EncodeWith(enc, rs[..i])|;
      j + |p| <= |u| && u[j + |p|..] == EncodeWith(enc, rs[i + |p|..])
  {
    InThree(rs, i, p);
    EncodeThree(enc, rs, rs[..i], p, rs[i + |p|..]);
  }

  lemma InThree(u: Units, i: nat, p: Units)
    requires At(u, p, i)
    ensures u == u[..i] + (p + u[i + |p|..])
  {
  }

  lemma EncodeThree(enc: Encoding, rs: seq<rune>, a: seq<rune>, p: Units, tail: seq<rune>)
    requires Transparent(enc) && IsAscii(p) && rs == a + (p + tail)
    ensures var u, j := EncodeWith(enc, rs), |EncodeWith(enc, a)|;
      j + |p| <= |u| && u[j + |p|..] == EncodeWith(enc, tail)
  {
    EncodeConcat(enc, a, p + tail);
    EncodePattern(enc, p, tail);
    CutTwo(EncodeWith(enc, a), p, EncodeWith(enc, tail));
  }

  lemma CutTwo(a: Units, p: Units, tail: Units)
    ensures (a + (p + tail))[|a| + |p|..] == tail
  {
  }

  /** Cutting off what precedes the pattern. */
  lemma SuffixCommutes(enc: Encoding, rs: seq<rune>, p: Units)
    requires Transparent(enc) && AllScalar(rs) && p != [] && IsAscii(p)
    ensures CutsOff(enc, EncodeWith(enc, rs), rs, p)
  {
    IndexCommutes(enc, rs, p);
    if IndexOf(rs, p) >= 0 { EncodeFrom(enc, rs, IndexOf(rs, p)); }
  }

  lemma EncodeFrom(enc: Encoding, rs: seq<rune>, i: nat)
    requires i <= |rs|
    ensures |EncodeWith(enc, rs[..i])| <= |EncodeWith(enc, rs)|
    ensures EncodeWith(enc, rs)[|EncodeWith(enc, rs[..i])|..] == EncodeWith(enc, rs[i..])
  {
    assert rs == rs[..i] + rs[i..];
    EncodeTwo(enc, rs, rs[..i], rs[i..]);
  }

  lemma EncodeTwo(enc: Encoding, rs: seq<rune>, a: seq<rune>, b: seq<rune>)
    requires rs == a + b
    ensures |EncodeWith(enc, a)| <= |EncodeWith(enc, rs)|
    ensures EncodeWith(enc, rs)[|EncodeWith(enc, a)|..] == EncodeWith(enc, b)
  {
    EncodeConcat(enc, a, b);
  }

  lemma EncodePattern(enc: Encoding, p: Units, rs: seq<rune>)
    requires Transparent(enc) && IsAscii(p)
    ensures EncodeWith(enc, p + rs) == p + EncodeWith(enc, rs)
  {
    EncodeConcat(enc, p, rs);
    EncodeAscii(enc, p);
  }

  /** Rewriting the encoded URL is encoding the rewritten URL. */
  lemma PreviewCommutes(enc: Encoding, rs: seq<rune>)
    requires Transparent(enc) && AllScalar(rs)
    ensures ToRelativePath(EncodeWith(enc, rs)).1 == ToRelativePath(rs).1
    ensures Preview(EncodeWith(enc, rs)) == EncodeWith(enc, Preview(rs))
  {
    var u := EncodeWith(enc, rs);
    RelativeIsChosen(u);
    RelativeIsChosen(rs);
    PostCommutes(enc, rs);
    ProfileCommutes(enc, rs);
    AbsoluteCommutes(enc, rs);
    ChosenCommutes(enc, u, rs, V1_POST, V2_POST, V1_PROFILE, V2_PROFILE, V2_STORAGE, IsAbsolute(rs));
  }

  /** The rewrite for arbitrary patterns, `absolute` standing for the test of the scheme. */
  function Chosen(u: Units, p: Units, q: Units, p': Units, q': Units, v2: Units, absolute: bool): (Units, bool) {
    if IndexOf(u, p) >= 0 then (q + u[IndexOf(u, p) + |p|..], true)
    else if IndexOf(u, p') >= 0 then (q' + u[IndexOf(u, p') + |p'|..], true)
    else if IndexOf(u, v2) >= 0 && absolute then (u[IndexOf(u, v2)..], true)
    else ([], false)
  }

  lemma RelativeIsChosen(u: Units)
    ensures ToRelativePath(u) == Chosen(u, V1_POST, V2_POST, V1_PROFILE, V2_PROFILE, V2_STORAGE, IsAbsolute(u))
  {
  }

  /** Replacing `p` and what precedes it by `q` gives the encoding of the same replacement. */
  predicate Replaces(enc: Encoding, u: Units, rs: seq<rune>, p: Units, q: Units) {
    var i, j := IndexOf(rs, p), IndexOf(u, p);
    (i < 0 <==> j < 0) && (i >= 0 ==> q + u[j + |p|..] == EncodeWith(enc, q + rs[i + |p|..]))
  }

  /** So does cutting off what precedes `p`. */
  predicate CutsOff(enc: Encoding, u: Units, rs: seq<rune>, p: Units) {
    var i, j := IndexOf(rs, p), IndexOf(u, p);
    (i < 0 <==> j < 0) && (i >= 0 ==> u[j..] == EncodeWith(enc, rs[i..]))
  }

  lemma ChosenCommutes(enc: Encoding, u: Units, rs: seq<rune>, p: Units, q: Units, p': Units, q': Units, v2: Units,
                       absolute: bool)
    requires Replaces(enc, u, rs, p, q) && Replaces(enc, u, rs, p', q') && CutsOff(enc, u, rs, v2)
    ensures var to := Chosen(rs, p, q, p', q', v2, absolute);
      Chosen(u, p, q, p', q', v2, absolute) == (EncodeWith(enc, to.0), to.1)
  {
  }

  lemma PostCommutes(enc: Encoding, rs: seq<rune>)
    requires Transparent(enc) && AllScalar(rs)
    ensures Replaces(enc, EncodeWith(enc, rs), rs, V1_POST, V2_POST)
  {
    PatternsAscii();
    ReplaceCommutes(enc, rs, V1_POST, V2_POST);
  }

  lemma ProfileCommutes(enc: Encoding, rs: seq<rune>)
    requires Transparent(enc) && AllScalar(rs)
    ensures Replaces(enc, EncodeWith(enc, rs), rs, V1_PROFILE, V2_PROFILE)
  {
    PatternsAscii();
    ReplaceCommutes(enc, rs, V1_PROFILE, V2_PROFILE);
  }

  lemma AbsoluteCommutes(enc: Encoding, rs: seq<rune>)
    requires Transparent(enc) && AllScalar(rs)
    ensures CutsOff(enc, EncodeWith(enc, rs), rs, V2_STORAGE)
    ensures IsAbsolute(EncodeWith(enc, rs)) <==> IsAbsolute(rs)
  {
    PatternsAscii();
    SuffixCommutes(enc, rs, V2_STORAGE);
    PrefixCommutes(enc, rs, HTTP);
    PrefixCommutes(enc, rs, HTTPS);
  }

  lemma ReplaceCommutes(enc: Encoding, rs: seq<rune>, p: Units, q: Units)
    requires Transparent(enc) && AllScalar(rs) && p != [] && IsAscii(p) && IsAscii(q)
    ensures Replaces(enc, EncodeWith(enc, rs), rs, p, q)
  {
    if IndexOf(rs, p) >= 0 { ReplacedTail(enc, rs, p, q); } else { IndexCommutes(enc, rs, p); }
  }

  lemma ReplacedTail(enc: Encoding, rs: seq<rune>, v1: Units, v2: Units)
    requires Transparent(enc) && AllScalar(rs) && v1 != [] && IsAscii(v1) && IsAscii(v2) && IndexOf(rs, v1) >= 0
    ensures var i, j := IndexOf(rs, v1), IndexOf(EncodeWith(enc, rs), v1);
      j >= 0 && v2 + EncodeWith(enc, rs)[j + |v1|..] == EncodeWith(enc, v2 + rs[i + |v1|..])
  {
    var i, j := IndexOf(rs, v1), IndexOf(EncodeWith(enc, rs), v1);
    TailCommutes(enc, rs, v1);
    PutInFront(enc, v2, rs[i + |v1|..], EncodeWith(enc, rs)[j + |v1|..]);
  }

  lemma PutInFront(enc: Encoding, p: Units, tail: seq<rune>, u: Units)
    requires Transparent(enc) && IsAscii(p) && u == EncodeWith(enc, tail)
    ensures p + u == EncodeWith(enc, p + tail)
  {
    EncodePattern(enc, p, tail);
  }

  // ------------------------------------------------------------ the script on a Go string

  /** Reads UTF-16 units back; a lone surrogate becomes U+FFFD. */
  function FromUtf16(u: Units): seq<rune> {
    if u == [] then []
    else if |u| >= 2 && 0xD800 <= u[0] < 0xDC00 && 0xDC00 <= u[1] < 0xE000
      then [0x10000 + (u[0] - 0xD800) * 0x400 + (u[1] - 0xDC00)] + FromUtf16(u[2..])
    else [if IsScalar(u[0]) then u[0] else RUNE_ERROR] + FromUtf16(u[1..])
  }

  lemma {:induction false} FromUtf16Inverts(rs: seq<rune>)
    requires AllScalar(rs)
    ensures FromUtf16(EncodeWith(Utf16, rs)) == rs
  {
    if rs != [] {
      var u, head, rest := EncodeWith(Utf16, rs), Utf16(rs[0]), EncodeWith(Utf16, rs[1..]);
      FromUtf16Inverts(rs[1..]);
      assert u == head + rest && IsScalar(rs[0]);
      assert u[|head|..] == rest;
      assert rs == [rs[0]] + rs[1..];
    }
  }

  /** What the script makes of a URL stored as the UTF-8 string `s`. */
  function ScriptUrl(s: Str): Str {
    EncodeAll(FromUtf16(Painless(EncodeWith(Utf16, Decode(s)))))
  }

  /** On the same units the two rewrites are the same; on different encodings they are not. */
  lemma SameUnits(u: Units)
    ensures Painless(u) == Preview(u)
  {
  }

  lemma PreviewScalar(rs: seq<rune>)
    requires AllScalar(rs)
    ensures AllScalar(Preview(rs))
  {
    PatternsAscii();
  }

  /** The preview and the script agree on every URL that is UTF-8. */
  lemma ScriptAgrees(s: Str)
    requires Valid(s)
    ensures ScriptUrl(s) == Preview(s)
  {
    var rs := Decode(s);
    DecodeBounds(s);
    EncodeDecode(s);
    BothTransparent();
    Utf8IsGo(rs);
    Utf8IsGo(Preview(rs));
    PreviewCommutes(Utf8, rs);
    PreviewCommutes(Utf16, rs);
    SameUnits(EncodeWith(Utf16, rs));
    PreviewScalar(rs);
    FromUtf16Inverts(Preview(rs));
  }
}
