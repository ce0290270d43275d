/**
 * The text helpers of package searchdoc: truncation by runes, trimming, tag
 * stripping and the summary.
 */
module Text {
  import opened Wrappers
  import opened GoStrings

  const SUMMARY_MAX_RUNES: nat := 300
  const ELLIPSIS: Str := [0xE2, 0x80, 0xA6]
  const LT: byte := 0x3C
  const GT: byte := 0x3E
  const SPACE: byte := 0x20
  const NEWLINE: byte := 0x0A
  const TAB: byte := 0x09

  // ------------------------------------------------------------ truncateRunes

  /** The byte offset just after the first `n` runes (all of them if there are fewer). */
  function Cut(s: Str, n: nat): (p: nat)
    ensures p <= |s|
    decreases n
  {
    if n == 0 || s == [] then 0 else Width(s) + Cut(s[Width(s)..], n - 1)
  }

  function Truncate(s: Str, n: int): Str {
    if n <= 0 then [] else s[..Cut(s, n)]
  }

  lemma {:induction false} CutAll(s: Str, n: nat)
    requires RuneCount(s) <= n
    ensures Cut(s, n) == |s|
    decreases n
  {
    if s != [] {
      DecodeStep(s);
      CutAll(s[Width(s)..], n - 1);
    }
  }

  lemma {:induction false} CutFront(s: Str, n: nat)
    ensures Decode(s[..Cut(s, n)]) == Decode(s)[..Min(n, RuneCount(s))]
    decreases n
  {
    if n == 0 || s == [] {
      assert s[..0] == [];
    } else {
      var w := Width(s);
      var q := Cut(s[w..], n - 1);
      CutFront(s[w..], n - 1);
      PrefixStep(s, w + q);
      DropPrefix(s, w, q);
      TakeMore(First(s), Decode(s[w..]), n);
    }
  }

  lemma DropPrefix(s: Str, w: nat, q: nat)
    requires w + q <= |s|
    ensures s[..w + q][w..] == s[w..][..q]
  {
  }

  lemma TakeMore(c: rune, rs: seq<rune>, n: nat)
    requires n > 0
    ensures ([c] + rs)[..Min(n, 1 + |rs|)] == [c] + rs[..Min(n - 1, |rs|)]
  {
  }

  /** Decoding a prefix that covers the first rune. */
  lemma PrefixStep(s: Str, p: nat)
    requires s != [] && Width(s) <= p <= |s|
    ensures Decode(s[..p]) == [First(s)] + Decode(s[..p][Width(s)..])
    ensures Decode(s) == [First(s)] + Decode(s[Width(s)..])
  {
    WidthOfPrefix(s, p);
    DecodeStep(s[..p]);
    DecodeStep(s);
  }

  lemma {:induction false} CutKeepsValid(s: Str, n: nat)
    requires Valid(s)
    ensures Valid(s[..Cut(s, n)])
    decreases n
  {
    if n > 0 && s != [] {
      var w := Width(s);
      var q := Cut(s[w..], n - 1);
      CutKeepsValid(s[w..], n - 1);
      WidthOfPrefix(s, w + q);
      var p := s[..w + q];
      assert p[w..] == s[w..][..q];
    }
  }

  /**
   * For every byte string and every n: a prefix, whose runes are the first n runes of
   * the string, and which is valid if the string is.
   */
  lemma TruncateKeepsRunes(s: Str, n: int)
    ensures Truncate(s, n) <= s
    ensures n > 0 ==> Decode(Truncate(s, n)) == Decode(s)[..Min(n, RuneCount(s))]
    ensures n > 0 && RuneCount(s) <= n ==> Truncate(s, n) == s
    ensures n <= 0 ==> Truncate(s, n) == []
    ensures Valid(s) ==> Valid(Truncate(s, n))
  {
    if n > 0 {
      CutFront(s, n);
      if RuneCount(s) <= n { CutAll(s, n); }
      if Valid(s) { CutKeepsValid(s, n); }
    }
  }

  /** What follows a rune boundary beyond the n-th rune cannot change the truncation. */
  lemma TruncateIgnoresRest(s: Str, t: Str, n: nat)
    requires Boundary(t) && n <= RuneCount(s)
    ensures Cut(s + t, n) == Cut(s, n) && Truncate(s + t, n) == Truncate(s, n)
  {
    CutIgnoresRest(s, t, n);
  }

  lemma {:induction false} CutIgnoresRest(s: Str, t: Str, n: nat)
    requires Boundary(t) && n <= RuneCount(s)
    ensures Cut(s + t, n) == Cut(s, n)
    decreases n
  {
    if n > 0 {
      ConcatStep(s, t);
      DecodeStep(s);
      CutIgnoresRest(s[Width(s)..], t, n - 1);
      CutUnfolds(s, n);
      CutUnfolds(s + t, n);
    }
  }

  lemma CutUnfolds(s: Str, n: nat)
    requires n > 0 && s != []
    ensures Cut(s, n) == Width(s) + Cut(s[Width(s)..], n - 1)
  {
  }

  lemma {:induction false} CutStep(s: Str, n: nat)
    requires Cut(s, n) < |s|
    ensures Cut(s, n + 1) == Cut(s, n) + Width(s[Cut(s, n)..])
    decreases n
  {
    if n == 0 {
      assert s[0..] == s;
      assert Cut(s[Width(s)..], 0) == 0;
    } else {
      var rest := s[Width(s)..];
      CutStep(rest, n - 1);
      assert s[Cut(s, n)..] == rest[Cut(rest, n - 1)..];
    }
  }

  lemma {:induction false} CutGrows(s: Str, m: nat, n: nat)
    requires m <= n
    ensures Cut(s, m) <= Cut(s, n)
    decreases m
  {
    if m > 0 && s != [] { CutGrows(s[Width(s)..], m - 1, n - 1); }
  }

  method TruncateRunes(s: Str, n: int) returns (r: Str)
    ensures r == Truncate(s, n)
  {
    if n <= 0 || s == [] {
      return [];
    }
    if RuneCount(s) <= n {
      CutAll(s, n);
      return s;
    }
    var i, pos := 0, 0;
    while pos < |s|
      invariant 0 <= i <= n && pos == Cut(s, i)
      decreases |s| - pos
    {
      if i == n {
        return s[..pos];
      }
      CutStep(s, i);
      i, pos := i + 1, pos + Width(s[pos..]);
    }
    CutGrows(s, i, n);
    return s;
  }

  // ------------------------------------------------------------ TrimSpace

  /** The White_Space runes. */
  predicate IsSpace(r: rune) {
    || 9 <= r <= 13 || r == 0x20 || r == 0x85 || r == 0xA0 || r == 0x1680
    || 0x2000 <= r <= 0x200A || r == 0x2028 || r == 0x2029 || r == 0x202F || r == 0x205F || r == 0x3000
  }

  /** Number of bytes of the last rune: a valid sequence that ends the string, or one byte. */
  function LastWidth(s: Str): (w: nat)
    requires s != []
    ensures 1 <= w <= |s|
  {
    if EndsWide(s, 2) then 2 else if EndsWide(s, 3) then 3 else if EndsWide(s, 4) then 4 else 1
  }

  /** The last `k` bytes are one rune. */
  predicate EndsWide(s: Str, k: nat) {
    0 < k <= |s| && Width(s[|s| - k..]) == k
  }

  function Last(s: Str): rune
    requires s != []
  {
    First(s[|s| - LastWidth(s)..])
  }

  function TrimLeft(s: Str): Str
    decreases |s|
  {
    if s != [] && IsSpace(First(s)) then TrimLeft(s[Width(s)..]) else s
  }

  function TrimRight(s: Str): Str
    decreases |s|
  {
    if s != [] && IsSpace(Last(s)) then TrimRight(s[..|s| - LastWidth(s)]) else s
  }

  function TrimSpace(s: Str): Str {
    TrimRight(TrimLeft(s))
  }

  lemma Assoc<T>(a: seq<T>, b: seq<T>, c: seq<T>)
    ensures a + (b + c) == (a + b) + c
  {
  }

  ghost predicate AllSpace(rs: seq<rune>) {
    forall k :: 0 <= k < |rs| ==> IsSpace(rs[k])
  }

  lemma SpaceStartsRune(s: Str)
    requires s != [] && IsSpace(First(s))
    ensures Boundary(s) && StartsValid(s)
  {
  }

  lemma {:induction false} TrimLeftSplits(s: Str) returns (x: Str)
    ensures s == x + TrimLeft(s) && Decode(s) == Decode(x) + Decode(TrimLeft(s)) && AllSpace(Decode(x))
    decreases |s|
  {
    if s != [] && IsSpace(First(s)) {
      var w := Width(s);
      var rest := TrimLeftSplits(s[w..]);
      SpaceStartsRune(s);
      var head := s[..w];
      PrefixStep(s, w);
      assert head[w..] == [];
      HeadConcat(s, w, rest);
      x := head + rest;
      Prepend(s, w, rest, TrimLeft(s));
      Assoc([First(s)], Decode(rest), Decode(TrimLeft(s)));
    } else {
      x := [];
      assert Decode(x) == [];
    }
  }

  lemma Prepend(s: Str, w: nat, x: Str, t: Str)
    requires w <= |s| && s[w..] == x + t
    ensures s == s[..w] + x + t
  {
    assert s == s[..w] + s[w..];
  }

  /** A properly encoded first rune decodes the same whatever follows. */
  lemma HeadConcat(s: Str, w: nat, rest: Str)
    requires s != [] && StartsValid(s) && Width(s) == w
    ensures Decode(s[..w] + rest) == [First(s)] + Decode(rest)
    ensures Valid(s[..w] + rest) == Valid(rest)
  {
    var head := s[..w];
    WidthOfPrefix(s, w);
    ValidWidthExtends(head, rest);
    DecodeStep(head + rest);
    assert (head + rest)[w..] == rest;
  }

  lemma LastFits(s: Str)
    requires s != []
    ensures Width(s[|s| - LastWidth(s)..]) == LastWidth(s)
  {
  }

  lemma OneRune(t: Str)
    requires t != [] && Width(t) == |t|
    ensures Decode(t) == [First(t)]
  {
    DecodeStep(t);
    assert t[|t|..] == [];
  }

  /** Trimming on the right cuts the last rune off if it is white space. */
  lemma TrailingSpace(s: Str) returns (front: Str, tail: Str)
    requires s != [] && IsSpace(Last(s))
    ensures s == front + tail && |front| < |s| && TrimRight(s) == TrimRight(front)
    ensures Boundary(tail) && AllSpace(Decode(tail))
  {
    var p := |s| - LastWidth(s);
    front, tail := s[..p], s[p..];
    LastFits(s);
    SpaceTail(tail);
    TrimRightStep(s);
  }

  lemma SpaceTail(t: Str)
    requires t != [] && Width(t) == |t| && IsSpace(First(t))
    ensures Boundary(t) && AllSpace(Decode(t))
  {
    OneRune(t);
    SpaceStartsRune(t);
  }

  lemma TrimRightStep(s: Str)
    requires s != [] && IsSpace(Last(s))
    ensures TrimRight(s) == TrimRight(s[..|s| - LastWidth(s)])
  {
  }

  lemma SplitAt(s: Str, p: nat)
    requires p <= |s| && Boundary(s[p..])
    ensures Decode(s) == Decode(s[..p]) + Decode(s[p..])
    ensures Valid(s) <==> Valid(s[..p]) && Valid(s[p..])
  {
    assert s == s[..p] + s[p..];
    DecodeConcat(s[..p], s[p..]);
    ValidConcat(s[..p], s[p..]);
  }

  lemma {:induction false} TrimRightSplits(s: Str) returns (y: Str)
    ensures s == TrimRight(s) + y && Decode(s) == Decode(TrimRight(s)) + Decode(y) && AllSpace(Decode(y))
    ensures Boundary(y)
    decreases |s|
  {
    if s != [] && IsSpace(Last(s)) {
      var front, tail := TrailingSpace(s);
      var rest := TrimRightSplits(front);
      y := AppendSpace(s, front, tail, TrimRight(front), rest);
    } else {
      y := [];
      assert Decode(y) == [];
    }
  }

  /** Trailing white space of the front and the white space after it are one piece. */
  lemma AppendSpace(s: Str, front: Str, tail: Str, t: Str, rest: Str) returns (y: Str)
    requires s == front + tail && front == t + rest && Boundary(tail) && Boundary(rest)
    requires Decode(front) == Decode(t) + Decode(rest) && AllSpace(Decode(rest)) && AllSpace(Decode(tail))
    ensures s == t + y && Decode(s) == Decode(t) + Decode(y) && AllSpace(Decode(y)) && Boundary(y)
  {
    y := rest + tail;
    DecodeConcat(front, tail);
    DecodeConcat(rest, tail);
    Assoc(t, rest, tail);
    Assoc(Decode(t), Decode(rest), Decode(tail));
  }

  lemma {:induction false} TrimLeftKeepsValid(s: Str)
    requires Valid(s)
    ensures Valid(TrimLeft(s))
    decreases |s|
  {
    if s != [] && IsSpace(First(s)) { TrimLeftKeepsValid(s[Width(s)..]); }
  }

  /** Trimming cuts white space off both ends and nothing else. */
  lemma TrimSpaceSplits(s: Str) returns (x: Str, y: Str)
    ensures s == x + TrimSpace(s) + y
    ensures Decode(s) == Decode(x) + Decode(TrimSpace(s)) + Decode(y)
    ensures AllSpace(Decode(x)) && AllSpace(Decode(y))
    ensures Valid(s) ==> Valid(TrimSpace(s))
  {
    x := TrimLeftSplits(s);
    y := TrimRightSplits(TrimLeft(s));
    Assoc(x, TrimSpace(s), y);
    Assoc(Decode(x), Decode(TrimSpace(s)), Decode(y));
    if Valid(s) {
      TrimLeftKeepsValid(s);
      ValidConcat(TrimSpace(s), y);
    }
  }

  /** The result neither starts nor ends with white space. */
  lemma TrimSpaceEnds(s: Str)
    ensures var t := TrimSpace(s); t == [] || (!IsSpace(First(t)) && !IsSpace(Last(t)))
  {
    TrimLeftStops(s);
    TrimRightStops(TrimLeft(s));
    var t := TrimSpace(s);
    if t != [] && IsSpace(First(t)) {
      var y := TrimRightSplits(TrimLeft(s));
      SpaceStartsRune(t);
      ValidWidthExtends(t, y);
      assert false;
    }
  }

  /** So trimming again changes nothing. */
  lemma TrimSpaceStable(s: Str)
    ensures TrimSpace(TrimSpace(s)) == TrimSpace(s)
  {
    TrimSpaceEnds(s);
  }

  /** White space is the 25 runes that Unicode lists. */
  lemma WhiteSpaceIs(r: rune)
    ensures IsSpace(r) <==>
            r in [0x09, 0x0A, 0x0B, 0x0C, 0x0D, 0x20, 0x85, 0xA0, 0x1680, 0x2000, 0x2001, 0x2002, 0x2003,
                  0x2004, 0x2005, 0x2006, 0x2007, 0x2008, 0x2009, 0x200A, 0x2028, 0x2029, 0x202F, 0x205F, 0x3000]
  {
  }

  lemma {:induction false} TrimLeftStops(s: Str)
    ensures TrimLeft(s) == [] || !IsSpace(First(TrimLeft(s)))
    decreases |s|
  {
    if s != [] && IsSpace(First(s)) { TrimLeftStops(s[Width(s)..]); }
  }

  lemma {:induction false} TrimRightStops(s: Str)
    ensures TrimRight(s) == [] || !IsSpace(Last(TrimRight(s)))
    decreases |s|
  {
    if s != [] && IsSpace(Last(s)) { TrimRightStops(s[..|s| - LastWidth(s)]); }
  }

  // ------------------------------------------------------------ stripHTMLLite

  /** The runes outside tags, from a point that is inside a tag or not. */
  function Keep(rs: seq<rune>, inTag: bool): seq<rune> {
    if rs == [] then []
    else if rs[0] == LT then Keep(rs[1..], true)
    else if rs[0] == GT then Keep(rs[1..], false)
    else (if inTag then [] else [rs[0]]) + Keep(rs[1..], inTag)
  }

  function StripHtml(s: Str): Str {
    if LT !in s then s else EncodeAll(Keep(Decode(s), false))
  }

  /** What the loop still has to write from byte `pos` on. */
  function ToWrite(s: Str, pos: nat, inTag: bool): Str
    requires pos <= |s|
  {
    EncodeAll(Keep(Decode(s[pos..]), inTag))
  }

  lemma WriteStep(s: Str, pos: nat, inTag: bool)
    requires pos < |s|
    ensures var c, next := First(s[pos..]), pos + Width(s[pos..]);
      ToWrite(s, pos, inTag) ==
        if c == LT then ToWrite(s, next, true)
        else if c == GT then ToWrite(s, next, false)
        else if inTag then ToWrite(s, next, inTag)
        else Encode(c) + ToWrite(s, next, inTag)
  {
    var rest := s[pos..];
    DecodeStep(rest);
    assert s[pos + Width(rest)..] == rest[Width(rest)..];
    KeepStep(First(rest), Decode(rest[Width(rest)..]), inTag);
  }

  lemma StripStep(s: Str, pos: nat, inTag: bool, r: Str)
    requires pos < |s|
    ensures var c, next := First(s[pos..]), pos + Width(s[pos..]);
      r + ToWrite(s, pos, inTag) ==
        if c == LT then r + ToWrite(s, next, true)
        else if c == GT then r + ToWrite(s, next, false)
        else if inTag then r + ToWrite(s, next, inTag)
        else (r + Encode(c)) + ToWrite(s, next, inTag)
  {
    var c, next := First(s[pos..]), pos + Width(s[pos..]);
    WriteStep(s, pos, inTag);
    Assoc(r, Encode(c), ToWrite(s, next, inTag));
  }

  method StripHtmlLite(s: Str) returns (r: Str)
    ensures r == StripHtml(s)
  {
    if LT !in s {
      return s;
    }
    var inTag, pos := false, 0;
    r := [];
    ghost var goal := StripHtml(s);
    WriteAll(s);
    while pos < |s|
      invariant 0 <= pos <= |s|
      invariant goal == r + ToWrite(s, pos, inTag)
      decreases |s| - pos
    {
      var c, width := First(s[pos..]), Width(s[pos..]);
      StripStep(s, pos, inTag, r);
      pos := pos + width;
      if c == LT {
        inTag := true;
      } else if c == GT {
        inTag := false;
      } else if !inTag {
        r := r + Encode(c);
      }
    }
    WriteNone(s, inTag);
  }

  lemma WriteAll(s: Str)
    requires LT in s
    ensures StripHtml(s) == [] + ToWrite(s, 0, false)
  {
    assert s[0..] == s;
  }

  lemma WriteNone(s: Str, inTag: bool)
    ensures ToWrite(s, |s|, inTag) == []
  {
    assert s[|s|..] == [];
  }

  lemma KeepStep(c: rune, rs: seq<rune>, inTag: bool)
    ensures EncodeAll(Keep([c] + rs, inTag)) ==
            if c == LT then EncodeAll(Keep(rs, true))
            else if c == GT then EncodeAll(Keep(rs, false))
            else if inTag then EncodeAll(Keep(rs, inTag))
            else Encode(c) + EncodeAll(Keep(rs, inTag))
  {
    assert ([c] + rs)[1..] == rs;
    var ks := Keep(rs, inTag);
    if c != LT && c != GT {
      assert Keep([c] + rs, inTag) == (if inTag then [] else [c]) + ks;
      assert [] + ks == ks && ([c] + ks)[1..] == ks;
    }
  }

  /** Position `k` is inside a tag: a '<' before it has not been closed yet. */
  ghost predicate InsideTag(rs: seq<rune>, k: nat)
    requires k <= |rs|
  {
    exists j :: 0 <= j < k && rs[j] == LT && forall i :: j < i < k ==> rs[i] != GT
  }

  /** The runes of the first `n` that are no bracket and stand outside every tag. */
  ghost function Visible(rs: seq<rune>, n: nat): seq<rune>
    requires n <= |rs|
  {
    if n == 0 then []
    else Visible(rs, n - 1) +
         (if rs[n - 1] != LT && rs[n - 1] != GT && !InsideTag(rs, n - 1) then [rs[n - 1]] else [])
  }

  lemma {:induction false} KeepSplits(a: seq<rune>, b: seq<rune>, inTag: bool)
    ensures Keep(a + b, inTag) == Keep(a, inTag) + Keep(b, TagAfter(a, inTag))
  {
    if a == [] {
      assert a + b == b;
    } else {
      assert (a + b)[1..] == a[1..] + b;
      var next := if a[0] == LT then true else if a[0] == GT then false else inTag;
      KeepSplits(a[1..], b, next);
    }
  }

  function TagAfter(rs: seq<rune>, inTag: bool): bool {
    if rs == [] then inTag
    else TagAfter(rs[1..], if rs[0] == LT then true else if rs[0] == GT then false else inTag)
  }

  lemma {:induction false} TagAfterSplits(a: seq<rune>, b: seq<rune>, inTag: bool)
    ensures TagAfter(a + b, inTag) == TagAfter(b, TagAfter(a, inTag))
  {
    if a == [] {
      assert a + b == b;
    } else {
      assert (a + b)[1..] == a[1..] + b;
      TagAfterSplits(a[1..], b, if a[0] == LT then true else if a[0] == GT then false else inTag);
    }
  }

  lemma InsideStep(rs: seq<rune>, n: nat)
    requires 0 < n <= |rs|
    ensures InsideTag(rs, n) <==> rs[n - 1] == LT || (InsideTag(rs, n - 1) && rs[n - 1] != GT)
  {
    if rs[n - 1] == LT {
      assert InsideTag(rs, n);
    } else if InsideTag(rs, n - 1) && rs[n - 1] != GT {
      var j :| 0 <= j < n - 1 && rs[j] == LT && forall i :: j < i < n - 1 ==> rs[i] != GT;
      assert InsideTag(rs, n);
    }
  }

  /** The toggling loop keeps exactly the runes that stand outside every tag. */
  lemma {:induction false} KeepIsVisible(rs: seq<rune>, n: nat)
    requires n <= |rs|
    ensures Keep(rs[..n], false) == Visible(rs, n)
    ensures TagAfter(rs[..n], false) == InsideTag(rs, n)
  {
    if n > 0 {
      KeepIsVisible(rs, n - 1);
      var c := [rs[n - 1]];
      assert rs[..n] == rs[..n - 1] + c;
      KeepSplits(rs[..n - 1], c, false);
      TagAfterSplits(rs[..n - 1], c, false);
      InsideStep(rs, n);
      assert c[1..] == [];
    } else {
      assert rs[..0] == [];
    }
  }

  lemma {:induction false} KeepHasNoBracket(rs: seq<rune>, inTag: bool)
    ensures LT !in Keep(rs, inTag) && GT !in Keep(rs, inTag)
    ensures AllScalar(rs) ==> AllScalar(Keep(rs, inTag))
  {
    if rs != [] {
      KeepHasNoBracket(rs[1..], if rs[0] == LT then true else if rs[0] == GT then false else inTag);
    }
  }

  /** An ASCII byte occurs in a string exactly if it is one of its runes. */
  lemma {:induction false} AsciiIsRune(s: Str, c: byte)
    requires c < 0x80
    ensures c in s <==> c in Decode(s)
    decreases |s|
  {
    if s != [] {
      var w := Width(s);
      AsciiIsRune(s[w..], c);
      DecodeStep(s);
      assert s == s[..w] + s[w..];
      FirstAscii(s, c);
    }
  }

  lemma FirstAscii(s: Str, c: byte)
    requires s != [] && c < 0x80
    ensures c in s[..Width(s)] <==> c == First(s)
  {
  }

  /**
   * On input with a '<': exactly the runes outside tags remain, none of them a bracket,
   * and the result is valid UTF-8.  On any input, stripping again changes nothing.
   */
  lemma StripHtmlSpec(s: Str)
    ensures 0x3C in s ==> Decode(StripHtml(s)) == Visible(Decode(s), RuneCount(s))
    ensures 0x3C in s ==> 0x3C !in StripHtml(s) && 0x3E !in StripHtml(s) && Valid(StripHtml(s))
    ensures 0x3C !in s ==> StripHtml(s) == s
    ensures Valid(s) ==> Valid(StripHtml(s))
    ensures StripHtml(StripHtml(s)) == StripHtml(s)
  {
    if LT in s {
      var rs := Decode(s);
      DecodeBounds(s);
      KeepIsVisible(rs, |rs|);
      assert rs[..|rs|] == rs;
      KeepHasNoBracket(rs, false);
      DecodeEncode(Keep(rs, false));
      AsciiIsRune(StripHtml(s), LT);
      AsciiIsRune(StripHtml(s), GT);
    }
  }

  lemma {:induction false} KeepAllIff(rs: seq<rune>)
    requires LT !in rs
    ensures Keep(rs, false) == rs <==> GT !in rs
    ensures |Keep(rs, false)| <= |rs|
  {
    if rs != [] {
      KeepAllIff(rs[1..]);
      assert rs == [rs[0]] + rs[1..];
    }
  }

  /** Skipping the loop when there is no '<' is harmless exactly when there is no '>' either. */
  lemma FastPathAgreesIff(s: Str)
    requires Valid(s) && LT !in s
    ensures EncodeAll(Keep(Decode(s), false)) == StripHtml(s) <==> GT !in s
  {
    var rs := Decode(s);
    DecodeBounds(s);
    AsciiIsRune(s, LT);
    AsciiIsRune(s, GT);
    KeepAllIff(rs);
    EncodeDecode(s);
    KeepHasNoBracket(rs, false);
    DecodeEncode(Keep(rs, false));
  }

  // ------------------------------------------------------------ makeSummary

  predicate IsBreak(b: byte) {
    b == SPACE || b == NEWLINE || b == TAB
  }

  function BreakBefore(s: Str, n: nat): int
    requires n <= |s|
  {
    if n == 0 then -1 else if IsBreak(s[n - 1]) then n - 1 else BreakBefore(s, n - 1)
  }

  lemma {:induction false} BreakBeforeIs(s: Str, n: nat)
    requires n <= |s|
    ensures var i := BreakBefore(s, n);
      -1 <= i < n && (i >= 0 ==> IsBreak(s[i])) && forall k :: i < k < n ==> !IsBreak(s[k])
  {
    if n > 0 && !IsBreak(s[n - 1]) { BreakBeforeIs(s, n - 1); }
  }

  /** The last index of a space, newline or tab, or -1. */
  function LastBreak(s: Str): (i: int)
    ensures -1 <= i < |s|
    ensures i >= 0 ==> IsBreak(s[i])
    ensures forall k :: i < k < |s| ==> !IsBreak(s[k])
  {
    BreakBeforeIs(s, |s|);
    BreakBefore(s, |s|)
  }

  predicate BacksOff(body: Str) {
    LastBreak(Truncate(body, SUMMARY_MAX_RUNES)) > SUMMARY_MAX_RUNES / 2
  }

  function Summary(body: Str): Str {
    if body == [] then []
    else if RuneCount(body) <= SUMMARY_MAX_RUNES then body
    else
      var clipped := Truncate(body, SUMMARY_MAX_RUNES);
      var idx := LastBreak(clipped);
      TrimSpace(if idx > SUMMARY_MAX_RUNES / 2 then clipped[..idx] else clipped) + ELLIPSIS
  }

  method MakeSummary(body: Str) returns (r: Str)
    ensures r == Summary(body)
    ensures RuneCount(r) <= 301 && (Valid(body) ==> Valid(r))
    ensures RuneCount(body) <= 300 ==> r == body
    ensures RuneCount(body) > 300 ==> exists a, b, p :: IsSummaryOf(r, body, a, b, p)
  {
    ghost var from, upto, cut := SummaryShape(body);
    if body == [] {
      return [];
    }
    if RuneCount(body) <= SUMMARY_MAX_RUNES {
      return body;
    }
    var clipped := TruncateRunes(body, SUMMARY_MAX_RUNES);
    var idx := LastBreak(clipped);
    if idx > SUMMARY_MAX_RUNES / 2 {
      clipped := clipped[..idx];
    }
    return TrimSpace(clipped) + ELLIPSIS;
  }

  /** Where a long body is cut before trimming. */
  function SummaryCut(body: Str): (p: nat)
    ensures p <= |body|
  {
    if BacksOff(body) then LastBreak(Truncate(body, SUMMARY_MAX_RUNES)) else Cut(body, SUMMARY_MAX_RUNES)
  }

  lemma EllipsisFacts()
    ensures Decode(ELLIPSIS) == [0x2026] && Valid(ELLIPSIS) && Boundary(ELLIPSIS)
  {
    assert Width(ELLIPSIS) == 3 && First(ELLIPSIS) == 0x2026;
    assert ELLIPSIS[3..] == [];
    DecodeStep(ELLIPSIS);
  }

  /** Backing off cuts at a rune boundary. */
  lemma BackOffPrefix(s: Str, idx: nat)
    requires idx < |s| && IsBreak(s[idx])
    ensures RuneCount(s[..idx]) <= RuneCount(s) && (Valid(s) ==> Valid(s[..idx]))
  {
    SplitAt(s, idx);
  }

  /** The part of the body that is trimmed for the summary. */
  lemma SummaryOfCut(body: Str)
    requires RuneCount(body) > SUMMARY_MAX_RUNES
    ensures Summary(body) == TrimSpace(body[..SummaryCut(body)]) + ELLIPSIS
  {
    var clipped := Truncate(body, SUMMARY_MAX_RUNES);
    if BacksOff(body) { assert clipped[..LastBreak(clipped)] == body[..SummaryCut(body)]; }
  }

  lemma ClippedFacts(body: Str)
    ensures RuneCount(body[..SummaryCut(body)]) <= SUMMARY_MAX_RUNES
    ensures Valid(body) ==> Valid(body[..SummaryCut(body)])
    ensures BacksOff(body) ==> SummaryCut(body) < |body| && IsBreak(body[SummaryCut(body)])
  {
    var clipped := Truncate(body, SUMMARY_MAX_RUNES);
    TruncateKeepsRunes(body, SUMMARY_MAX_RUNES);
    var idx := LastBreak(clipped);
    if BacksOff(body) {
      BackOffPrefix(clipped, idx);
      assert clipped[..idx] == body[..idx];
    }
  }

  /** Trimming a prefix of the body leaves a piece of the body. */
  lemma TrimmedPiece(body: Str, p: nat) returns (a: nat, b: nat)
    requires p <= |body|
    ensures a <= b <= p && TrimSpace(body[..p]) == body[a..b]
    ensures AllSpace(Decode(body[..a])) && AllSpace(Decode(body[b..p]))
  {
    var t := TrimSpace(body[..p]);
    var x, y := TrimSpaceCuts(body[..p], t);
    PieceOfPrefix(body, p, x, t, y);
    a, b := |x|, |x| + |t|;
  }

  /** The two pieces that trimming cuts off. */
  lemma TrimSpaceCuts(s: Str, t: Str) returns (x: Str, y: Str)
    requires t == TrimSpace(s)
    ensures s == x + t + y && AllSpace(Decode(x)) && AllSpace(Decode(y))
  {
    x, y := TrimSpaceSplits(s);
  }

  lemma TrimSpaceShrinks(s: Str)
    ensures RuneCount(TrimSpace(s)) <= RuneCount(s)
    ensures Valid(s) ==> Valid(TrimSpace(s))
  {
    var x, y := TrimSpaceSplits(s);
    var rs := Decode(TrimSpace(s));
    assert |Decode(x) + rs + Decode(y)| == |Decode(x)| + |rs| + |Decode(y)|;
  }

  lemma PieceOfPrefix<T>(s: seq<T>, p: nat, x: seq<T>, t: seq<T>, y: seq<T>)
    requires p <= |s| && s[..p] == x + t + y
    ensures |x| + |t| <= p
    ensures s[..|x|] == x && s[|x|..|x| + |t|] == t && s[|x| + |t|..p] == y
  {
    var u := s[..p];
    assert forall k :: 0 <= k < p ==> s[k] == u[k];
  }

  lemma WithEllipsis(t: Str)
    ensures RuneCount(t + ELLIPSIS) == RuneCount(t) + 1
    ensures Valid(t) ==> Valid(t + ELLIPSIS)
  {
    EllipsisFacts();
    DecodeConcat(t, ELLIPSIS);
    ValidConcat(t, ELLIPSIS);
  }

  /**
   * Where a body of more than 300 runes is cut: at the last space, newline or tab of its first
   * 300 runes if that stands beyond byte 150, otherwise after the 300th rune.
   */
  ghost predicate CutsAt(body: Str, p: nat) {
    var clipped := Truncate(body, 300);
    && p <= |clipped| <= |body|
    && if exists k :: 150 < k < |clipped| && (clipped[k] == 0x20 || clipped[k] == 0x0A || clipped[k] == 0x09)
       then
         && 150 < p < |clipped| && (body[p] == 0x20 || body[p] == 0x0A || body[p] == 0x09)
         && forall k :: p < k < |clipped| ==> clipped[k] != 0x20 && clipped[k] != 0x0A && clipped[k] != 0x09
       else p == |clipped|
  }

  lemma SummaryCutIs(body: Str)
    ensures CutsAt(body, SummaryCut(body))
  {
    var clipped := Truncate(body, SUMMARY_MAX_RUNES);
    var i := LastBreak(clipped);
    assert clipped == body[..|clipped|] && Cut(body, SUMMARY_MAX_RUNES) == |clipped|;
    if exists k :: 150 < k < |clipped| && (clipped[k] == 0x20 || clipped[k] == 0x0A || clipped[k] == 0x09) {
      var k :| 150 < k < |clipped| && (clipped[k] == 0x20 || clipped[k] == 0x0A || clipped[k] == 0x09);
      assert IsBreak(clipped[k]);
      assert i >= k && IsBreak(clipped[i]) && body[i] == clipped[i];
      assert forall j :: i < j < |clipped| ==> !IsBreak(clipped[j]);
    }
  }

  /**
   * `r` is the piece of the body from `a` to `b` and U+2026.  What lies between the piece and
   * the ends of the part before the cut `p` is white space, and the piece is trimmed.
   */
  ghost predicate IsSummaryOf(r: Str, body: Str, a: nat, b: nat, p: nat) {
    && a <= b <= p && CutsAt(body, p) && p <= |body|
    && r == body[a..b] + [0xE2, 0x80, 0xA6]
    && AllSpace(Decode(body[..a])) && AllSpace(Decode(body[b..p]))
    && (a < b ==> !IsSpace(First(body[a..b])) && !IsSpace(Last(body[a..b])))
  }

  /**
   * A summary is the whole body if that has at most 300 runes.  Otherwise it is a piece
   * of the body before the cut, trimmed, and an ellipsis: at most 301 runes, valid if
   * the body is.
   */
  lemma SummaryShape(body: Str) returns (a: nat, b: nat, p: nat)
    ensures RuneCount(Summary(body)) <= 301
    ensures Valid(body) ==> Valid(Summary(body))
    ensures RuneCount(body) <= 300 ==> Summary(body) == body
    ensures RuneCount(body) > 300 ==> IsSummaryOf(Summary(body), body, a, b, p)
  {
    if RuneCount(body) > SUMMARY_MAX_RUNES {
      p := SummaryCut(body);
      SummaryOfCut(body);
      SummaryCutIs(body);
      ClippedFacts(body);
      a, b := TrimmedPiece(body, p);
      TrimSpaceShrinks(body[..p]);
      TrimSpaceEnds(body[..p]);
      WithEllipsis(body[a..b]);
    } else {
      a, b, p := 0, 0, 0;
      assert Decode([]) == [];
    }
  }
}
