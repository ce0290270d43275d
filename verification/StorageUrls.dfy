/**
 * The URL rewrite of the storage migration, as the Go preview and as the Painless
 * script perform it.  A string is a sequence of code units: bytes in Go, UTF-16 units
 * in Painless.  All patterns are ASCII.
 */
module StorageUrls {

  type Units = seq<int>

  function Ascii(s: string): (u: Units)
    requires forall k :: 0 <= k < |s| ==> s[k] as int < 0x80
    ensures |u| == |s| && forall k :: 0 <= k < |s| ==> u[k] == s[k] as int
    ensures forall k :: 0 <= k < |u| ==> 0 <= u[k] < 0x80
  {
    seq(|s|, i requires 0 <= i < |s| => s[i] as int)
  }

  const V1_POST: Units := Ascii("/api/v1/files/post/")
  const V1_PROFILE: Units := Ascii("/api/v1/files/profile/")
  const V2_POST: Units := Ascii("/api/v2/storage/posts/")
  const V2_PROFILE: Units := Ascii("/api/v2/storage/profiles/")
  const V2_STORAGE: Units := Ascii("/api/v2/storage/")
  const HTTP: Units := Ascii("http://")
  const HTTPS: Units := Ascii("https://")

  // ------------------------------------------------------------ searching

  predicate At(u: Units, p: Units, i: nat) {
    i + |p| <= |u| && u[i..i + |p|] == p
  }

  lemma SliceOfTail(u: Units, i: nat, j: nat)
    requires u != [] && i <= j < |u|
    ensures u[1..][i..j] == u[i + 1..j + 1]
  {
  }

  function Find(u: Units, p: Units): int {
    if p <= u then 0
    else if u == [] then -1
    else if Find(u[1..], p) < 0 then -1
    else Find(u[1..], p) + 1
  }

  lemma {:induction false} FindIsAt(u: Units, p: Units)
    ensures -1 <= Find(u, p) <= |u|
    ensures Find(u, p) >= 0 ==> At(u, p, Find(u, p))
  {
    if !(p <= u) && u != [] {
      FindIsAt(u[1..], p);
      if Find(u[1..], p) >= 0 { SliceOfTail(u, Find(u[1..], p), Find(u[1..], p) + |p|); }
    }
  }

  /** The first index of `p` in `u`, or -1. */
  function IndexOf(u: Units, p: Units): (i: int)
    ensures -1 <= i <= |u|
    ensures i >= 0 ==> At(u, p, i)
  {
    FindIsAt(u, p);
    Find(u, p)
  }

  lemma {:induction false} IndexIsFirst(u: Units, p: Units, k: nat)
    requires At(u, p, k)
    ensures 0 <= IndexOf(u, p) <= k
  {
    if p <= u {
    } else {
      assert k > 0;
      SliceOfTail(u, k - 1, k - 1 + |p|);
      IndexIsFirst(u[1..], p, k - 1);
    }
  }

  // ------------------------------------------------------------ the two rewrites

  predicate IsAbsolute(u: Units) {
    HTTP <= u || HTTPS <= u
  }

  /** The Go preview: the relative path and whether a conversion happened. */
  function ToRelativePath(u: Units): (Units, bool) {
    var post := IndexOf(u, V1_POST);
    if post >= 0 then (V2_POST + u[post + |V1_POST|..], true)
    else
      var profile := IndexOf(u, V1_PROFILE);
      if profile >= 0 then (V2_PROFILE + u[profile + |V1_PROFILE|..], true)
      else
        var v2 := IndexOf(u, V2_STORAGE);
        if v2 >= 0 && IsAbsolute(u) then (u[v2..], true) else ([], false)
  }

  /** The URL as the preview reports it afterwards. */
  function Preview(u: Units): Units {
    if ToRelativePath(u).1 then ToRelativePath(u).0 else u
  }

  /** The URL the body of the Painless loop leaves in the block. */
  function Painless(url: Units): Units {
    var v1PostIdx := IndexOf(url, V1_POST);
    if v1PostIdx >= 0 then V2_POST + url[v1PostIdx + |V1_POST|..]
    else
      var v1ProfileIdx := IndexOf(url, V1_PROFILE);
      if v1ProfileIdx >= 0 then V2_PROFILE + url[v1ProfileIdx + |V1_PROFILE|..]
      else
        var v2Idx := IndexOf(url, V2_STORAGE);
        if v2Idx >= 0 && (HTTP <= url || HTTPS <= url) then url[v2Idx..] else url
  }

  // ------------------------------------------------------------ the wildcard query

  /** "*p*" */
  ghost predicate Contains(u: Units, p: Units) {
    exists i: nat :: At(u, p, i)
  }

  /** "prefix*p*" */
  ghost predicate PrefixThenContains(u: Units, prefix: Units, p: Units) {
    prefix <= u && exists i: nat :: i >= |prefix| && At(u, p, i)
  }

  /** One of the four clauses of the query selects the URL. */
  ghost predicate Selected(u: Units) {
    || Contains(u, V1_POST)
    || Contains(u, V1_PROFILE)
    || PrefixThenContains(u, HTTPS, V2_STORAGE)
    || PrefixThenContains(u, HTTP, V2_STORAGE)
  }

  /** The host is literally "api": the last slash of the scheme is the first of the path. */
  predicate HostIsApi(u: Units) {
    HTTP + V2_STORAGE[1..] <= u || HTTPS + V2_STORAGE[1..] <= u
  }

  lemma ContainsIff(u: Units, p: Units)
    ensures Contains(u, p) <==> IndexOf(u, p) >= 0
  {
    if Contains(u, p) {
      var i: nat :| At(u, p, i);
      IndexIsFirst(u, p, i);
    }
  }

  /** Where the v2 path can start in an absolute URL: after the scheme, or on its last slash. */
  lemma StorageInAbsolute(u: Units, scheme: Units, i: nat)
    requires scheme == HTTP || scheme == HTTPS
    requires scheme <= u && At(u, V2_STORAGE, i)
    ensures i >= |scheme| || (i == |scheme| - 1 && scheme + V2_STORAGE[1..] <= u)
  {
    if i < |scheme| {
      assert u[i] == V2_STORAGE[0] && u[i + 1] == V2_STORAGE[1];
      assert u[i] == scheme[i];
      if i == |scheme| - 1 {
        assert u[i + 1..i + |V2_STORAGE|] == u[i..i + |V2_STORAGE|][1..];
        assert u[..i + |V2_STORAGE|] == scheme + V2_STORAGE[1..];
      }
    }
  }

  lemma HostIsApiContains(u: Units, scheme: Units)
    requires scheme == HTTP || scheme == HTTPS
    requires scheme + V2_STORAGE[1..] <= u
    ensures At(u, V2_STORAGE, |scheme| - 1) && scheme <= u
  {
    var p, n := scheme + V2_STORAGE[1..], |scheme| - 1;
    SlashShared(scheme);
    assert u[n..n + |V2_STORAGE|] == p[n..n + |V2_STORAGE|] by { assert u[..|p|] == p; }
  }

  lemma SlashShared(scheme: Units)
    requires scheme == HTTP || scheme == HTTPS
    ensures (scheme + V2_STORAGE[1..])[|scheme| - 1..] == V2_STORAGE
  {
    assert scheme[|scheme| - 1] == V2_STORAGE[0];
  }

  /**
   * The rewrite alters exactly the URLs the query selects, and besides those the absolute
   * v2 URLs of a host named "api", which no clause selects unless the path occurs again.
   */
  lemma AlteredIff(u: Units)
    ensures ToRelativePath(u).1 <==> Selected(u) || HostIsApi(u)
    ensures Selected(u) ==> ToRelativePath(u).1
  {
    ContainsIff(u, V1_POST);
    ContainsIff(u, V1_PROFILE);
    AbsoluteIff(u, HTTP);
    AbsoluteIff(u, HTTPS);
  }

  /** With a scheme in front, the v2 path occurs after it or on its last slash. */
  lemma AbsoluteIff(u: Units, scheme: Units)
    requires scheme == HTTP || scheme == HTTPS
    ensures scheme <= u && IndexOf(u, V2_STORAGE) >= 0 <==>
            PrefixThenContains(u, scheme, V2_STORAGE) || scheme + V2_STORAGE[1..] <= u
  {
    ContainsIff(u, V2_STORAGE);
    var v2 := IndexOf(u, V2_STORAGE);
    if scheme <= u && v2 >= 0 { StorageInAbsolute(u, scheme, v2); }
    if scheme + V2_STORAGE[1..] <= u { HostIsApiContains(u, scheme); }
  }

  /** A pattern does not occur where its first unit does not. */
  lemma NotAt(u: Units, p: Units, i: nat)
    requires p != [] && i < |u| && u[i] != p[0]
    ensures !At(u, p, i)
  {
  }

  /** A URL that is altered although no clause selects it. */
  lemma AltersUnselected() returns (u: Units)
    ensures ToRelativePath(u).1 && !Selected(u)
  {
    u := Ascii("http://api/v2/storage/x");
    var slash := V1_POST[0];
    assert u[0] != slash && u[1] != slash && u[2] != slash && u[3] != slash && u[4] != slash && u[7] != slash;
    assert u[4] != HTTPS[4];
    forall i: nat ensures !At(u, V1_POST, i) && !At(u, V1_PROFILE, i) {
      if i < 5 { NotAt(u, V1_POST, i); NotAt(u, V1_PROFILE, i); }
    }
    forall i: nat | i >= |HTTP| ensures !At(u, V2_STORAGE, i) {
      if i == 7 { NotAt(u, V2_STORAGE, i); }
    }
    ApiUrl(u);
    AlteredIff(u);
  }

  lemma ApiUrl(u: Units)
    requires u == Ascii("http://api/v2/storage/x")
    ensures HostIsApi(u)
  {
    var p := HTTP + V2_STORAGE[1..];
    assert |p| == 22 && forall k :: 0 <= k < 22 ==> p[k] == u[k];
  }

  // ------------------------------------------------------------ what a rewrite yields

  /** Every rewritten URL is a relative v2 path. */
  lemma RewrittenIsRelative(u: Units)
    requires ToRelativePath(u).1
    ensures V2_STORAGE <= Preview(u)
  {
    var v2 := IndexOf(u, V2_STORAGE);
    if v2 >= 0 { assert u[v2..][..|V2_STORAGE|] == u[v2..v2 + |V2_STORAGE|]; }
    assert V2_STORAGE <= V2_POST && V2_STORAGE <= V2_PROFILE;
  }

  /** A conversion happened exactly if the URL is a different one afterwards. */
  lemma RewrittenDiffers(u: Units)
    ensures ToRelativePath(u).1 <==> Preview(u) != u
  {
    if IsV1(u) {
      var v1, v2, i := RewriteIs(u);
      ShiftedDiffers(u, v1, v2, i);
    } else if ToRelativePath(u).1 {
      RewrittenIsRelative(u);
      AbsoluteIsNotRelative(u);
    }
  }

  lemma AbsoluteIsNotRelative(u: Units)
    requires IsAbsolute(u)
    ensures !(V2_STORAGE <= u)
  {
    assert u[0] == HTTP[0] == HTTPS[0] != V2_STORAGE[0];
  }

  lemma ShiftedDiffers(u: Units, v1: Units, v2: Units, i: nat)
    requires (v1 == V1_POST && v2 == V2_POST) || (v1 == V1_PROFILE && v2 == V2_PROFILE)
    requires At(u, v1, i)
    ensures v2 + u[i + |v1|..] != u
  {
    assert u[i] == v1[0];
  }

  /** The whole rewritten URL, case by case: a v1 post, ... */
  lemma PostRewritten(u: Units, i: nat)
    requires IndexOf(u, Ascii("/api/v1/files/post/")) == i
    ensures i + 19 <= |u| && Preview(u) == Ascii("/api/v2/storage/posts/") + u[i + 19..]
  {
    assert |V1_POST| == 19;
  }

  /** ... a v1 profile, ... */
  lemma ProfileRewritten(u: Units, i: nat)
    requires IndexOf(u, Ascii("/api/v1/files/post/")) < 0 && IndexOf(u, Ascii("/api/v1/files/profile/")) == i
    ensures i + 22 <= |u| && Preview(u) == Ascii("/api/v2/storage/profiles/") + u[i + 22..]
  {
    assert |V1_PROFILE| == 22;
  }

  /** ... and anything else. */
  lemma OtherRewritten(u: Units)
    requires IndexOf(u, Ascii("/api/v1/files/post/")) < 0 && IndexOf(u, Ascii("/api/v1/files/profile/")) < 0
    ensures var i := IndexOf(u, Ascii("/api/v2/storage/"));
      Preview(u) == if i >= 0 && (Ascii("http://") <= u || Ascii("https://") <= u) then u[i..] else u
  {
  }

  // ------------------------------------------------------------ repeated rewriting

  predicate StartsV1(u: Units) {
    V1_POST <= u || V1_PROFILE <= u
  }

  /** Number of positions, overlapping ones included, where a v1 path starts. */
  function V1Count(u: Units): nat {
    if u == [] then 0 else (if StartsV1(u) then 1 else 0) + V1Count(u[1..])
  }

  predicate IsV1(u: Units) {
    IndexOf(u, V1_POST) >= 0 || IndexOf(u, V1_PROFILE) >= 0
  }

  lemma {:induction false} V1CountIff(u: Units)
    ensures V1Count(u) > 0 <==> IsV1(u)
  {
    if u != [] { V1CountIff(u[1..]); }
  }

  lemma {:induction false} V1CountOfSuffix(u: Units, j: nat)
    requires j <= |u|
    ensures V1Count(u[j..]) <= V1Count(u)
    ensures j > 0 && StartsV1(u) ==> V1Count(u[j..]) < V1Count(u)
  {
    if j > 0 {
      V1CountOfSuffix(u[1..], j - 1);
      DropDrop(u, 1, j - 1);
    } else {
      assert u[0..] == u;
    }
  }

  lemma DropDrop<T>(s: seq<T>, i: nat, j: nat)
    requires i + j <= |s|
    ensures s[i..][j..] == s[i + j..]
  {
  }

  /** A v1 path at `i` is one occurrence more than there are from any later position on. */
  lemma V1CountBeyond(u: Units, i: nat, j: nat)
    requires i < j <= |u| && StartsV1(u[i..])
    ensures V1Count(u[j..]) < V1Count(u)
  {
    V1CountOfSuffix(u, i);
    V1CountOfSuffix(u[i..], j - i);
    DropDrop(u, i, j - i);
  }

  predicate CleanAt(u: Units, k: nat) {
    k <= |u| && !StartsV1(u[k..])
  }

  lemma {:induction false} V1CountPastPrefix(p: Units, rest: Units)
    requires forall k :: 0 <= k < |p| ==> CleanAt(p + rest, k)
    ensures V1Count(p + rest) == V1Count(rest)
  {
    if p == [] {
      assert p + rest == rest;
    } else {
      var u, p' := p + rest, p[1..];
      assert CleanAt(u, 0) && u[0..] == u;
      assert u[1..] == p' + rest;
      forall k | 0 <= k < |p'| ensures CleanAt(p' + rest, k) {
        assert CleanAt(u, k + 1);
        assert (p' + rest)[k..] == u[k + 1..];
      }
      V1CountPastPrefix(p', rest);
    }
  }

  /** A v1 path does not start where one of its first units is missing. */
  lemma NoV1At(u: Units, k: nat, d: nat)
    requires d < 7 && k + d < |u| && u[k + d] != V1_POST[d]
    ensures CleanAt(u, k)
  {
    assert u[k..][d] == u[k + d];
    assert V1_POST[d] == V1_PROFILE[d];
  }

  /** At every position of a v2 prefix but the last, a unit shows that no v1 path starts there. */
  lemma PrefixUnit(v2: Units, k: nat) returns (d: nat)
    requires (v2 == V2_POST || v2 == V2_PROFILE) && k < |v2| - 1
    ensures d < 7 && k + d < |v2| - 1 && v2[k + d] != V1_POST[d]
  {
    d := if v2[k] != V1_POST[0] then 0 else if k == 0 then 6 else 1;
  }

  /** No v1 path starts inside a new prefix, except possibly on its last slash. */
  lemma NewPrefixIsClean(v2: Units, rest: Units, k: nat)
    requires (v2 == V2_POST || v2 == V2_PROFILE) && k < |v2| - 1
    ensures CleanAt(v2[..|v2| - 1] + rest, k)
  {
    var d := PrefixUnit(v2, k);
    NoV1At(v2[..|v2| - 1] + rest, k, d);
  }

  /** What is left of a v1 URL after its first v1 path, from the path's last slash on. */
  function Residue(u: Units): Units {
    var post, profile := IndexOf(u, V1_POST), IndexOf(u, V1_PROFILE);
    if post >= 0 then u[post + |V1_POST| - 1..]
    else if profile >= 0 then u[profile + |V1_PROFILE| - 1..]
    else []
  }

  /** The v1 path `v1` starts at `i`, `v2` replaces it, and the residue starts on its last slash. */
  predicate IsRewrite(u: Units, v1: Units, v2: Units, i: nat) {
    && ((v1 == V1_POST && v2 == V2_POST) || (v1 == V1_PROFILE && v2 == V2_PROFILE))
    && At(u, v1, i) && Preview(u) == v2 + u[i + |v1|..] && Residue(u) == u[i + |v1| - 1..]
  }

  lemma PostIsRewrite(u: Units)
    requires IndexOf(u, V1_POST) >= 0
    ensures IsRewrite(u, V1_POST, V2_POST, IndexOf(u, V1_POST))
  {
  }

  lemma ProfileIsRewrite(u: Units)
    requires IndexOf(u, V1_POST) < 0 <= IndexOf(u, V1_PROFILE)
    ensures IsRewrite(u, V1_PROFILE, V2_PROFILE, IndexOf(u, V1_PROFILE))
  {
  }

  /** The prefix that replaces the first v1 path, and where that path is. */
  lemma RewriteIs(u: Units) returns (v1: Units, v2: Units, i: nat)
    requires IsV1(u)
    ensures IsRewrite(u, v1, v2, i)
  {
    if IndexOf(u, V1_POST) >= 0 {
      PostIsRewrite(u);
      v1, v2, i := V1_POST, V2_POST, IndexOf(u, V1_POST);
    } else {
      ProfileIsRewrite(u);
      v1, v2, i := V1_PROFILE, V2_PROFILE, IndexOf(u, V1_PROFILE);
    }
  }

  /** The rewritten URL is a new prefix, less its last slash, and the residue. */
  lemma PreviewIsSpliced(u: Units) returns (v2: Units)
    requires IsV1(u)
    ensures (v2 == V2_POST || v2 == V2_PROFILE) && Preview(u) == v2[..|v2| - 1] + Residue(u)
  {
    var v1, w2, i := RewriteIs(u);
    SplicedAt(u, v1, w2, i);
    v2 := w2;
  }

  lemma ResidueHasLess(u: Units)
    requires IsV1(u)
    ensures V1Count(Residue(u)) < V1Count(u)
  {
    var v1, v2, i := RewriteIs(u);
    FoundStartsV1(u, v1, i);
    V1CountBeyond(u, i, i + |v1| - 1);
  }

  lemma FoundStartsV1(u: Units, v1: Units, i: nat)
    requires (v1 == V1_POST || v1 == V1_PROFILE) && At(u, v1, i)
    ensures StartsV1(u[i..])
  {
    assert u[i..][..|v1|] == v1;
  }

  /** The rewritten URL has exactly the v1 paths that start in the residue, which are fewer. */
  lemma RewriteReduces(u: Units)
    requires IsV1(u)
    ensures V1Count(Preview(u)) == V1Count(Residue(u)) < V1Count(u)
  {
    var v2 := PreviewIsSpliced(u);
    NewPrefixAddsNone(v2, Residue(u));
    ResidueHasLess(u);
  }

  lemma NewPrefixAddsNone(v2: Units, rest: Units)
    requires v2 == V2_POST || v2 == V2_PROFILE
    ensures V1Count(v2[..|v2| - 1] + rest) == V1Count(rest)
  {
    var p := v2[..|v2| - 1];
    forall k | 0 <= k < |p| ensures CleanAt(p + rest, k) { NewPrefixIsClean(v2, rest, k); }
    V1CountPastPrefix(p, rest);
  }

  /** The old path's last slash serves as the new prefix's. */
  lemma SplicedAt(u: Units, v1: Units, v2: Units, i: nat)
    requires (v1 == V1_POST && v2 == V2_POST) || (v1 == V1_PROFILE && v2 == V2_PROFILE)
    requires At(u, v1, i)
    ensures v2 + u[i + |v1|..] == v2[..|v2| - 1] + u[i + |v1| - 1..]
  {
    assert u[i + |v1| - 1] == u[i..i + |v1|][|v1| - 1] == v2[|v2| - 1];
  }

  /** A relative path without a v1 path is left alone. */
  lemma RelativeIsFixed(u: Units)
    requires V2_STORAGE <= u && !IsV1(u)
    ensures Preview(u) == u
  {
    assert u[0] == V2_STORAGE[0];
  }

  /**
   * Rewriting twice is the same as rewriting once exactly if no v1 path starts in what
   * the first rewrite keeps; in particular if the URL has at most one.
   */
  lemma IdempotentIff(u: Units)
    ensures Preview(Preview(u)) == Preview(u) <==> !IsV1(Residue(u))
    ensures V1Count(u) <= 1 ==> Preview(Preview(u)) == Preview(u)
  {
    var once := Preview(u);
    V1CountIff(u);
    V1CountIff(once);
    V1CountIff(Residue(u));
    if IsV1(u) {
      RewriteReduces(u);
      RewrittenIsRelative(u);
      if IsV1(once) { RewrittenDiffers(once); } else { RelativeIsFixed(once); }
    } else if ToRelativePath(u).1 {
      RewrittenIsRelative(u);
      V1CountOfSuffix(u, IndexOf(u, V2_STORAGE));
      RelativeIsFixed(once);
    }
  }

  /** The URL after `n` runs of the migration. */
  function Runs(u: Units, n: nat): Units {
    if n == 0 then u else Preview(Runs(u, n - 1))
  }

  /** One run takes a v1 path off a URL that has one, adds none, and makes an altered URL relative. */
  predicate OneRun(v: Units, w: Units) {
    && (V1Count(w) < V1Count(v) || V1Count(w) == V1Count(v) == 0)
    && (V2_STORAGE <= w || w == v)
  }

  lemma PreviewIsOneRun(v: Units)
    ensures OneRun(v, Preview(v))
  {
    V1CountIff(v);
    if IsV1(v) {
      RewriteReduces(v);
      RewrittenIsRelative(v);
    } else if ToRelativePath(v).1 {
      RewrittenIsRelative(v);
      AbsoluteOnly(v);
    }
  }

  lemma AbsoluteOnly(v: Units)
    requires !IsV1(v) && ToRelativePath(v).1
    ensures V1Count(Preview(v)) == V1Count(v) == 0
  {
    V1CountIff(v);
    V1CountOfSuffix(v, IndexOf(v, V2_STORAGE));
  }

  /** What `n` runs have made of `u`. */
  predicate Reduced(u: Units, n: nat, v: Units) {
    && V1Count(v) <= (if V1Count(u) > n then V1Count(u) - n else 0)
    && (n > 0 ==> V2_STORAGE <= v || (v == u && Preview(u) == u))
  }

  lemma OneMoreRun(u: Units, n: nat, v: Units, w: Units)
    requires Reduced(u, n, v) && OneRun(v, w) && w == Preview(v) && (n == 0 ==> v == u)
    ensures Reduced(u, n + 1, w)
  {
    RelativeStays(v);
  }

  lemma RelativeStays(v: Units)
    ensures V2_STORAGE <= v ==> V2_STORAGE <= Preview(v)
  {
    if ToRelativePath(v).1 { RewrittenIsRelative(v); }
  }

  lemma {:induction false} RunsReduce(u: Units, n: nat)
    ensures Reduced(u, n, Runs(u, n))
  {
    if n > 0 {
      RunsReduce(u, n - 1);
      PreviewIsOneRun(Runs(u, n - 1));
      OneMoreRun(u, n - 1, Runs(u, n - 1), Runs(u, n));
    }
  }

  /** Repeated migration settles after as many runs as the URL has v1 paths, and at least one. */
  lemma RunsSettle(u: Units, n: nat)
    requires n >= 1 && n >= V1Count(u)
    ensures Preview(Runs(u, n)) == Runs(u, n) && !IsV1(Runs(u, n))
  {
    RunsReduce(u, n);
    var last := Runs(u, n);
    V1CountIff(last);
    if V2_STORAGE <= last { RelativeIsFixed(last); }
  }

  lemma StartsAtZero(u: Units, p: Units)
    requires p != [] && p <= u
    ensures IndexOf(u, p) == 0
  {
  }

  lemma LastAndAgain(p: Units)
    requires p != []
    ensures (p + p)[|p| - 1..] == [p[|p| - 1]] + p
  {
  }

  lemma AtEnd(x: Units, p: Units)
    ensures At(x + p, p, |x|)
  {
  }

  lemma ResidueOfFirst(u: Units)
    requires IndexOf(u, V1_POST) == 0
    ensures Residue(u) == u[|V1_POST| - 1..]
  {
  }

  lemma EndsInV1(x: Units)
    ensures IsV1(x + V1_POST)
  {
    AtEnd(x, V1_POST);
    IndexIsFirst(x + V1_POST, V1_POST, |x|);
  }

  /** A URL on which the second run is not idle. */
  lemma NotIdempotent() returns (u: Units)
    ensures V1Count(u) >= 2 && Preview(Preview(u)) != Preview(u)
  {
    u := V1_POST + V1_POST;
    StartsAtZero(u, V1_POST);
    ResidueOfFirst(u);
    LastAndAgain(V1_POST);
    EndsInV1([V1_POST[|V1_POST| - 1]]);
    IdempotentIff(u);
  }
}
