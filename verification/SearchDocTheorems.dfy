/**
 * What Build and Apply promise.
 */
module SearchDocTheorems {
  import opened GoStrings
  import opened Json
  import opened SearchDoc
  import T = Text

  // ------------------------------------------------------------ the blocks and their texts

  /** `at` lists, in order, exactly the positions of the entries that are objects. */
  predicate ObjectsAt(raw: seq<Json>, at: seq<nat>, blocks: seq<Doc>) {
    && |at| == |blocks|
    && (forall k :: 0 <= k < |at| ==> at[k] < |raw| && raw[at[k]] == Object(blocks[k]))
    && (forall j, k :: 0 <= j < k < |at| ==> at[j] < at[k])
    && (forall p :: 0 <= p < |raw| && raw[p].Object? ==> p in at)
  }

  lemma CastStep(init: seq<Json>, entry: Json)
    ensures CastBlocks(init + [entry]) == CastBlocks(init) + (if entry.Object? then [entry.fields] else [])
  {
    assert (init + [entry])[..|init|] == init;
  }

  lemma ObjectAppended(init: seq<Json>, entry: Json, at: seq<nat>, blocks: seq<Doc>)
    requires ObjectsAt(init, at, blocks) && entry.Object?
    ensures ObjectsAt(init + [entry], at + [|init|], blocks + [entry.fields])
  {
    var raw, at' := init + [entry], at + [|init|];
    forall p | 0 <= p < |raw| && raw[p].Object? ensures p in at' {
      if p < |init| {
        assert init[p] == raw[p];
        assert p in at;
      } else {
        assert at'[|at|] == p;
      }
    }
  }

  lemma OtherAppended(init: seq<Json>, entry: Json, at: seq<nat>, blocks: seq<Doc>)
    requires ObjectsAt(init, at, blocks) && !entry.Object?
    ensures ObjectsAt(init + [entry], at, blocks)
  {
    var raw := init + [entry];
    forall p | 0 <= p < |raw| && raw[p].Object? ensures p in at { assert init[p] == raw[p]; }
  }

  lemma {:induction false} CastSpec(raw: seq<Json>) returns (at: seq<nat>)
    ensures ObjectsAt(raw, at, CastBlocks(raw))
    decreases |raw|
  {
    at := [];
    if raw != [] {
      var init, entry := raw[..|raw| - 1], raw[|raw| - 1];
      assert raw == init + [entry];
      CastStep(init, entry);
      at := CastSpec(init);
      if entry.Object? {
        ObjectAppended(init, entry, at, CastBlocks(init));
        at := at + [|init|];
      } else {
        OtherAppended(init, entry, at, CastBlocks(init));
      }
    }
  }

  lemma {:induction false} NoFieldText(data: Doc, from: nat)
    requires from <= |BLOCK_TEXT_FIELDS|
    requires forall k :: from <= k < |BLOCK_TEXT_FIELDS| ==> FieldText(data, BLOCK_TEXT_FIELDS[k]) == []
    ensures FirstField(data, from) == []
    decreases |BLOCK_TEXT_FIELDS| - from
  {
    if from < |BLOCK_TEXT_FIELDS| { NoFieldText(data, from + 1); }
  }

  /** Items are joined by single spaces, wherever the list is cut in two. */
  lemma {:induction false} JoinItemsSplits(a: seq<Json>, b: seq<Json>)
    requires a != [] && b != []
    ensures JoinItems(a + b) == JoinItems(a) + [T.SPACE] + JoinItems(b)
    decreases |b|
  {
    var c, item := b[..|b| - 1], b[|b| - 1];
    assert b == c + [item];
    T.Assoc(a, c, [item]);
    JoinItemsStep(a + c, item);
    JoinItemsStep(c, item);
    if c == [] {
      assert a + c == a;
    } else {
      JoinItemsSplits(a, c);
      Regroup(JoinItems(a), [T.SPACE], JoinItems(c), ItemText(item));
    }
  }

  lemma JoinItemsStep(init: seq<Json>, item: Json)
    ensures JoinItems(init + [item]) ==
            if init == [] then ItemText(item) else JoinItems(init) + [T.SPACE] + ItemText(item)
  {
    assert (init + [item])[..|init|] == init;
    assert [] + [] + ItemText(item) == ItemText(item);
  }

  lemma Regroup<T>(a: seq<T>, s: seq<T>, b: seq<T>, c: seq<T>)
    ensures (a + s + b) + s + c == a + s + (b + s + c)
  {
  }

  /** The texts with one separator between each two. */
  function Join(texts: seq<Str>, sep: byte): Str {
    if texts == [] then []
    else if |texts| == 1 then texts[0]
    else texts[0] + [sep] + Join(texts[1..], sep)
  }

  function ItemTexts(items: seq<Json>): seq<Str> {
    seq(|items|, i requires 0 <= i < |items| => ItemText(items[i]))
  }

  lemma {:induction false} JoinItemsIsJoin(items: seq<Json>)
    ensures JoinItems(items) == Join(ItemTexts(items), T.SPACE)
    decreases |items|
  {
    if items != [] {
      var item, rest := items[0], items[1..];
      OneItem(item);
      assert items == [item] + rest;
      ItemTextsStep(item, rest);
      if rest == [] {
        assert Join([ItemText(item)], T.SPACE) == ItemText(item);
      } else {
        JoinItemsSplits([item], rest);
        JoinItemsIsJoin(rest);
        JoinStep(ItemText(item), ItemTexts(rest), T.SPACE);
      }
    }
  }

  lemma ItemTextsStep(item: Json, rest: seq<Json>)
    ensures ItemTexts([item] + rest) == [ItemText(item)] + ItemTexts(rest)
    ensures ItemTexts([item]) == [ItemText(item)]
  {
  }

  lemma OneItem(item: Json)
    ensures JoinItems([item]) == ItemText(item)
  {
    assert [item][..0] == [];
    assert [] + [] + ItemText(item) == ItemText(item);
  }

  lemma JoinStep(text: Str, rest: seq<Str>, sep: byte)
    requires rest != []
    ensures Join([text] + rest, sep) == text + [sep] + Join(rest, sep)
  {
    assert ([text] + rest)[1..] == rest;
  }

  /**
   * Without any prose key the text is what the items say, each stripped of tags, joined by
   * single spaces and trimmed; so a block without prose keys and items has none.
   */
  lemma BlockTextItems(data: Doc)
    requires forall k :: 0 <= k < |BLOCK_TEXT_FIELDS| ==> FieldText(data, BLOCK_TEXT_FIELDS[k]) == []
    ensures HasArray(data, "items") ==> BlockText(data) == T.TrimSpace(Join(ItemTexts(data["items"].items), T.SPACE))
    ensures !HasArray(data, "items") || data["items"].items == [] ==> BlockText(data) == []
  {
    NoFieldText(data, 0);
    if HasArray(data, "items") { JoinItemsIsJoin(data["items"].items); }
    assert T.TrimSpace([]) == [];
  }

  // ------------------------------------------------------------ the body

  /** The non-empty texts of the blocks, in document order. */
  function Texts(blocks: seq<Doc>): seq<Str> {
    if blocks == [] then []
    else (if Prose(blocks[0]) == [] then [] else [Prose(blocks[0])]) + Texts(blocks[1..])
  }

  function JoinLines(texts: seq<Str>): Str {
    Join(texts, T.NEWLINE)
  }

  /** The buffer of Build if its loop never stopped early. */
  function Whole(blocks: seq<Doc>, buf: Str): Str {
    if blocks == [] then buf
    else Whole(blocks[1..], if Prose(blocks[0]) == [] then buf else Append(buf, Prose(blocks[0])))
  }

  function Onto(buf: Str, texts: seq<Str>): Str {
    if buf == [] then JoinLines(texts)
    else if texts == [] then buf
    else buf + [T.NEWLINE] + JoinLines(texts)
  }

  lemma OntoStep(buf: Str, text: Str, rest: seq<Str>)
    requires text != []
    ensures Onto(buf, [text] + rest) == Onto(Append(buf, text), rest)
  {
    var texts := [text] + rest;
    assert texts[1..] == rest;
    if rest != [] {
      assert JoinLines(texts) == text + [T.NEWLINE] + JoinLines(rest);
      assert buf + [T.NEWLINE] + (text + [T.NEWLINE] + JoinLines(rest))
          == (buf + [T.NEWLINE] + text) + [T.NEWLINE] + JoinLines(rest);
    }
  }

  lemma {:induction false} WholeIsJoin(blocks: seq<Doc>, buf: Str)
    ensures Whole(blocks, buf) == Onto(buf, Texts(blocks))
    decreases |blocks|
  {
    if blocks != [] {
      var text := Prose(blocks[0]);
      var rest := Texts(blocks[1..]);
      if text == [] {
        WholeIsJoin(blocks[1..], buf);
        assert Texts(blocks) == rest;
      } else {
        WholeIsJoin(blocks[1..], Append(buf, text));
        OntoStep(buf, text, rest);
      }
    }
  }

  /** Once something is in the buffer, more text only comes after a newline. */
  lemma {:induction false} WholeExtends(blocks: seq<Doc>, buf: Str)
    requires buf != []
    ensures buf <= Whole(blocks, buf) && Boundary(Whole(blocks, buf)[|buf|..])
    decreases |blocks|
  {
    if blocks != [] {
      var text := Prose(blocks[0]);
      if text == [] {
        WholeExtends(blocks[1..], buf);
      } else {
        var buf' := Append(buf, text);
        WholeExtends(blocks[1..], buf');
        assert buf'[|buf|] == T.NEWLINE;
        assert Whole(blocks, buf)[..|buf'|] == buf';
        assert Whole(blocks, buf)[|buf|] == buf'[|buf|];
      }
    }
  }

  /** Stopping early leaves a long prefix of the whole text, cut before a newline. */
  lemma {:induction false} ScanIsPrefix(blocks: seq<Doc>, title: Str, buf: Str)
    ensures var b, w := Scan(blocks, title, buf).1, Whole(blocks, buf);
      b == w || (|b| > BODY_MAX_BYTES && b <= w && Boundary(w[|b|..]))
    decreases |blocks|
  {
    if blocks != [] {
      var text := Prose(blocks[0]);
      if text == [] {
        ScanIsPrefix(blocks[1..], title, buf);
      } else {
        var title' := if title == [] && IsHeader(blocks[0]) then text else title;
        var buf' := Append(buf, text);
        if |buf'| > BODY_MAX_BYTES {
          WholeExtends(blocks[1..], buf');
        } else {
          ScanIsPrefix(blocks[1..], title', buf');
        }
      }
    }
  }

  /** The early exit of Build loses nothing: the body is the truncated join of all the texts. */
  lemma BodyIsLossless(doc: Doc, lower: Lower)
    ensures Derive(doc, lower).body == T.Truncate(JoinLines(Texts(Blocks(doc))), 200_000)
  {
    var blocks := Blocks(doc);
    var b, w := Scan(blocks, [], []).1, Whole(blocks, []);
    ScanIsPrefix(blocks, [], []);
    WholeIsJoin(blocks, []);
    if b != w {
      DecodeBounds(b);
      assert w == b + w[|b|..];
      T.TruncateIgnoresRest(b, w[|b|..], BODY_MAX_RUNES);
    }
  }

  // ------------------------------------------------------------ the title

  predicate IsTitle(block: Doc) {
    IsHeader(block) && Prose(block) != []
  }

  /** The text of the first non-empty header. */
  function FirstHeader(blocks: seq<Doc>): Str {
    if blocks == [] then [] else if IsTitle(blocks[0]) then Prose(blocks[0]) else FirstHeader(blocks[1..])
  }

  /** The blocks before the first non-empty header. */
  function BeforeHeader(blocks: seq<Doc>): seq<Doc> {
    if blocks == [] || IsTitle(blocks[0]) then [] else [blocks[0]] + BeforeHeader(blocks[1..])
  }

  lemma {:induction false} TitleStays(blocks: seq<Doc>, title: Str, buf: Str)
    requires title != []
    ensures Scan(blocks, title, buf).0 == title
    decreases |blocks|
  {
    if blocks != [] {
      var text := Prose(blocks[0]);
      if text == [] { TitleStays(blocks[1..], title, buf); }
      else if |Append(buf, text)| <= BODY_MAX_BYTES { TitleStays(blocks[1..], title, Append(buf, text)); }
    }
  }

  lemma {:induction false} ScanTitle(blocks: seq<Doc>, buf: Str)
    requires |buf| <= BODY_MAX_BYTES
    ensures Scan(blocks, [], buf).0 ==
            if |Whole(BeforeHeader(blocks), buf)| <= BODY_MAX_BYTES then FirstHeader(blocks) else []
    decreases |blocks|
  {
    if blocks != [] {
      var text := Prose(blocks[0]);
      if IsTitle(blocks[0]) {
        if |Append(buf, text)| <= BODY_MAX_BYTES { TitleStays(blocks[1..], text, Append(buf, text)); }
      } else {
        var rest := BeforeHeader(blocks[1..]);
        assert BeforeHeader(blocks)[1..] == rest;
        if text == [] {
          ScanTitle(blocks[1..], buf);
        } else {
          var buf' := Append(buf, text);
          if |buf'| > BODY_MAX_BYTES {
            WholeExtends(rest, buf');
          } else {
            ScanTitle(blocks[1..], buf');
          }
        }
      }
    }
  }

  lemma {:induction false} NoHeaderNoTitle(blocks: seq<Doc>)
    ensures FirstHeader(blocks) == [] <==> BeforeHeader(blocks) == blocks
  {
    if blocks != [] && !IsTitle(blocks[0]) {
      NoHeaderNoTitle(blocks[1..]);
      assert BeforeHeader(blocks)[1..] == BeforeHeader(blocks[1..]);
    }
  }

  /**
   * The title is the first non-empty header of the document exactly if there is none, or
   * the texts before it fit the byte cap; otherwise the loop stops first and the title is empty.
   */
  lemma TitleIff(doc: Doc, lower: Lower)
    ensures var blocks, title := Blocks(doc), Derive(doc, lower).title;
      && (title == FirstHeader(blocks) <==>
            FirstHeader(blocks) == [] || |JoinLines(Texts(BeforeHeader(blocks)))| <= 800_000)
      && (title == FirstHeader(blocks) || title == [])
  {
    ScanTitle(Blocks(doc), []);
    WholeIsJoin(BeforeHeader(Blocks(doc)), []);
  }

  /** Printable ASCII without '<' passes through trimming and stripping unchanged. */
  lemma PlainText(s: Str)
    requires s != [] && forall k :: 0 <= k < |s| ==> 0x21 <= s[k] <= 0x7E && s[k] != T.LT
    ensures T.StripHtml(T.TrimSpace(s)) == s
  {
    PlainTrims(s);
    assert T.LT !in s;
  }

  lemma PlainTrims(s: Str)
    requires s != [] && forall k :: 0 <= k < |s| ==> 0x21 <= s[k] <= 0x7E
    ensures T.TrimSpace(s) == s
  {
    NothingToTrim(s, s[0], s[|s| - 1]);
  }

  lemma NothingToTrim(s: Str, first: byte, last: byte)
    requires s != [] && s[0] == first && s[|s| - 1] == last && 0x21 <= first <= 0x7E && 0x21 <= last <= 0x7E
    ensures T.TrimSpace(s) == s
  {
    PlainFirst(s);
    assert T.TrimLeft(s) == s;
    PlainLast(s);
    assert T.TrimRight(s) == s;
  }

  lemma PlainFirst(s: Str)
    requires s != [] && s[0] < 0x80
    ensures First(s) == s[0]
  {
  }

  lemma PlainLast(s: Str)
    requires s != [] && s[|s| - 1] < 0x80
    ensures T.Last(s) == s[|s| - 1]
  {
    AsciiEnds(s);
    PlainFirst(s[|s| - 1..]);
  }

  lemma AsciiEnds(s: Str)
    requires s != [] && s[|s| - 1] < 0x80
    ensures T.LastWidth(s) == 1
  {
    AsciiStandsAlone(s, 2);
    AsciiStandsAlone(s, 3);
    AsciiStandsAlone(s, 4);
  }

  lemma AsciiStandsAlone(s: Str, k: nat)
    requires k >= 2 && s != [] && s[|s| - 1] < 0x80
    ensures !T.EndsWide(s, k)
  {
    if k <= |s| {
      var t := s[|s| - k..];
      assert t[k - 1] == s[|s| - 1];
    }
  }

  function Block(blockType: Str, text: Str): Doc {
    map["type" := Text(blockType), "data" := Object(map["text" := Text(text)])]
  }

  lemma ProseOfBlock(blockType: Str, text: Str)
    requires text != [] && forall k :: 0 <= k < |text| ==> 0x21 <= text[k] <= 0x7E && text[k] != T.LT
    ensures Prose(Block(blockType, text)) == text
  {
    PlainText(text);
    var data: Doc := map["text" := Text(text)];
    assert BLOCK_TEXT_FIELDS[0] == "text";
    assert FieldText(data, BLOCK_TEXT_FIELDS[0]) == text;
    assert FirstField(data, 0) == text;
  }

  function TwoBlocks(a: Doc, b: Doc): Doc {
    map["blocks" := Array([Object(a), Object(b)])]
  }

  lemma BlocksOfTwo(a: Doc, b: Doc)
    ensures Blocks(TwoBlocks(a, b)) == [a, b]
  {
    var raw := [Object(a), Object(b)];
    assert raw[..1] == [Object(a)] && raw[..1][..0] == [];
    assert CastBlocks(raw[..1]) == [a];
  }

  /** A title block after one block of prose. */
  lemma HeaderSecond(a: Doc, b: Doc)
    requires !IsTitle(a) && Prose(a) != [] && IsTitle(b)
    ensures FirstHeader([a, b]) == Prose(b)
    ensures JoinLines(Texts(BeforeHeader([a, b]))) == Prose(a)
  {
    var blocks := [a, b];
    assert blocks[1..] == [b];
    assert BeforeHeader(blocks[1..]) == [];
    assert BeforeHeader(blocks) == [a];
    assert [a][1..] == [];
    assert Texts([a]) == [Prose(a)];
  }

  lemma HeaderBlock(blockType: Str, text: Str)
    ensures |blockType| != |HEADER| ==> !IsHeader(Block(blockType, text))
    ensures blockType == HEADER ==> IsHeader(Block(blockType, text))
  {
    assert forall k :: 0 <= k < |HEADER| ==> LowerAscii(HEADER[k]) == HEADER[k];
  }

  /** A document that has a header but gets no title: the paragraph before it fills the cap. */
  lemma TitleLost(lower: Lower) returns (doc: Doc)
    ensures FirstHeader(Blocks(doc)) == [0x54] && Derive(doc, lower).title == []
  {
    var long: Str := seq(BODY_MAX_BYTES + 1, _ => 0x61);
    var paragraph, header := Block([0x70], long), Block(HEADER, [0x54]);
    doc := TwoBlocks(paragraph, header);
    ProseOfBlock([0x70], long);
    ProseOfBlock(HEADER, [0x54]);
    HeaderBlock([0x70], long);
    HeaderBlock(HEADER, [0x54]);
    BlocksOfTwo(paragraph, header);
    HeaderSecond(paragraph, header);
    TitleIff(doc, lower);
  }

  // ------------------------------------------------------------ the tags

  /** Entry `p` is the first that stands for `tag`. */
  predicate FirstAt(raw: seq<Json>, lower: Lower, p: nat, tag: Str) {
    && p < |raw| && TagOf(raw[p], lower) == tag
    && forall q :: 0 <= q < p ==> TagOf(raw[q], lower) != tag
  }

  lemma FirstAtExtends(raw: seq<Json>, lower: Lower, n: nat, p: nat, tag: Str)
    requires n <= |raw| && FirstAt(raw[..n], lower, p, tag)
    ensures FirstAt(raw, lower, p, tag)
  {
    assert forall q :: 0 <= q <= p ==> raw[..n][q] == raw[q];
  }

  lemma {:induction false} TagsCover(raw: seq<Json>, lower: Lower, p: nat)
    requires p < |raw| && TagOf(raw[p], lower) != []
    ensures TagOf(raw[p], lower) in Tags(raw, lower)
    decreases |raw|
  {
    if p < |raw| - 1 { TagsCover(raw[..|raw| - 1], lower, p); }
  }

  /**
   * `at[k]` is the first entry that stands for tag k.  So the tags are distinct, non-empty,
   * in order of first occurrence, and every entry that stands for a tag is represented.
   */
  lemma TagsSpec(raw: seq<Json>, lower: Lower) returns (at: seq<nat>)
    ensures |at| == |Tags(raw, lower)|
    ensures forall k :: 0 <= k < |at| ==> FirstAt(raw, lower, at[k], Tags(raw, lower)[k]) && Tags(raw, lower)[k] != []
    ensures forall j, k :: 0 <= j < k < |at| ==> at[j] < at[k]
    ensures forall p :: 0 <= p < |raw| && TagOf(raw[p], lower) != [] ==> TagOf(raw[p], lower) in Tags(raw, lower)
  {
    at := TagPositions(raw, lower);
    forall p | 0 <= p < |raw| && TagOf(raw[p], lower) != [] ensures TagOf(raw[p], lower) in Tags(raw, lower) {
      TagsCover(raw, lower, p);
    }
  }

  /** `at` lists, in order, the first entries that stand for the tags. */
  predicate PositionsOf(raw: seq<Json>, lower: Lower, at: seq<nat>, tags: seq<Str>) {
    && |at| == |tags|
    && (forall k :: 0 <= k < |at| ==> FirstAt(raw, lower, at[k], tags[k]) && tags[k] != [])
    && (forall j, k :: 0 <= j < k < |at| ==> at[j] < at[k])
  }

  lemma PositionsExtend(raw: seq<Json>, lower: Lower, n: nat, at: seq<nat>, tags: seq<Str>)
    requires n <= |raw| && PositionsOf(raw[..n], lower, at, tags)
    ensures PositionsOf(raw, lower, at, tags) && forall k :: 0 <= k < |at| ==> at[k] < n
  {
    forall k | 0 <= k < |at| ensures FirstAt(raw, lower, at[k], tags[k]) {
      FirstAtExtends(raw, lower, n, at[k], tags[k]);
    }
  }

  lemma PositionsAppend(raw: seq<Json>, lower: Lower, n: nat, at: seq<nat>, tags: seq<Str>, tag: Str)
    requires PositionsOf(raw, lower, at, tags) && forall k :: 0 <= k < |at| ==> at[k] < n
    requires FirstAt(raw, lower, n, tag) && tag != []
    ensures PositionsOf(raw, lower, at + [n], tags + [tag])
  {
    var at', tags' := at + [n], tags + [tag];
    forall k | 0 <= k < |at'| ensures FirstAt(raw, lower, at'[k], tags'[k]) && tags'[k] != [] {
      if k < |at| { assert at'[k] == at[k] && tags'[k] == tags[k]; }
    }
  }

  lemma {:induction false} TagPositions(raw: seq<Json>, lower: Lower) returns (at: seq<nat>)
    ensures PositionsOf(raw, lower, at, Tags(raw, lower))
    decreases |raw|
  {
    at := [];
    if raw != [] {
      var n := |raw| - 1;
      at := TagPositions(raw[..n], lower);
      var found, tag := Tags(raw[..n], lower), TagOf(raw[n], lower);
      PositionsExtend(raw, lower, n, at, found);
      if tag != [] && tag !in found {
        LastIsFirst(raw, lower);
        PositionsAppend(raw, lower, n, at, found, tag);
        at := at + [n];
      }
    }
  }

  lemma LastIsFirst(raw: seq<Json>, lower: Lower)
    requires raw != []
    ensures var tag := TagOf(raw[|raw| - 1], lower);
      tag != [] && tag !in Tags(raw[..|raw| - 1], lower) ==> FirstAt(raw, lower, |raw| - 1, tag)
  {
    var n := |raw| - 1;
    if TagOf(raw[n], lower) == [] || TagOf(raw[n], lower) in Tags(raw[..n], lower) { return; }
    forall q | 0 <= q < n ensures TagOf(raw[q], lower) != TagOf(raw[n], lower) {
      if TagOf(raw[q], lower) != [] {
        TagsCover(raw[..n], lower, q);
        assert raw[..n][q] == raw[q];
      }
    }
  }

  lemma TagsDistinct(raw: seq<Json>, lower: Lower)
    ensures forall j, k :: 0 <= j < k < |Tags(raw, lower)| ==> Tags(raw, lower)[j] != Tags(raw, lower)[k]
  {
    var at := TagsSpec(raw, lower);
    forall j, k | 0 <= j < k < |at| ensures Tags(raw, lower)[j] != Tags(raw, lower)[k] {
      assert FirstAt(raw, lower, at[j], Tags(raw, lower)[j]) && FirstAt(raw, lower, at[k], Tags(raw, lower)[k]);
    }
  }

  /** What strings.ToLower is required to do for Apply to be stable. */
  ghost predicate IsNormaliser(lower: Lower) {
    && (forall s :: Valid(s) ==> Valid(lower(s)))
    && (forall s :: Valid(s) ==> T.TrimSpace(lower(T.TrimSpace(lower(s)))) == T.TrimSpace(lower(s)))
  }

  function TextItems(ts: seq<Str>): seq<Json> {
    seq(|ts|, i requires 0 <= i < |ts| => Text(ts[i]))
  }

  lemma TagsStep(init: seq<Json>, entry: Json, lower: Lower)
    ensures var found, tag := Tags(init, lower), TagOf(entry, lower);
      Tags(init + [entry], lower) == if tag == [] || tag in found then found else found + [tag]
  {
    assert (init + [entry])[..|init|] == init;
  }

  /** Tag `k` of the list is one that normalising keeps. */
  predicate Kept(ts: seq<Str>, k: nat, lower: Lower) {
    k < |ts| && ts[k] != [] && Normalise(ts[k], lower) == ts[k]
  }

  /** Distinct normalised tags are their own tags. */
  lemma TagsOfTags(ts: seq<Str>, lower: Lower)
    requires forall k :: 0 <= k < |ts| ==> ts[k] != [] && Normalise(ts[k], lower) == ts[k]
    requires forall j, k :: 0 <= j < k < |ts| ==> ts[j] != ts[k]
    ensures Tags(TextItems(ts), lower) == ts
  {
    assert forall k :: 0 <= k < |ts| ==> Kept(ts, k, lower);
    TagsOfFirst(ts, lower, |ts|);
    assert ts[..|ts|] == ts;
  }

  lemma {:induction false} TagsOfFirst(ts: seq<Str>, lower: Lower, n: nat)
    requires n <= |ts| && forall k :: 0 <= k < n ==> Kept(ts, k, lower)
    requires forall j, k :: 0 <= j < k < n ==> ts[j] != ts[k]
    ensures Tags(TextItems(ts[..n]), lower) == ts[..n]
  {
    if n > 0 {
      TagsOfFirst(ts, lower, n - 1);
      assert Kept(ts, n - 1, lower);
      TakeOneMore(ts, n - 1);
      OneMoreTag(ts[..n - 1], ts[n - 1], lower);
    } else {
      assert TextItems(ts[..0]) == [];
    }
  }

  lemma TakeOneMore(ts: seq<Str>, n: nat)
    requires n < |ts| && forall j :: 0 <= j < n ==> ts[j] != ts[n]
    ensures ts[..n + 1] == ts[..n] + [ts[n]] && ts[n] !in ts[..n]
  {
  }

  lemma OneMoreTag(init: seq<Str>, last: Str, lower: Lower)
    requires Tags(TextItems(init), lower) == init && last !in init
    requires last != [] && Normalise(last, lower) == last
    ensures Tags(TextItems(init + [last]), lower) == init + [last]
  {
    TextItemsStep(init, last);
    TagsStep(TextItems(init), Text(last), lower);
  }

  lemma TextItemsStep(ts: seq<Str>, t: Str)
    ensures TextItems(ts + [t]) == TextItems(ts) + [Text(t)]
  {
  }
}
