/**
 * Apply: what it may change, and when applying it again changes nothing.
 */
module ApplyTheorems {
  import opened GoStrings
  import opened Json
  import opened SearchDoc
  import opened SearchDocTheorems
  import T = Text

  // ------------------------------------------------------------ derived fields are UTF-8

  lemma JoinValid(a: Str, sep: byte, b: Str)
    requires Valid(a) && Valid(b) && sep < 0x80
    ensures Valid(a + [sep] + b)
  {
    var t := [sep] + b;
    assert Width(t) == 1 && t[1..] == b;
    ValidConcat(a, t);
    assert a + [sep] + b == a + t;
  }

  lemma TrimAndStripValid(s: Str)
    requires Valid(s)
    ensures Valid(T.TrimSpace(s)) && Valid(T.StripHtml(s))
  {
    var x, y := T.TrimSpaceSplits(s);
    T.StripHtmlSpec(s);
  }

  lemma {:induction false} FieldValid(data: Doc, k: nat)
    requires k <= |BLOCK_TEXT_FIELDS| && DocFromJson(data)
    ensures Valid(FirstField(data, k))
    decreases |BLOCK_TEXT_FIELDS| - k
  {
    if k < |BLOCK_TEXT_FIELDS| {
      var key := BLOCK_TEXT_FIELDS[k];
      if HasText(data, key) {
        assert FromJson(data[key]);
        TrimAndStripValid(data[key].s);
        TrimAndStripValid(T.TrimSpace(data[key].s));
      }
      FieldValid(data, k + 1);
    }
  }

  lemma ItemValid(item: Json)
    requires FromJson(item)
    ensures Valid(ItemText(item))
  {
    match item
    case Text(s) => TrimAndStripValid(s);
    case Object(m) =>
      if HasText(m, "text") {
        assert FromJson(m["text"]);
        TrimAndStripValid(m["text"].s);
      } else if HasText(m, "content") {
        assert FromJson(m["content"]);
        TrimAndStripValid(m["content"].s);
      }
    case _ =>
  }

  lemma {:induction false} ItemsValid(items: seq<Json>)
    requires forall i :: 0 <= i < |items| ==> FromJson(items[i])
    ensures Valid(JoinItems(items))
    decreases |items|
  {
    if items != [] {
      var n := |items| - 1;
      ItemsValid(items[..n]);
      ItemValid(items[n]);
      if n > 0 {
        JoinValid(JoinItems(items[..n]), T.SPACE, ItemText(items[n]));
      } else {
        assert items[..n] == [];
        assert [] + [] + ItemText(items[n]) == ItemText(items[n]);
      }
    }
  }

  lemma ProseValid(block: Doc)
    requires DocFromJson(block)
    ensures Valid(Prose(block))
  {
    if HasObject(block, "data") {
      assert FromJson(block["data"]);
      var data := block["data"].fields;
      FieldValid(data, 0);
      if HasArray(data, "items") {
        assert FromJson(data["items"]);
        ItemsValid(data["items"].items);
        TrimAndStripValid(JoinItems(data["items"].items));
      }
    }
  }

  lemma {:induction false} CastFromJson(raw: seq<Json>)
    requires forall i :: 0 <= i < |raw| ==> FromJson(raw[i])
    ensures forall i :: 0 <= i < |CastBlocks(raw)| ==> DocFromJson(CastBlocks(raw)[i])
    decreases |raw|
  {
    if raw != [] {
      CastFromJson(raw[..|raw| - 1]);
      assert FromJson(raw[|raw| - 1]);
    }
  }

  lemma RawFromJson(doc: Doc)
    requires DocFromJson(doc)
    ensures forall i :: 0 <= i < |RawBlocks(doc)| ==> FromJson(RawBlocks(doc)[i])
    ensures forall i :: 0 <= i < |RawTags(doc)| ==> FromJson(RawTags(doc)[i])
    ensures forall i :: 0 <= i < |BlogTags(doc)| ==> FromJson(BlogTags(doc)[i])
  {
    if HasObject(doc, "blog") { assert FromJson(doc["blog"]); }
    if HasArray(doc, "blocks") { assert FromJson(doc["blocks"]); }
    if HasArray(doc, "tags") { assert FromJson(doc["tags"]); }
  }

  lemma {:induction false} ScanValid(blocks: seq<Doc>, title: Str, buf: Str)
    requires forall i :: 0 <= i < |blocks| ==> DocFromJson(blocks[i])
    requires Valid(title) && Valid(buf)
    ensures Valid(Scan(blocks, title, buf).0) && Valid(Scan(blocks, title, buf).1)
    decreases |blocks|
  {
    if blocks != [] {
      var text := Prose(blocks[0]);
      ProseValid(blocks[0]);
      JoinValid(buf, T.NEWLINE, text);
      if text == [] {
        ScanValid(blocks[1..], title, buf);
      } else {
        ScanValid(blocks[1..], if title == [] && IsHeader(blocks[0]) then text else title, Append(buf, text));
      }
    }
  }

  /** Every derived field of a document that came from JSON is UTF-8, and its tags are settled. */
  lemma DerivedValid(doc: Doc, lower: Lower)
    requires DocFromJson(doc) && IsNormaliser(lower)
    ensures var f := Derive(doc, lower);
      && Valid(f.title) && Valid(f.summary) && Valid(f.body)
      && (forall k :: 0 <= k < |f.tags| ==>
            Valid(f.tags[k]) && f.tags[k] != [] && Normalise(f.tags[k], lower) == f.tags[k])
  {
    RawFromJson(doc);
    CastFromJson(RawBlocks(doc));
    ScanValid(Blocks(doc), [], []);
    var buf := Scan(Blocks(doc), [], []).1;
    T.TruncateKeepsRunes(buf, BODY_MAX_RUNES);
    var a, b, p := T.SummaryShape(T.Truncate(buf, BODY_MAX_RUNES));
    TagsSettled(RawTags(doc), lower);
  }

  lemma TagsSettled(raw: seq<Json>, lower: Lower)
    requires forall i :: 0 <= i < |raw| ==> FromJson(raw[i])
    requires IsNormaliser(lower)
    ensures forall k :: 0 <= k < |Tags(raw, lower)| ==>
              var t := Tags(raw, lower)[k]; Valid(t) && t != [] && Normalise(t, lower) == t
  {
    var at := TagsSpec(raw, lower);
    forall k | 0 <= k < |at| ensures var t := Tags(raw, lower)[k]; Valid(t) && t != [] && Normalise(t, lower) == t {
      assert FirstAt(raw, lower, at[k], Tags(raw, lower)[k]);
      var entry := raw[at[k]];
      assert FromJson(entry);
      TrimAndStripValid(lower(entry.s));
    }
  }

  // ------------------------------------------------------------ what Apply changes

  const DERIVED_KEYS: set<string> := {"title", "summary", "body", "tags"}

  /** The value written under a key, if any. */
  function NewValue(f: Fields, key: string): seq<Json> {
    if key == "title" && f.title != [] then [Text(f.title)]
    else if key == "summary" && f.summary != [] then [Text(f.summary)]
    else if key == "body" && f.body != [] then [Text(f.body)]
    else if key == "tags" && f.tags != [] then [Strs(f.tags)]
    else []
  }

  lemma EnrichAt(doc: Doc, f: Fields, key: string)
    ensures key in Enrich(doc, f) <==> key in doc || NewValue(f, key) != []
    ensures key in Enrich(doc, f) ==>
              Enrich(doc, f)[key] == if NewValue(f, key) != [] then NewValue(f, key)[0] else doc[key]
    ensures key !in DERIVED_KEYS ==> NewValue(f, key) == []
  {
  }

  /**
   * No key is lost, none but the four derived ones is added or changed, and a derived
   * field that came out empty leaves its key as it was.
   */
  lemma ApplyTouchesOnlyDerived(doc: Doc, lower: Lower, key: string)
    ensures var f, out := Derive(doc, lower), Applied(doc, lower);
      && (key in doc ==> key in out)
      && (key in out && key !in doc ==> key in DERIVED_KEYS && NewValue(f, key) != [])
      && (key in doc && (key !in DERIVED_KEYS || NewValue(f, key) == []) ==> out[key] == doc[key])
  {
    EnrichAt(doc, Derive(doc, lower), key);
  }

  /** Under each of the four keys stands the derived field of that name, unless it came out empty. */
  lemma ApplyWrites(doc: Doc, lower: Lower)
    ensures var f, out := Derive(doc, lower), Applied(doc, lower);
      && (f.title != [] ==> "title" in out && out["title"] == Text(f.title))
      && (f.summary != [] ==> "summary" in out && out["summary"] == Text(f.summary))
      && (f.body != [] ==> "body" in out && out["body"] == Text(f.body))
      && (f.tags != [] ==> "tags" in out && out["tags"] == Strs(f.tags))
  {
    var f := Derive(doc, lower);
    EnrichAt(doc, f, "title");
    EnrichAt(doc, f, "summary");
    EnrichAt(doc, f, "body");
    EnrichAt(doc, f, "tags");
  }

  /** Fields are derived from `blocks`, `blog` and `tags` alone. */
  predicate SameSources(d: Doc, e: Doc) {
    && HasArray(d, "blocks") == HasArray(e, "blocks") && (HasArray(d, "blocks") ==> d["blocks"] == e["blocks"])
    && HasObject(d, "blog") == HasObject(e, "blog") && (HasObject(d, "blog") ==> d["blog"] == e["blog"])
  }

  lemma DerivedFromThree(d: Doc, e: Doc, lower: Lower)
    requires SameSources(d, e)
    ensures Derive(e, lower) == Derive(d, lower).(tags := Tags(RawTags(e), lower))
    ensures BlogTags(e) == BlogTags(d)
  {
  }

  // ------------------------------------------------------------ applying twice

  /** Fields that a JSON round trip does not change. */
  ghost predicate CleanFields(f: Fields) {
    && Valid(f.title) && Valid(f.summary) && Valid(f.body)
    && forall k :: 0 <= k < |f.tags| ==> Valid(f.tags[k])
  }

  /** The document as it is read back: like Enrich, but the tags are an array of strings. */
  function EnrichWire(doc: Doc, f: Fields): Doc {
    Put(Enrich(doc, f), "tags", Array(TextItems(f.tags)), f.tags != [])
  }

  lemma WireOfEnrich(doc: Doc, f: Fields)
    requires DocFromJson(doc) && CleanFields(f)
    ensures WireDoc(Enrich(doc, f)) == EnrichWire(doc, f)
  {
    var out := Enrich(doc, f);
    forall k | k in out ensures Wire(out[k]) == EnrichWire(doc, f)[k] {
      EnrichAt(doc, f, k);
      if NewValue(f, k) != [] { WireOfWritten(f, k); }
      if k in doc { WireFixes(doc[k]); }
    }
    EnrichAt(doc, f, "tags");
    assert EnrichWire(doc, f).Keys == out.Keys;
  }

  lemma WireOfWritten(f: Fields, key: string)
    requires CleanFields(f) && NewValue(f, key) != []
    ensures Wire(NewValue(f, key)[0]) == if key == "tags" then Array(TextItems(f.tags)) else NewValue(f, key)[0]
  {
    EncodeDecode(f.title);
    EncodeDecode(f.summary);
    EncodeDecode(f.body);
    forall i | 0 <= i < |f.tags| ensures TextOf(f.tags[i]) == TextItems(f.tags)[i] { EncodeDecode(f.tags[i]); }
  }

  lemma EnrichWireFromJson(doc: Doc, f: Fields)
    requires DocFromJson(doc) && CleanFields(f)
    ensures DocFromJson(EnrichWire(doc, f))
  {
    forall k | k in EnrichWire(doc, f) ensures FromJson(EnrichWire(doc, f)[k]) {
      EnrichAt(doc, f, k);
      assert forall i :: 0 <= i < |f.tags| ==> FromJson(TextItems(f.tags)[i]);
    }
  }

  /** The sources of the derived fields survive. */
  lemma SourcesSurvive(doc: Doc, f: Fields)
    ensures SameSources(doc, Enrich(doc, f)) && SameSources(doc, EnrichWire(doc, f))
    ensures RawTags(Enrich(doc, f)) == if f.tags == [] then RawTags(doc) else BlogTags(doc)
    ensures RawTags(EnrichWire(doc, f)) == if f.tags == [] then RawTags(doc) else TextItems(f.tags)
  {
    EnrichAt(doc, f, "blocks");
    EnrichAt(doc, f, "blog");
    EnrichAt(doc, f, "tags");
  }

  lemma EnrichWireTwice(doc: Doc, f: Fields)
    ensures EnrichWire(EnrichWire(doc, f), f) == EnrichWire(doc, f)
  {
    var e := EnrichWire(doc, f);
    forall k ensures k in EnrichWire(e, f) <==> k in e
             ensures k in e ==> EnrichWire(e, f)[k] == e[k]
    {
      EnrichAt(doc, f, k);
      EnrichAt(e, f, k);
    }
  }

  /** What a document becomes in an index: enriched, marshalled and read back. */
  function Stored(doc: Doc, lower: Lower): Doc {
    WireDoc(Applied(doc, lower))
  }

  lemma StoredIs(doc: Doc, lower: Lower, f: Fields)
    requires DocFromJson(doc) && IsNormaliser(lower) && f == Derive(doc, lower)
    ensures Stored(doc, lower) == EnrichWire(doc, f) && CleanFields(f)
  {
    DerivedValid(doc, lower);
    WireOfEnrich(doc, f);
  }

  /** A stored document yields the same fields again. */
  lemma StoredDerivesSame(doc: Doc, lower: Lower)
    requires DocFromJson(doc) && IsNormaliser(lower)
    ensures Derive(Stored(doc, lower), lower) == Derive(doc, lower)
  {
    var f := Derive(doc, lower);
    StoredIs(doc, lower, f);
    var e := EnrichWire(doc, f);
    SourcesSurvive(doc, f);
    DerivedFromThree(doc, e, lower);
    if f.tags != [] { TagsSettle(doc, lower); }
  }

  lemma TagsSettle(doc: Doc, lower: Lower)
    requires DocFromJson(doc) && IsNormaliser(lower)
    ensures Tags(TextItems(Derive(doc, lower).tags), lower) == Derive(doc, lower).tags
  {
    DerivedValid(doc, lower);
    TagsDistinct(RawTags(doc), lower);
    TagsOfTags(Derive(doc, lower).tags, lower);
  }

  /** Apply followed by a JSON round trip is idempotent, and again comes from JSON. */
  lemma ApplyIdempotent(doc: Doc, lower: Lower)
    requires DocFromJson(doc) && IsNormaliser(lower)
    ensures Stored(Stored(doc, lower), lower) == Stored(doc, lower)
    ensures DocFromJson(Stored(doc, lower))
  {
    var f := Derive(doc, lower);
    StoredIs(doc, lower, f);
    EnrichWireFromJson(doc, f);
    StoredDerivesSame(doc, lower);
    StoredIs(Stored(doc, lower), lower, f);
    EnrichWireTwice(doc, f);
  }

  lemma EnrichOver(doc: Doc, f: Fields, ts: seq<Str>)
    ensures Enrich(Enrich(doc, f), f.(tags := ts)) == Put(Enrich(doc, f), "tags", Strs(ts), ts != [])
  {
    var out := Enrich(doc, f);
    var g := f.(tags := ts);
    forall k ensures k in Enrich(out, g) <==> k in Put(out, "tags", Strs(ts), ts != [])
             ensures k in Enrich(out, g) ==> Enrich(out, g)[k] == Put(out, "tags", Strs(ts), ts != [])[k]
    {
      EnrichAt(doc, f, k);
      EnrichAt(out, g, k);
    }
  }

  /**
   * In memory, without the round trip, a second Apply no longer sees its own tags: it
   * leaves the document alone exactly if there were none, or `blog.tags` yields none or the same.
   */
  lemma ApplyTwiceInMemoryIff(doc: Doc, lower: Lower)
    ensures var f, again := Derive(doc, lower), Tags(BlogTags(doc), lower);
      Applied(Applied(doc, lower), lower) == Applied(doc, lower) <==> f.tags == [] || again == [] || again == f.tags
  {
    var f := Derive(doc, lower);
    var out := Enrich(doc, f);
    var again := Tags(BlogTags(doc), lower);
    SourcesSurvive(doc, f);
    DerivedFromThree(doc, out, lower);
    var second := Tags(RawTags(out), lower);
    assert second == if f.tags == [] then [] else again;
    EnrichOver(doc, f, second);
    EnrichAt(doc, f, "tags");
    assert Applied(out, lower) == Put(out, "tags", Strs(second), second != []);
    assert f.tags != [] ==> out["tags"] == Strs(f.tags);
  }

  /** A document whose tags change when Apply runs twice in memory. */
  lemma ApplyTwiceDiffers(lower: Lower) returns (doc: Doc)
    requires lower([0x61]) == [0x61] && lower([0x62]) == [0x62]
    ensures Applied(Applied(doc, lower), lower) != Applied(doc, lower)
  {
    var a, b := [0x61], [0x62];
    doc := TaggedTwice(a, b);
    PlainTag(a, lower);
    PlainTag(b, lower);
    TagsOfTaggedTwice(a, b);
    ApplyTwiceInMemoryIff(doc, lower);
  }

  function TaggedTwice(a: Str, b: Str): Doc {
    map["tags" := Array([Text(a)]), "blog" := Object(map["tags" := Array([Text(b)])])]
  }

  lemma TagsOfTaggedTwice(a: Str, b: Str)
    ensures RawTags(TaggedTwice(a, b)) == [Text(a)] && BlogTags(TaggedTwice(a, b)) == [Text(b)]
  {
  }

  lemma PlainTag(t: Str, lower: Lower)
    requires lower(t) == t && |t| == 1 && 0x61 <= t[0] <= 0x7A
    ensures Tags([Text(t)], lower) == [t]
  {
    PlainTrims(t);
    TagsStep([], Text(t), lower);
    assert [] + [Text(t)] == [Text(t)];
  }

  // ------------------------------------------------------------ a normaliser exists

  function AsciiLower(s: Str): Str {
    seq(|s|, i requires 0 <= i < |s| => LowerAscii(s[i]))
  }

  lemma {:induction false} AsciiLowerKeepsValid(s: Str)
    requires Valid(s)
    ensures Valid(AsciiLower(s))
    decreases |s|
  {
    if s != [] {
      var w := Width(s);
      AsciiLowerKeepsValid(s[w..]);
      assert Width(AsciiLower(s)) == w;
      assert AsciiLower(s)[w..] == AsciiLower(s[w..]);
    }
  }

  lemma LowerOfPiece(s: Str, x: Str, t: Str, y: Str)
    requires AsciiLower(s) == x + t + y
    ensures AsciiLower(t) == t
  {
    assert forall k :: 0 <= k < |t| ==> t[k] == (x + t + y)[|x| + k];
    assert forall k :: 0 <= k < |t| ==> t[k] == LowerAscii(s[|x| + k]);
  }

  lemma LoweredTwice(s: Str)
    ensures Normalise(Normalise(s, AsciiLower), AsciiLower) == Normalise(s, AsciiLower)
  {
    var x, y := T.TrimSpaceSplits(AsciiLower(s));
    LowerOfPiece(s, x, T.TrimSpace(AsciiLower(s)), y);
    T.TrimSpaceStable(AsciiLower(s));
  }

  /** Lower-casing ASCII letters meets what Apply needs of strings.ToLower. */
  lemma AsciiLowerIsNormaliser()
    ensures IsNormaliser(AsciiLower)
  {
    forall s | Valid(s) ensures Valid(AsciiLower(s)) { AsciiLowerKeepsValid(s); }
    forall s | Valid(s) ensures Normalise(Normalise(s, AsciiLower), AsciiLower) == Normalise(s, AsciiLower) {
      LoweredTwice(s);
    }
  }
}
