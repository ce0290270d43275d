/**
 * Package searchdoc: the flat search fields of a blog document, and their merge into
 * a copy of the document.  strings.ToLower is a parameter, `lower`.
 */
module SearchDoc {
  import opened GoStrings
  import opened Json
  import T = Text

  const BODY_MAX_RUNES: nat := 200_000
  // The loop of Build stops once the buffer is longer than this.
  const BODY_MAX_BYTES: nat := BODY_MAX_RUNES * 4
  const HEADER: Str := [0x68, 0x65, 0x61, 0x64, 0x65, 0x72]
  const BLOCK_TEXT_FIELDS: seq<string> := ["text", "content", "caption", "code"]

  type Lower = Str -> Str

  datatype Fields = Fields(title: Str, summary: Str, body: Str, tags: seq<Str>)

  // ------------------------------------------------------------ blocks

  function CastBlocks(raw: seq<Json>): seq<Doc> {
    if raw == [] then []
    else CastBlocks(raw[..|raw| - 1]) + (if raw[|raw| - 1].Object? then [raw[|raw| - 1].fields] else [])
  }

  method CastBlockSlice(raw: seq<Json>) returns (out: seq<Doc>)
    ensures out == CastBlocks(raw)
  {
    out := [];
    for i := 0 to |raw|
      invariant out == CastBlocks(raw[..i])
    {
      assert raw[..i + 1][..i] == raw[..i];
      if raw[i].Object? {
        out := out + [raw[i].fields];
      }
    }
    assert raw[..|raw|] == raw;
  }

  /** A list at the top of the document hides the one in its `blog`. */
  function RawBlocks(doc: Doc): seq<Json> {
    if HasArray(doc, "blocks") then doc["blocks"].items
    else if HasObject(doc, "blog") && HasArray(doc["blog"].fields, "blocks") then doc["blog"].fields["blocks"].items
    else []
  }

  function Blocks(doc: Doc): seq<Doc> {
    CastBlocks(RawBlocks(doc))
  }

  // ------------------------------------------------------------ the text of a block

  function FieldText(data: Doc, key: string): Str {
    if HasText(data, key) then T.StripHtml(T.TrimSpace(data[key].s)) else []
  }

  /** The first non-empty text among the keys from position `k` on. */
  function FirstField(data: Doc, k: nat): Str
    requires k <= |BLOCK_TEXT_FIELDS|
    decreases |BLOCK_TEXT_FIELDS| - k
  {
    if k == |BLOCK_TEXT_FIELDS| then []
    else if FieldText(data, BLOCK_TEXT_FIELDS[k]) != [] then FieldText(data, BLOCK_TEXT_FIELDS[k])
    else FirstField(data, k + 1)
  }

  function ItemText(item: Json): Str {
    match item
    case Text(s) => T.StripHtml(s)
    case Object(m) =>
      if HasText(m, "text") then T.StripHtml(m["text"].s)
      else if HasText(m, "content") then T.StripHtml(m["content"].s)
      else []
    case _ => []
  }

  function JoinItems(items: seq<Json>): Str {
    if items == [] then []
    else JoinItems(items[..|items| - 1]) + (if |items| > 1 then [T.SPACE] else []) + ItemText(items[|items| - 1])
  }

  function BlockText(data: Doc): Str {
    if FirstField(data, 0) != [] then FirstField(data, 0)
    else if HasArray(data, "items") then T.TrimSpace(JoinItems(data["items"].items))
    else []
  }

  method ReadBlockText(data: Doc) returns (r: Str)
    ensures r == BlockText(data)
  {
    for k := 0 to |BLOCK_TEXT_FIELDS|
      invariant FirstField(data, 0) == FirstField(data, k)
    {
      if HasText(data, BLOCK_TEXT_FIELDS[k]) {
        var s := T.StripHtmlLite(T.TrimSpace(data[BLOCK_TEXT_FIELDS[k]].s));
        if s != [] {
          return s;
        }
      }
    }
    if HasArray(data, "items") && data["items"].items != [] {
      var items, sb := data["items"].items, [];
      for i := 0 to |items|
        invariant sb == JoinItems(items[..i])
      {
        assert items[..i + 1][..i] == items[..i];
        if i > 0 {
          sb := sb + [T.SPACE];
        }
        match items[i] {
          case Text(s) =>
            var t := T.StripHtmlLite(s);
            sb := sb + t;
          case Object(m) =>
            if HasText(m, "text") {
              var t := T.StripHtmlLite(m["text"].s);
              sb := sb + t;
            } else if HasText(m, "content") {
              var t := T.StripHtmlLite(m["content"].s);
              sb := sb + t;
            }
          case _ =>
        }
      }
      assert items[..|items|] == items;
      return T.TrimSpace(sb);
    }
    assert T.TrimSpace([]) == [];
    return [];
  }

  /** The prose of a block, empty if it has no data object. */
  function Prose(block: Doc): Str {
    if HasObject(block, "data") then BlockText(block["data"].fields) else []
  }

  function LowerAscii(b: byte): byte {
    if 0x41 <= b <= 0x5A then b + 0x20 else b
  }

  /** strings.EqualFold(type, "header"); no rune outside ASCII folds to one of its letters. */
  predicate IsHeader(block: Doc) {
    && HasText(block, "type")
    && |block["type"].s| == |HEADER|
    && forall k :: 0 <= k < |HEADER| ==> LowerAscii(block["type"].s[k]) == HEADER[k]
  }

  // ------------------------------------------------------------ Build

  function Append(buf: Str, text: Str): Str {
    if buf == [] then text else buf + [T.NEWLINE] + text
  }

  /** The loop of Build from some block on: title and buffer so far to title and buffer at the end. */
  function Scan(blocks: seq<Doc>, title: Str, buf: Str): (Str, Str) {
    if blocks == [] then (title, buf)
    else
      var text := Prose(blocks[0]);
      if text == [] then Scan(blocks[1..], title, buf)
      else
        var title' := if title == [] && IsHeader(blocks[0]) then text else title;
        var buf' := Append(buf, text);
        if |buf'| > BODY_MAX_BYTES then (title', buf') else Scan(blocks[1..], title', buf')
  }

  function Derive(doc: Doc, lower: Lower): Fields {
    var (title, buf) := Scan(Blocks(doc), [], []);
    var body := T.Truncate(buf, BODY_MAX_RUNES);
    Fields(title, T.Summary(body), body, Tags(RawTags(doc), lower))
  }

  lemma ScanStep(blocks: seq<Doc>, i: nat, title: Str, buf: Str)
    requires i < |blocks|
    ensures var text := Prose(blocks[i]);
      Scan(blocks[i..], title, buf) ==
        if text == [] then Scan(blocks[i + 1..], title, buf)
        else
          var title' := if title == [] && IsHeader(blocks[i]) then text else title;
          var buf' := Append(buf, text);
          if |buf'| > BODY_MAX_BYTES then (title', buf') else Scan(blocks[i + 1..], title', buf')
  {
    assert blocks[i..][1..] == blocks[i + 1..];
  }

  method ScanBlocks(blocks: seq<Doc>) returns (title: Str, buf: Str)
    ensures (title, buf) == Scan(blocks, [], [])
  {
    title, buf := [], [];
    var i := 0;
    while i < |blocks|
      invariant i <= |blocks|
      invariant Scan(blocks[i..], title, buf) == Scan(blocks, [], [])
    {
      var b := blocks[i];
      ghost var title0, buf0 := title, buf;
      ScanStep(blocks, i, title0, buf0);
      i := i + 1;
      if !HasObject(b, "data") {
        continue;
      }
      var text := ReadBlockText(b["data"].fields);
      if text == [] {
        continue;
      }
      if title == [] && IsHeader(b) {
        title := text;
      }
      if |buf| > 0 {
        buf := buf + [T.NEWLINE];
      }
      buf := buf + text;
      assert text == Prose(b) && buf == Append(buf0, text);
      assert title == if title0 == [] && IsHeader(b) then text else title0;
      if |buf| > BODY_MAX_BYTES {
        return;
      }
    }
    assert blocks[i..] == [];
  }

  method Build(doc: Doc, lower: Lower) returns (f: Fields)
    ensures f == Derive(doc, lower)
  {
    var blocks := CastBlockSlice(RawBlocks(doc));
    var title, buf := ScanBlocks(blocks);
    var body := T.TruncateRunes(buf, BODY_MAX_RUNES);
    var summary := T.MakeSummary(body);
    var tags := ExtractTags(RawTags(doc), lower);
    return Fields(title, summary, body, tags);
  }

  // ------------------------------------------------------------ tags

  function BlogTags(doc: Doc): seq<Json> {
    if HasObject(doc, "blog") && HasArray(doc["blog"].fields, "tags") then doc["blog"].fields["tags"].items else []
  }

  function RawTags(doc: Doc): seq<Json> {
    if HasArray(doc, "tags") then doc["tags"].items else BlogTags(doc)
  }

  function Normalise(s: Str, lower: Lower): Str {
    T.TrimSpace(lower(s))
  }

  /** The tag an entry stands for, empty if it stands for none. */
  function TagOf(entry: Json, lower: Lower): Str {
    if entry.Text? then Normalise(entry.s, lower) else []
  }

  function Tags(raw: seq<Json>, lower: Lower): seq<Str> {
    if raw == [] then []
    else
      var init := Tags(raw[..|raw| - 1], lower);
      var tag := TagOf(raw[|raw| - 1], lower);
      if tag == [] || tag in init then init else init + [tag]
  }

  method ExtractTags(raw: seq<Json>, lower: Lower) returns (out: seq<Str>)
    ensures out == Tags(raw, lower)
  {
    var seen: set<Str> := {};
    out := [];
    for i := 0 to |raw|
      invariant out == Tags(raw[..i], lower)
      invariant forall t :: t in seen <==> t in out
    {
      assert raw[..i + 1][..i] == raw[..i];
      if raw[i].Text? {
        var s := Normalise(raw[i].s, lower);
        if s != [] && s !in seen {
          seen := seen + {s};
          out := out + [s];
        }
      }
    }
    assert raw[..|raw|] == raw;
  }

  // ------------------------------------------------------------ Apply

  function Put(m: Doc, key: string, v: Json, present: bool): Doc {
    if present then m[key := v] else m
  }

  /** The document with every non-empty derived field written over it. */
  function Enrich(doc: Doc, f: Fields): Doc {
    var d1 := Put(doc, "title", Text(f.title), f.title != []);
    var d2 := Put(d1, "summary", Text(f.summary), f.summary != []);
    var d3 := Put(d2, "body", Text(f.body), f.body != []);
    Put(d3, "tags", Strs(f.tags), f.tags != [])
  }

  function Applied(doc: Doc, lower: Lower): Doc {
    Enrich(doc, Derive(doc, lower))
  }

  method Apply(doc: Doc, lower: Lower) returns (out: Doc)
    ensures out == Applied(doc, lower)
  {
    out := map[];
    var keys := doc.Keys;
    while keys != {}
      invariant keys <= doc.Keys
      invariant out == map k | k in doc && k !in keys :: doc[k]
      decreases |keys|
    {
      var k :| k in keys;
      out := out[k := doc[k]];
      keys := keys - {k};
    }
    assert out == doc;
    var f := Build(doc, lower);
    if f.title != [] {
      out := out["title" := Text(f.title)];
    }
    if f.summary != [] {
      out := out["summary" := Text(f.summary)];
    }
    if f.body != [] {
      out := out["body" := Text(f.body)];
    }
    if |f.tags| > 0 {
      out := out["tags" := Strs(f.tags)];
    }
  }
}
