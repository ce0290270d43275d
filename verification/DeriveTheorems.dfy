/**
 * What the derived fields are made of, read off the document itself: which blocks, which
 * keys of a block, what is left of a text, and which entries become tags.
 */
module DeriveTheorems {
  import opened GoStrings
  import opened Json
  import opened SearchDoc
  import opened SearchDocTheorems
  import T = Text

  // ------------------------------------------------------------ the text of a block

  /** What a text shows: the runes outside tags, if it has a '<' at all. */
  ghost function Shown(s: Str): Str {
    if 0x3C in s then EncodeAll(T.Visible(Decode(s), RuneCount(s))) else s
  }

  lemma StripIsShown(s: Str)
    ensures T.StripHtml(s) == Shown(s)
  {
    T.StripHtmlSpec(s);
    if 0x3C in s { EncodeDecode(T.StripHtml(s)); }
  }

  /** What a prose key of a block's data shows. */
  ghost function ProseAt(data: Doc, key: string): Str {
    if key in data && data[key].Text? then Shown(T.TrimSpace(data[key].s)) else []
  }

  ghost function ItemShown(item: Json): Str {
    match item
    case Text(s) => Shown(s)
    case Object(m) =>
      if "text" in m && m["text"].Text? then Shown(m["text"].s)
      else if "content" in m && m["content"].Text? then Shown(m["content"].s)
      else []
    case _ => []
  }

  lemma ItemIsShown(item: Json)
    ensures ItemText(item) == ItemShown(item)
  {
    match item
    case Text(s) => StripIsShown(s);
    case Object(m) =>
      if HasText(m, "text") { StripIsShown(m["text"].s); }
      else if HasText(m, "content") { StripIsShown(m["content"].s); }
    case _ =>
  }

  ghost function ItemsShown(items: seq<Json>): seq<Str> {
    seq(|items|, i requires 0 <= i < |items| => ItemShown(items[i]))
  }

  lemma FieldIsShown(data: Doc, key: string)
    ensures FieldText(data, key) == ProseAt(data, key)
  {
    if HasText(data, key) { StripIsShown(T.TrimSpace(data[key].s)); }
  }

  /** The four prose keys, in order of priority, and after them the items. */
  lemma BlockTextIs(data: Doc)
    ensures BlockText(data) ==
      if ProseAt(data, "text") != [] then ProseAt(data, "text")
      else if ProseAt(data, "content") != [] then ProseAt(data, "content")
      else if ProseAt(data, "caption") != [] then ProseAt(data, "caption")
      else if ProseAt(data, "code") != [] then ProseAt(data, "code")
      else if "items" in data && data["items"].Array? then T.TrimSpace(Join(ItemsShown(data["items"].items), 0x20))
      else []
  {
    FourFields(data);
    FieldIsShown(data, "text");
    FieldIsShown(data, "content");
    FieldIsShown(data, "caption");
    FieldIsShown(data, "code");
    if HasArray(data, "items") {
      JoinItemsIsJoin(data["items"].items);
      ItemsAreShown(data["items"].items);
    }
  }

  lemma ItemsAreShown(items: seq<Json>)
    ensures ItemTexts(items) == ItemsShown(items)
  {
    forall i | 0 <= i < |items| ensures ItemTexts(items)[i] == ItemsShown(items)[i] { ItemIsShown(items[i]); }
  }

  lemma FourFields(data: Doc)
    ensures FirstField(data, 0) ==
      if FieldText(data, "text") != [] then FieldText(data, "text")
      else if FieldText(data, "content") != [] then FieldText(data, "content")
      else if FieldText(data, "caption") != [] then FieldText(data, "caption")
      else FieldText(data, "code")
  {
    assert FirstField(data, 4) == [];
    assert FirstField(data, 3) == FieldText(data, "code");
    assert FirstField(data, 2) ==
           if FieldText(data, "caption") != [] then FieldText(data, "caption") else FirstField(data, 3);
    assert FirstField(data, 1) ==
           if FieldText(data, "content") != [] then FieldText(data, "content") else FirstField(data, 2);
  }

  /** The text of the first key that shows anything is exactly the visible runes of its trimmed value. */
  lemma ProseIsVisible(data: Doc, keys: seq<string>, k: nat, t: Str)
    requires keys == ["text", "content", "caption", "code"] && k < 4
    ensures (forall j :: 0 <= j < k ==> ProseAt(data, keys[j]) == [])
            && keys[k] in data && data[keys[k]].Text? && T.TrimSpace(data[keys[k]].s) == t
            && 0x3C in t && T.Visible(Decode(t), RuneCount(t)) != []
            ==> Decode(BlockText(data)) == T.Visible(Decode(t), RuneCount(t))
  {
    if (forall j :: 0 <= j < k ==> ProseAt(data, keys[j]) == [])
       && keys[k] in data && data[keys[k]].Text? && T.TrimSpace(data[keys[k]].s) == t
       && 0x3C in t && T.Visible(Decode(t), RuneCount(t)) != []
    {
      T.StripHtmlSpec(t);
      StripIsShown(t);
      assert Decode([]) == [];
      assert ProseAt(data, keys[k]) == Shown(t) != [];
      assert k > 0 ==> ProseAt(data, keys[0]) == [];
      assert k > 1 ==> ProseAt(data, keys[1]) == [];
      assert k > 2 ==> ProseAt(data, keys[2]) == [];
      BlockTextIs(data);
    }
  }

  // ------------------------------------------------------------ no tag survives

  lemma TrimKeepsAbsence(s: Str, c: byte)
    requires c !in s
    ensures c !in T.TrimSpace(s)
  {
    var x, y := T.TrimSpaceSplits(s);
    PieceAbsent(x, T.TrimSpace(s), y, c);
  }

  lemma PieceAbsent(x: Str, t: Str, y: Str, c: byte)
    requires c !in x + t + y
    ensures c !in t
  {
    assert forall k :: 0 <= k < |t| ==> t[k] == (x + t + y)[|x| + k];
  }

  lemma {:induction false} JoinAbsent(texts: seq<Str>, sep: byte, c: byte)
    requires c != sep && forall k :: 0 <= k < |texts| ==> c !in texts[k]
    ensures c !in Join(texts, sep)
  {
    if |texts| > 1 {
      JoinAbsent(texts[1..], sep, c);
      assert c !in [sep];
    }
  }

  lemma ShownAbsent(s: Str)
    ensures 0x3C !in Shown(s)
  {
    StripIsShown(s);
    T.StripHtmlSpec(s);
  }

  /** No block's text has a '<' in it. */
  lemma NoTagInBlock(data: Doc)
    ensures 0x3C !in BlockText(data)
  {
    BlockTextIs(data);
    ProseAbsent(data, "text");
    ProseAbsent(data, "content");
    ProseAbsent(data, "caption");
    ProseAbsent(data, "code");
    if HasArray(data, "items") { ItemsAbsent(data["items"].items); }
  }

  lemma ProseAbsent(data: Doc, key: string)
    ensures 0x3C !in ProseAt(data, key)
  {
    if HasText(data, key) { ShownAbsent(T.TrimSpace(data[key].s)); }
  }

  lemma ItemsAbsent(items: seq<Json>)
    ensures 0x3C !in T.TrimSpace(Join(ItemsShown(items), 0x20))
  {
    forall i | 0 <= i < |items| ensures 0x3C !in ItemsShown(items)[i] { ItemAbsent(items[i]); }
    JoinAbsent(ItemsShown(items), 0x20, 0x3C);
    TrimKeepsAbsence(Join(ItemsShown(items), 0x20), 0x3C);
  }

  lemma ItemAbsent(item: Json)
    ensures 0x3C !in ItemShown(item)
  {
    match item
    case Text(s) => ShownAbsent(s);
    case Object(m) =>
      if HasText(m, "text") { ShownAbsent(m["text"].s); }
      else if HasText(m, "content") { ShownAbsent(m["content"].s); }
    case _ =>
  }

  lemma NoTagInProse(block: Doc)
    ensures 0x3C !in Prose(block)
  {
    if HasObject(block, "data") { NoTagInBlock(block["data"].fields); }
  }

  lemma {:induction false} ScanAbsent(blocks: seq<Doc>, title: Str, buf: Str)
    requires 0x3C !in title && 0x3C !in buf
    ensures 0x3C !in Scan(blocks, title, buf).0 && 0x3C !in Scan(blocks, title, buf).1
    decreases |blocks|
  {
    if blocks != [] {
      var text := Prose(blocks[0]);
      NoTagInProse(blocks[0]);
      AppendAbsent(buf, text);
      if text == [] {
        ScanAbsent(blocks[1..], title, buf);
      } else {
        var title' := if title == [] && IsHeader(blocks[0]) then text else title;
        ScanAbsent(blocks[1..], title', Append(buf, text));
      }
    }
  }

  lemma AppendAbsent(buf: Str, text: Str)
    requires 0x3C !in buf && 0x3C !in text
    ensures 0x3C !in Append(buf, text)
  {
  }

  lemma PrefixAbsent(p: Str, s: Str, c: byte)
    requires p <= s && c !in s
    ensures c !in p
  {
  }

  lemma SummaryAbsent(body: Str)
    requires 0x3C !in body
    ensures 0x3C !in T.Summary(body)
  {
    if RuneCount(body) > 300 {
      var front := body[..T.SummaryCut(body)];
      T.SummaryOfCut(body);
      PrefixAbsent(front, body, 0x3C);
      TrimKeepsAbsence(front, 0x3C);
      EllipsisAbsent(T.TrimSpace(front));
    }
  }

  lemma EllipsisAbsent(t: Str)
    requires 0x3C !in t
    ensures 0x3C !in t + T.ELLIPSIS
  {
  }

  /** For every document: neither title nor body nor summary has a '<' in it. */
  lemma NoTagInFields(doc: Doc, lower: Lower)
    ensures var f := Derive(doc, lower); 0x3C !in f.title && 0x3C !in f.body && 0x3C !in f.summary
  {
    ScanAbsent(Blocks(doc), [], []);
    var buf := Scan(Blocks(doc), [], []).1;
    T.TruncateKeepsRunes(buf, BODY_MAX_RUNES);
    PrefixAbsent(T.Truncate(buf, BODY_MAX_RUNES), buf, 0x3C);
    SummaryAbsent(T.Truncate(buf, BODY_MAX_RUNES));
  }

  // ------------------------------------------------------------ which blocks

  /** The non-empty texts of the entries that are objects with a data object, in order. */
  function ProsesOf(raw: seq<Json>): seq<Str> {
    if raw == [] then [] else ProsesOf(raw[..|raw| - 1]) + ProseOf(raw[|raw| - 1])
  }

  function ProseOf(entry: Json): seq<Str> {
    if entry.Object? && "data" in entry.fields && entry.fields["data"].Object?
       && BlockText(entry.fields["data"].fields) != []
    then [BlockText(entry.fields["data"].fields)]
    else []
  }

  lemma {:induction false} TextsConcat(a: seq<Doc>, b: seq<Doc>)
    ensures Texts(a + b) == Texts(a) + Texts(b)
  {
    if a == [] {
      assert a + b == b;
    } else {
      assert (a + b)[1..] == a[1..] + b;
      TextsConcat(a[1..], b);
    }
  }

  lemma TextsOfOne(block: Doc)
    ensures Texts([block]) == ProseOf(Object(block))
  {
    assert [block][1..] == [];
  }

  lemma {:induction false} TextsOfCast(raw: seq<Json>)
    ensures Texts(CastBlocks(raw)) == ProsesOf(raw)
  {
    if raw != [] {
      var init, entry := raw[..|raw| - 1], raw[|raw| - 1];
      assert raw == init + [entry];
      CastStep(init, entry);
      TextsOfCast(init);
      if entry.Object? {
        TextsConcat(CastBlocks(init), [entry.fields]);
        TextsOfOne(entry.fields);
      } else {
        assert CastBlocks(init) + [] == CastBlocks(init);
      }
    }
  }

  /**
   * The body is the newline-join of the texts of the top-level blocks if there is such an
   * array, else of those of `blog.blocks`, cut after 200,000 runes; without either there is
   * neither title nor body nor summary.
   */
  lemma BodyIs(doc: Doc, lower: Lower)
    ensures var f := Derive(doc, lower);
      if "blocks" in doc && doc["blocks"].Array?
      then f.body == T.Truncate(Join(ProsesOf(doc["blocks"].items), 0x0A), 200_000)
      else if "blog" in doc && doc["blog"].Object?
              && "blocks" in doc["blog"].fields && doc["blog"].fields["blocks"].Array?
      then f.body == T.Truncate(Join(ProsesOf(doc["blog"].fields["blocks"].items), 0x0A), 200_000)
      else f.title == [] && f.body == [] && f.summary == []
  {
    BodyIsLossless(doc, lower);
    TextsOfCast(RawBlocks(doc));
  }

  /** The summary is the body itself if that is short, and else a proper summary of that body. */
  lemma SummaryIsOfBody(doc: Doc, lower: Lower) returns (a: nat, b: nat, p: nat)
    ensures var f := Derive(doc, lower);
      if RuneCount(f.body) <= 300 then f.summary == f.body else T.IsSummaryOf(f.summary, f.body, a, b, p)
  {
    a, b, p := T.SummaryShape(Derive(doc, lower).body);
  }

  /** The type of a header block is the word "header" in any mixture of cases. */
  lemma HeaderIff(block: Doc)
    ensures IsHeader(block) <==>
      && "type" in block && block["type"].Text? && |block["type"].s| == 6
      && var s := block["type"].s;
         && (s[0] == 0x68 || s[0] == 0x48) && (s[1] == 0x65 || s[1] == 0x45) && (s[2] == 0x61 || s[2] == 0x41)
         && (s[3] == 0x64 || s[3] == 0x44) && (s[4] == 0x65 || s[4] == 0x45) && (s[5] == 0x72 || s[5] == 0x52)
  {
    assert HEADER[0] == 0x68 && HEADER[1] == 0x65 && HEADER[2] == 0x61;
    assert HEADER[3] == 0x64 && HEADER[4] == 0x65 && HEADER[5] == 0x72;
  }

  // ------------------------------------------------------------ which tags

  /**
   * The tags are exactly the non-empty results of lower-casing and then trimming the entries
   * that are strings.
   */
  lemma TagsAre(raw: seq<Json>, lower: Lower)
    ensures forall t :: t in Tags(raw, lower) ==>
              t != [] && exists p :: 0 <= p < |raw| && raw[p].Text? && T.TrimSpace(lower(raw[p].s)) == t
    ensures forall p :: 0 <= p < |raw| && raw[p].Text? && T.TrimSpace(lower(raw[p].s)) != [] ==>
              T.TrimSpace(lower(raw[p].s)) in Tags(raw, lower)
  {
    var at := TagsSpec(raw, lower);
    forall t | t in Tags(raw, lower)
      ensures t != [] && exists p :: 0 <= p < |raw| && raw[p].Text? && T.TrimSpace(lower(raw[p].s)) == t
    {
      var k :| 0 <= k < |at| && Tags(raw, lower)[k] == t;
      assert FirstAt(raw, lower, at[k], t);
    }
    forall p | 0 <= p < |raw| && raw[p].Text? && T.TrimSpace(lower(raw[p].s)) != []
      ensures T.TrimSpace(lower(raw[p].s)) in Tags(raw, lower)
    {
      TagsCover(raw, lower, p);
    }
  }

  /** A top-level array of tags wins over the one in `blog`. */
  lemma TagsFrom(doc: Doc, lower: Lower)
    ensures var tags := Derive(doc, lower).tags;
      if "tags" in doc && doc["tags"].Array? then tags == Tags(doc["tags"].items, lower)
      else if "blog" in doc && doc["blog"].Object?
              && "tags" in doc["blog"].fields && doc["blog"].fields["tags"].Array?
      then tags == Tags(doc["blog"].fields["tags"].items, lower)
      else tags == []
  {
  }
}
