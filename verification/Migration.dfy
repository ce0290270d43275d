/**
 * The migration over documents: the Go scan that counts what would change, and the
 * Painless script that changes it in place.
 */
module Migration {
  import opened Wrappers
  import opened GoStrings
  import opened Json
  import opened StorageUrls
  import opened UrlEncodings

  // ------------------------------------------------------------ the Go scan

  predicate HasFile(block: Json) {
    block.Object? && HasObject(block.fields, "data") && HasObject(block.fields["data"].fields, "file")
  }

  predicate HasUrl(block: Json) {
    HasFile(block) && HasText(block.fields["data"].fields["file"].fields, "url")
  }

  /** The data.file.url of a block, or the empty string, which the scan skips. */
  function FileUrl(block: Json): Str {
    if HasUrl(block) then block.fields["data"].fields["file"].fields["url"].s else []
  }

  predicate Converts(block: Json) {
    FileUrl(block) != [] && ToRelativePath(FileUrl(block)).1
  }

  /** The blocks the scan walks. */
  function ScannedBlocks(source: Doc): seq<Json> {
    if HasObject(source, "blog") && HasArray(source["blog"].fields, "blocks")
    then source["blog"].fields["blocks"].items
    else []
  }

  function Conversions(blocks: seq<Json>): nat {
    if blocks == [] then 0
    else Conversions(blocks[..|blocks| - 1]) + (if Converts(blocks[|blocks| - 1]) then 1 else 0)
  }

  /** Conversions over all documents, and the documents that have one. */
  function UrlTotal(sources: seq<Doc>): nat {
    if sources == [] then 0
    else UrlTotal(sources[..|sources| - 1]) + Conversions(ScannedBlocks(sources[|sources| - 1]))
  }

  function DocTotal(sources: seq<Doc>): nat {
    if sources == [] then 0
    else DocTotal(sources[..|sources| - 1]) + (if Conversions(ScannedBlocks(sources[|sources| - 1])) > 0 then 1 else 0)
  }

  lemma TotalsStep(sources: seq<Doc>, n: nat)
    requires n < |sources|
    ensures UrlTotal(sources[..n + 1]) == UrlTotal(sources[..n]) + Conversions(ScannedBlocks(sources[n]))
    ensures DocTotal(sources[..n + 1]) ==
            DocTotal(sources[..n]) + (if Conversions(ScannedBlocks(sources[n])) > 0 then 1 else 0)
  {
    assert sources[..n + 1][..n] == sources[..n];
  }

  lemma ConversionsStep(blocks: seq<Json>, i: nat)
    requires i < |blocks|
    ensures Conversions(blocks[..i + 1]) == Conversions(blocks[..i]) + (if Converts(blocks[i]) then 1 else 0)
  {
    assert blocks[..i + 1][..i] == blocks[..i];
  }

  class Scan {
    var totalDocs: nat
    var docsNeedingUpdate: nat
    var urlsFound: nat

    constructor ()
      ensures totalDocs == docsNeedingUpdate == urlsFound == 0
    {
      totalDocs, docsNeedingUpdate, urlsFound := 0, 0, 0;
    }

    method ProcessHits(hits: seq<Doc>)
      modifies this
      ensures totalDocs == old(totalDocs) + |hits|
      ensures docsNeedingUpdate == old(docsNeedingUpdate) + DocTotal(hits)
      ensures urlsFound == old(urlsFound) + UrlTotal(hits)
    {
      for n := 0 to |hits|
        invariant totalDocs == old(totalDocs) + n
        invariant docsNeedingUpdate == old(docsNeedingUpdate) + DocTotal(hits[..n])
        invariant urlsFound == old(urlsFound) + UrlTotal(hits[..n])
      {
        TotalsStep(hits, n);
        totalDocs := totalDocs + 1;
        var source := hits[n];
        if !HasObject(source, "blog") || !HasArray(source["blog"].fields, "blocks") {
          continue;
        }
        var blocks := source["blog"].fields["blocks"].items;
        var docHasV1 := false;
        ghost var seen, needing, before := totalDocs, docsNeedingUpdate, urlsFound;
        for i := 0 to |blocks|
          invariant totalDocs == seen && docsNeedingUpdate == needing
          invariant urlsFound == before + Conversions(blocks[..i])
          invariant docHasV1 <==> Conversions(blocks[..i]) > 0
        {
          ConversionsStep(blocks, i);
          var urlStr := FileUrl(blocks[i]);
          if urlStr == [] {
            continue;
          }
          var (newUrl, changed) := ToRelativePath(urlStr);
          if changed {
            docHasV1 := true;
            urlsFound := urlsFound + 1;
          }
        }
        assert blocks[..|blocks|] == blocks;
        if docHasV1 {
          docsNeedingUpdate := docsNeedingUpdate + 1;
        }
      }
      assert hits[..|hits|] == hits;
    }
  }

  // ------------------------------------------------------------ what may change in a block

  /** The two have the same keys, and the same value under each but one. */
  predicate SameBut(d: Doc, e: Doc, key: string) {
    d.Keys == e.Keys && forall k :: k in d && k != key ==> e[k] == d[k]
  }

  /** `after` is the block with data.file.url set to the previewed URL and nothing else touched. */
  predicate OnlyUrlRewritten(block: Json, after: Json) {
    if !HasUrl(block) then after == block
    else
      && HasUrl(after) && SameBut(block.fields, after.fields, "data")
      && var data, data' := block.fields["data"].fields, after.fields["data"].fields;
      && SameBut(data, data', "file")
      && var file, file' := data["file"].fields, data'["file"].fields;
      && SameBut(file, file', "url")
      && file'["url"].s == Preview(file["url"].s)
  }

  /**
   * A block without "data", "file" or "url", or with null there, is none of the script's
   * business; any other value that is not an object, or not a URL at the end, makes it throw.
   */
  predicate Throws(block: Json) {
    if !block.Object? then true
    else if Get(block.fields, "data").Null? then false
    else if !HasObject(block.fields, "data") then true
    else if Get(block.fields["data"].fields, "file").Null? then false
    else if !HasObject(block.fields["data"].fields, "file") then true
    else
      var url := Get(block.fields["data"].fields["file"].fields, "url");
      !url.Null? && !url.Text? && (url.Array? ==> HoldsPath(url.items))
  }

  // ------------------------------------------------------------ the Painless script

  /** Reading a property: absent is null. */
  function Get(d: Doc, key: string): Json {
    if key in d then d[key] else Null
  }

  function SetUrl(block: Json, url: Str): Json
    requires HasFile(block)
  {
    var data := block.fields["data"].fields;
    var file := data["file"].fields;
    Object(block.fields["data" := Object(data["file" := Object(file["url" := Text(url)])])])
  }

  /** The list has one of the three searched paths as an element. */
  predicate HoldsPath(items: seq<Json>) {
    exists k :: 0 <= k < |items| && items[k].Text?
                && (items[k].s == V1_POST || items[k].s == V1_PROFILE || items[k].s == V2_STORAGE)
  }

  /**
   * One turn of the script's loop; None where the script throws on a malformed block.  A list
   * has an indexOf too, so a list of URLs is left alone unless it contains a bare path.
   */
  function ScriptBlock(block: Json): Option<Json> {
    if !block.Object? then None
    else
      var data := Get(block.fields, "data");
      if data.Null? then Some(block)
      else if !data.Object? then None
      else
        var file := Get(data.fields, "file");
        if file.Null? then Some(block)
        else if !file.Object? then None
        else
          var url := Get(file.fields, "url");
          if url.Null? then Some(block)
          else if url.Array? && !HoldsPath(url.items) then Some(block)
          else if !url.Text? then None
          else Some(SetUrl(block, ScriptUrl(url.s)))
  }

  /** The script throws on none of the blocks. */
  predicate Accepts(blocks: seq<Json>) {
    forall k :: 0 <= k < |blocks| ==> ScriptBlock(blocks[k]).Some?
  }

  function ScriptBlocks(blocks: seq<Json>): seq<Json>
    requires Accepts(blocks)
  {
    seq(|blocks|, k requires 0 <= k < |blocks| => ScriptBlock(blocks[k]).value)
  }

  /** The document after the script, None if the script throws and the document stays. */
  function ScriptDoc(source: Doc): Option<Doc> {
    var blog := Get(source, "blog");
    if blog.Null? then Some(source)
    else if !blog.Object? then None
    else
      var blocks := Get(blog.fields, "blocks");
      if blocks.Null? then Some(source)
      else if !blocks.Array? || !Accepts(blocks.items) then None
      else Some(source["blog" := Object(blog.fields["blocks" := Array(ScriptBlocks(blocks.items))])])
  }

  /** The loop of the script over the block list, in place. */
  method RewriteInPlace(blocks: array<Json>) returns (ok: bool)
    modifies blocks
    ensures ok <==> Accepts(old(blocks[..]))
    ensures ok <==> forall k :: 0 <= k < blocks.Length ==> !Throws(old(blocks[k]))
    ensures ok ==> blocks[..] == ScriptBlocks(old(blocks[..]))
    ensures ok ==> forall k :: 0 <= k < blocks.Length && FromJson(old(blocks[k])) ==>
                     OnlyUrlRewritten(old(blocks[k]), blocks[k])
  {
    var i := 0;
    while i < blocks.Length
      invariant 0 <= i <= blocks.Length
      invariant forall k :: 0 <= k < i ==> ScriptBlock(old(blocks[k])) == Some(blocks[k])
      invariant forall k :: i <= k < blocks.Length ==> blocks[k] == old(blocks[k])
      invariant forall k :: 0 <= k < i ==> !Throws(old(blocks[k]))
      invariant forall k :: 0 <= k < i && FromJson(old(blocks[k])) ==> OnlyUrlRewritten(old(blocks[k]), blocks[k])
    {
      ScriptRunsIff(blocks[i]);
      if FromJson(blocks[i]) && ScriptBlock(blocks[i]).Some? { ScriptKeepsTheRest(blocks[i]); }
      var r := ScriptBlock(blocks[i]);
      if r.None? {
        assert old(blocks[..])[i] == old(blocks[i]);
        return false;
      }
      blocks[i] := r.value;
      i := i + 1;
    }
    return true;
  }

  // ------------------------------------------------------------ scan and script agree

  lemma PutFromJson(d: Doc, key: string, v: Json)
    requires DocFromJson(d) && FromJson(v)
    ensures DocFromJson(d[key := v])
  {
  }

  lemma SetUrlFromJson(block: Json, url: Str)
    requires FromJson(block) && HasFile(block) && Valid(url)
    ensures FromJson(SetUrl(block, url))
  {
    var data := block.fields["data"];
    var file := data.fields["file"];
    assert FromJson(data) && FromJson(file);
    PutFromJson(file.fields, "url", Text(url));
    PutFromJson(data.fields, "file", Object(file.fields["url" := Text(url)]));
  }

  lemma SetUrlSame(block: Json)
    requires HasUrl(block)
    ensures SetUrl(block, FileUrl(block)) == block
  {
    var data := block.fields["data"].fields;
    var file := data["file"].fields;
    assert file["url" := Text(FileUrl(block))] == file;
    assert data["file" := Object(file)] == data;
    assert block.fields["data" := Object(data)] == block.fields;
  }

  lemma SetUrlReads(block: Json, url: Str)
    requires HasFile(block)
    ensures HasUrl(SetUrl(block, url)) && FileUrl(SetUrl(block, url)) == url
  {
  }

  /** Without a URL the script leaves the block alone, with one it sets it. */
  lemma ScriptBlockIs(block: Json)
    requires ScriptBlock(block).Some?
    ensures ScriptBlock(block).value == if HasUrl(block) then SetUrl(block, ScriptUrl(FileUrl(block))) else block
  {
  }

  lemma ScriptRunsAgain(block: Json, url: Str)
    requires HasFile(block)
    ensures ScriptBlock(SetUrl(block, url)).Some?
  {
  }

  lemma NothingInEmpty()
    ensures !ToRelativePath([]).1 && !IsV1([])
  {
  }

  lemma ScriptUrlValid(s: Str)
    ensures Valid(ScriptUrl(s))
  {
    var units := Painless(EncodeWith(Utf16, Decode(s)));
    FromUtf16Scalar(units);
    DecodeEncode(FromUtf16(units));
  }

  lemma {:induction false} FromUtf16Scalar(u: Units)
    ensures AllScalar(FromUtf16(u))
    decreases |u|
  {
    if u != [] {
      FromUtf16Scalar(u[1..]);
      if |u| >= 2 { FromUtf16Scalar(u[2..]); }
    }
  }

  lemma ScriptRunsIff(block: Json)
    ensures ScriptBlock(block).Some? <==> !Throws(block)
  {
  }

  /** The script sets data.file.url and keeps everything else of the block. */
  lemma ScriptKeepsTheRest(block: Json)
    requires FromJson(block) && ScriptBlock(block).Some?
    ensures OnlyUrlRewritten(block, ScriptBlock(block).value)
  {
    ScriptBlockIs(block);
    if HasUrl(block) {
      UrlValid(block);
      ScriptAgrees(FileUrl(block));
      SetUrlKeepsTheRest(block, Preview(FileUrl(block)));
    }
  }

  lemma PutIsSameBut(d: Doc, key: string, v: Json)
    requires key in d
    ensures SameBut(d, d[key := v], key) && d[key := v][key] == v
  {
  }

  lemma SetUrlKeepsTheRest(block: Json, url: Str)
    requires HasUrl(block) && url == Preview(FileUrl(block))
    ensures OnlyUrlRewritten(block, SetUrl(block, url))
  {
    var data := block.fields["data"].fields;
    var file := data["file"].fields;
    var file' := file["url" := Text(url)];
    var data' := data["file" := Object(file')];
    PutIsSameBut(file, "url", Text(url));
    PutIsSameBut(data, "file", Object(file'));
    PutIsSameBut(block.fields, "data", Object(data'));
  }

  /** And of the document everything but the listed blocks. */
  lemma ScriptDocKeepsTheRest(source: Doc)
    requires DocFromJson(source) && ScriptDoc(source).Some?
    ensures var after := ScriptDoc(source).value;
      if "blog" in source && source["blog"].Object? && "blocks" in source["blog"].fields
         && source["blog"].fields["blocks"].Array?
      then
        && SameBut(source, after, "blog") && after["blog"].Object?
        && SameBut(source["blog"].fields, after["blog"].fields, "blocks") && after["blog"].fields["blocks"].Array?
        && var items, items' := source["blog"].fields["blocks"].items, after["blog"].fields["blocks"].items;
        && |items'| == |items| && forall k :: 0 <= k < |items| ==> OnlyUrlRewritten(items[k], items'[k])
      else after == source
  {
    var blocks := ScannedBlocks(source);
    ScannedFromJson(source);
    ScriptDocIs(source);
    forall k | 0 <= k < |blocks| ensures OnlyUrlRewritten(blocks[k], ScriptBlocks(blocks)[k]) {
      ScriptKeepsTheRest(blocks[k]);
    }
  }

  /** The script alters exactly the blocks the scan counts, and of those only the URL. */
  lemma BlockAltered(block: Json)
    requires FromJson(block) && ScriptBlock(block).Some?
    ensures var after := ScriptBlock(block).value;
      && (after != block <==> Converts(block))
      && FileUrl(after) == Preview(FileUrl(block))
      && (HasUrl(block) ==> after == SetUrl(block, Preview(FileUrl(block))))
      && FromJson(after) && ScriptBlock(after).Some?
  {
    ScriptBlockIs(block);
    var url := FileUrl(block);
    RewrittenDiffers(url);
    NothingInEmpty();
    if HasUrl(block) {
      UrlValid(block);
      ScriptAgrees(url);
      ScriptUrlValid(url);
      SetUrlReads(block, Preview(url));
      SetUrlSame(block);
      SetUrlFromJson(block, Preview(url));
      ScriptRunsAgain(block, Preview(url));
    }
  }

  lemma UrlValid(block: Json)
    requires FromJson(block) && HasUrl(block)
    ensures Valid(FileUrl(block))
  {
    var data := block.fields["data"];
    var file := data.fields["file"];
    assert FromJson(data) && FromJson(file);
    assert FromJson(file.fields["url"]);
  }

  /** Number of positions at which two equally long lists differ. */
  function Differences(a: seq<Json>, b: seq<Json>): nat
    requires |a| == |b|
  {
    if a == [] then 0
    else Differences(a[..|a| - 1], b[..|b| - 1]) + (if a[|a| - 1] == b[|b| - 1] then 0 else 1)
  }

  lemma ScriptBlocksStep(init: seq<Json>, block: Json)
    requires Accepts(init + [block])
    ensures Accepts(init) && ScriptBlock(block).Some?
    ensures ScriptBlocks(init + [block]) == ScriptBlocks(init) + [ScriptBlock(block).value]
  {
    var blocks := init + [block];
    assert blocks[|init|] == block;
    assert forall k :: 0 <= k < |init| ==> blocks[k] == init[k];
  }

  lemma CountsStep(init: seq<Json>, block: Json, init': seq<Json>, block': Json)
    requires |init| == |init'|
    ensures Differences(init + [block], init' + [block']) ==
            Differences(init, init') + (if block == block' then 0 else 1)
    ensures Conversions(init + [block]) == Conversions(init) + (if Converts(block) then 1 else 0)
    ensures init + [block] == init' + [block'] <==> init == init' && block == block'
  {
    var a, b := init + [block], init' + [block'];
    assert a[..|init|] == init && b[..|init|] == init';
  }

  lemma {:induction false} BlocksAltered(blocks: seq<Json>)
    requires Accepts(blocks) && forall k :: 0 <= k < |blocks| ==> FromJson(blocks[k])
    ensures Differences(blocks, ScriptBlocks(blocks)) == Conversions(blocks)
    ensures Conversions(blocks) > 0 <==> ScriptBlocks(blocks) != blocks
  {
    if blocks != [] {
      var init, block := blocks[..|blocks| - 1], blocks[|blocks| - 1];
      assert blocks == init + [block];
      ScriptBlocksStep(init, block);
      BlocksAltered(init);
      BlockAltered(block);
      CountsStep(init, block, ScriptBlocks(init), ScriptBlock(block).value);
    }
  }

  lemma ScannedFromJson(source: Doc)
    requires DocFromJson(source)
    ensures forall k :: 0 <= k < |ScannedBlocks(source)| ==> FromJson(ScannedBlocks(source)[k])
  {
    if HasObject(source, "blog") && HasArray(source["blog"].fields, "blocks") {
      assert FromJson(source["blog"]);
      assert FromJson(source["blog"].fields["blocks"]);
    }
  }

  /** The script works on the blocks the scan walks. */
  lemma ScriptDocIs(source: Doc)
    requires ScriptDoc(source).Some?
    ensures Accepts(ScannedBlocks(source))
    ensures ScannedBlocks(ScriptDoc(source).value) == ScriptBlocks(ScannedBlocks(source))
    ensures ScriptDoc(source).value == source <==> ScriptBlocks(ScannedBlocks(source)) == ScannedBlocks(source)
  {
    var blocks := ScannedBlocks(source);
    if HasObject(source, "blog") && HasArray(source["blog"].fields, "blocks") {
      var blog := source["blog"].fields;
      if ScriptBlocks(blocks) == blocks {
        assert blog["blocks" := Array(blocks)] == blog;
        assert source["blog" := Object(blog)] == source;
      }
    } else {
      assert ScriptBlocks([]) == [];
    }
  }

  /**
   * On a document the script can process, the URLs the scan counted are exactly the
   * blocks it alters, and the document needed an update exactly if it is altered.
   */
  lemma ScanPredictsScript(source: Doc)
    requires DocFromJson(source) && ScriptDoc(source).Some?
    ensures var before, after := ScannedBlocks(source), ScannedBlocks(ScriptDoc(source).value);
      && |before| == |after|
      && Conversions(before) == Differences(before, after)
      && (Conversions(before) > 0 <==> ScriptDoc(source).value != source)
  {
    ScannedFromJson(source);
    ScriptDocIs(source);
    BlocksAltered(ScannedBlocks(source));
  }

  /** Blocks that the script alters, over all documents. */
  function BlocksChanged(sources: seq<Doc>): nat
    requires AllGood(sources)
  {
    if sources == [] then 0
    else
      var last := sources[|sources| - 1];
      ScriptDocIs(last);
      BlocksChanged(sources[..|sources| - 1]) + Differences(ScannedBlocks(last), ScannedBlocks(ScriptDoc(last).value))
  }

  /** Documents that the script alters. */
  function DocsChanged(sources: seq<Doc>): nat
    requires AllGood(sources)
  {
    if sources == [] then 0
    else
      DocsChanged(sources[..|sources| - 1])
      + (if ScriptDoc(sources[|sources| - 1]).value != sources[|sources| - 1] then 1 else 0)
  }

  predicate AllGood(sources: seq<Doc>) {
    forall k :: 0 <= k < |sources| ==> DocFromJson(sources[k]) && ScriptDoc(sources[k]).Some?
  }

  /** The totals the scan reports are the blocks and the documents the script will alter. */
  lemma {:induction false} TotalsPredict(sources: seq<Doc>)
    requires AllGood(sources)
    ensures UrlTotal(sources) == BlocksChanged(sources) && DocTotal(sources) == DocsChanged(sources)
  {
    if sources != [] {
      TotalsPredict(sources[..|sources| - 1]);
      ScanPredictsScript(sources[|sources| - 1]);
    }
  }

  // ------------------------------------------------------------ running the migration again

  /** Blocks whose URL keeps a v1 path after the first rewrite. */
  function Unfinished(blocks: seq<Json>): nat {
    if blocks == [] then 0
    else Unfinished(blocks[..|blocks| - 1]) + (if IsV1(Residue(FileUrl(blocks[|blocks| - 1]))) then 1 else 0)
  }

  lemma ConvertsAgain(block: Json)
    requires FromJson(block) && ScriptBlock(block).Some?
    ensures Converts(ScriptBlock(block).value) <==> IsV1(Residue(FileUrl(block)))
  {
    BlockAltered(block);
    var url := FileUrl(block);
    IdempotentIff(url);
    RewrittenDiffers(Preview(url));
    NothingInEmpty();
  }

  lemma BlocksStayGood(blocks: seq<Json>)
    requires Accepts(blocks) && forall k :: 0 <= k < |blocks| ==> FromJson(blocks[k])
    ensures Accepts(ScriptBlocks(blocks))
    ensures forall k :: 0 <= k < |blocks| ==> FromJson(ScriptBlocks(blocks)[k])
  {
    var after := ScriptBlocks(blocks);
    forall k | 0 <= k < |blocks| ensures FromJson(after[k]) && ScriptBlock(after[k]).Some? {
      BlockAltered(blocks[k]);
    }
  }

  lemma {:induction false} BlocksAgain(blocks: seq<Json>)
    requires Accepts(blocks) && forall k :: 0 <= k < |blocks| ==> FromJson(blocks[k])
    ensures Conversions(ScriptBlocks(blocks)) == Unfinished(blocks)
  {
    if blocks != [] {
      var init, block := blocks[..|blocks| - 1], blocks[|blocks| - 1];
      assert blocks == init + [block];
      ScriptBlocksStep(init, block);
      BlocksAgain(init);
      ConvertsAgain(block);
      var after := ScriptBlock(block).value;
      CountsStep(ScriptBlocks(init), after, ScriptBlocks(init), after);
    }
  }

  /**
   * A second scan finds exactly the URLs that kept a v1 path, and a second run changes
   * nothing exactly if there are none.
   */
  lemma SecondRun(source: Doc)
    requires DocFromJson(source) && ScriptDoc(source).Some?
    ensures var after := ScriptDoc(source).value;
      && Conversions(ScannedBlocks(after)) == Unfinished(ScannedBlocks(source))
      && ScriptDoc(after).Some?
      && (ScriptDoc(after).value == after <==> Unfinished(ScannedBlocks(source)) == 0)
  {
    var blocks := ScannedBlocks(source);
    ScannedFromJson(source);
    ScriptDocIs(source);
    BlocksAgain(blocks);
    BlocksStayGood(blocks);
    RunsAgain(source);
    ScriptDocIs(ScriptDoc(source).value);
    BlocksAltered(ScriptBlocks(blocks));
  }

  lemma RunsAgain(source: Doc)
    requires ScriptDoc(source).Some? && Accepts(ScannedBlocks(ScriptDoc(source).value))
    ensures ScriptDoc(ScriptDoc(source).value).Some?
  {
  }
}
