/**
 * The reindex job: scroll through a source index, enrich each document, bulk-index
 * the batch, count.  Elasticsearch is an environment that answers searches and bulks.
 */
module Reindex {
  import opened Json
  import opened SearchDoc

  type Id = string

  /** A hit's _source is whatever JSON the index returned. */
  datatype Hit = Hit(id: Id, source: Json)

  datatype BulkOp = BulkOp(id: Id, doc: Doc)

  /** Answer to a search or scroll request. */
  datatype PageReply =
    | PageFailed                    // transport, status or decoding error
    | Page(hits: seq<Hit>)

  /**
   * Answer to a bulk request.  `applied` says which operations the index performed; a
   * caller only sees the rest.  `items` has a map of statuses for each item.
   */
  datatype BulkReply =
    | Unreachable(applied: set<nat>)              // no answer, or an answer that does not decode
    | HttpError(applied: set<nat>)
    | Items(items: seq<seq<int>>, applied: set<nat>)

  datatype Stats = Stats(read: nat, written: nat, skipped: nat, errors: nat)

  datatype Error = None | SearchError | BulkError | ScrollError

  predicate IsSuccess(status: int) {
    200 <= status < 300
  }

  // ------------------------------------------------------------ specification

  predicate IsDoc(h: Hit) {
    h.source.Object?
  }

  /** The operations a page turns into: one for every hit with an object source. */
  function Batch(hits: seq<Hit>, lower: Lower): seq<BulkOp> {
    if hits == [] then []
    else
      var h := hits[|hits| - 1];
      Batch(hits[..|hits| - 1], lower) + (if IsDoc(h) then [BulkOp(h.id, Applied(h.source.fields, lower))] else [])
  }

  function Skipped(hits: seq<Hit>): nat {
    if hits == [] then 0
    else Skipped(hits[..|hits| - 1]) + (if IsDoc(hits[|hits| - 1]) then 0 else 1)
  }

  function Count(statuses: seq<int>, good: bool): nat {
    if statuses == [] then 0
    else Count(statuses[..|statuses| - 1], good) + (if IsSuccess(statuses[|statuses| - 1]) == good then 1 else 0)
  }

  function CountAll(items: seq<seq<int>>, good: bool): nat {
    if items == [] then 0 else CountAll(items[..|items| - 1], good) + Count(items[|items| - 1], good)
  }

  /** Performs those of the operations whose position is in `applied`, in order. */
  function Perform(docs: map<Id, Doc>, ops: seq<BulkOp>, applied: set<nat>): map<Id, Doc> {
    if ops == [] then docs
    else
      var n := |ops| - 1;
      var before := Perform(docs, ops[..n], applied);
      if n in applied then before[ops[n].id := WireDoc(ops[n].doc)] else before
  }

  function Written(ops: seq<BulkOp>, reply: BulkReply): nat {
    if reply.Items? then CountAll(reply.items, true) else 0
  }

  function Failed(ops: seq<BulkOp>, reply: BulkReply): nat {
    match reply
    case Unreachable(_) => 0
    case HttpError(_) => |ops|
    case Items(items, _) => CountAll(items, false)
  }

  /** The counters after one page. */
  function CountPage(st: Stats, hits: seq<Hit>, dryRun: bool, reply: BulkReply, lower: Lower): Stats {
    var ops := Batch(hits, lower);
    var seen := st.(read := st.read + |hits|, skipped := st.skipped + Skipped(hits));
    if dryRun || ops == [] then seen.(written := seen.written + |ops|)
    else seen.(written := seen.written + Written(ops, reply), errors := seen.errors + Failed(ops, reply))
  }

  /** The destination after one page. */
  function StorePage(docs: map<Id, Doc>, hits: seq<Hit>, dryRun: bool, reply: BulkReply, lower: Lower): map<Id, Doc> {
    if dryRun then docs else Perform(docs, Batch(hits, lower), reply.applied)
  }

  /** Where a run stands: what it has stored and counted, and how it ended. */
  datatype RunEnd = RunEnd(docs: map<Id, Doc>, st: Stats, err: Error)

  /**
   * The loop of run from page `n` on.  `pages[n]` answers the n-th request of the
   * scroll and `bulks(n)` the bulk of that page; requests beyond `pages` fail.
   */
  function Loop(docs: map<Id, Doc>, st: Stats, pages: seq<PageReply>, bulks: nat -> BulkReply, n: nat,
                dryRun: bool, lower: Lower): RunEnd
    decreases |pages| - n
  {
    if n >= |pages| || pages[n].PageFailed? then RunEnd(docs, st, if n == 0 then SearchError else ScrollError)
    else if pages[n].hits == [] then RunEnd(docs, st, None)
    else
      var hits := pages[n].hits;
      var docs' := StorePage(docs, hits, dryRun, bulks(n), lower);
      var st' := CountPage(st, hits, dryRun, bulks(n), lower);
      if !dryRun && Batch(hits, lower) != [] && !bulks(n).Items? then RunEnd(docs', st', BulkError)
      else Loop(docs', st', pages, bulks, n + 1, dryRun, lower)
  }

  /** The statuses of all items, in order. */
  function AllStatuses(items: seq<seq<int>>): seq<int> {
    if items == [] then [] else AllStatuses(items[..|items| - 1]) + items[|items| - 1]
  }

  /** How many of the numbers lie from `low` up to but not including `high`. */
  function Between(xs: seq<int>, low: int, high: int): nat {
    if xs == [] then 0
    else Between(xs[..|xs| - 1], low, high) + (if low <= xs[|xs| - 1] < high then 1 else 0)
  }

  lemma {:induction false} BetweenConcat(a: seq<int>, b: seq<int>, low: int, high: int)
    ensures Between(a + b, low, high) == Between(a, low, high) + Between(b, low, high)
    decreases |b|
  {
    if b == [] {
      assert a + b == a;
    } else {
      var n := |b| - 1;
      assert (a + b)[..|a| + n] == a + b[..n];
      BetweenConcat(a, b[..n], low, high);
    }
  }

  lemma {:induction false} CountIsBetween(statuses: seq<int>)
    ensures Count(statuses, true) == Between(statuses, 200, 300)
    ensures Count(statuses, false) == |statuses| - Between(statuses, 200, 300)
  {
    if statuses != [] { CountIsBetween(statuses[..|statuses| - 1]); }
  }

  /** Written are the statuses from 200 to 299, failed are all others. */
  lemma {:induction false} CountAllIsBetween(items: seq<seq<int>>)
    ensures CountAll(items, true) == Between(AllStatuses(items), 200, 300)
    ensures CountAll(items, false) == |AllStatuses(items)| - Between(AllStatuses(items), 200, 300)
  {
    if items != [] {
      var init, last := items[..|items| - 1], items[|items| - 1];
      CountAllIsBetween(init);
      CountIsBetween(last);
      BetweenConcat(AllStatuses(init), last, 200, 300);
    }
  }

  /** Some hit of the page has an object source. */
  predicate AnyDoc(hits: seq<Hit>) {
    exists i :: 0 <= i < |hits| && IsDoc(hits[i])
  }

  lemma {:induction false} BatchEmptyIff(hits: seq<Hit>, lower: Lower)
    ensures Batch(hits, lower) == [] <==> !AnyDoc(hits)
  {
    if hits != [] {
      var init := hits[..|hits| - 1];
      BatchEmptyIff(init, lower);
      if AnyDoc(init) {
        var i :| 0 <= i < |init| && IsDoc(init[i]);
        assert IsDoc(hits[i]);
      } else if !IsDoc(hits[|hits| - 1]) {
        assert forall i :: 0 <= i < |init| ==> init[i] == hits[i];
      }
    }
  }

  /** The page is written without the run giving up. */
  predicate Passes(hits: seq<Hit>, dryRun: bool, reply: BulkReply) {
    hits != [] && (dryRun || !AnyDoc(hits) || reply.Items?)
  }

  /** One turn of the loop of run. */
  lemma LoopTurn(docs: map<Id, Doc>, st: Stats, pages: seq<PageReply>, bulks: nat -> BulkReply, n: nat,
                 dryRun: bool, lower: Lower)
    requires n < |pages| && pages[n].Page? && pages[n].hits != []
    ensures var docs', st' := StorePage(docs, pages[n].hits, dryRun, bulks(n), lower),
                              CountPage(st, pages[n].hits, dryRun, bulks(n), lower);
      Loop(docs, st, pages, bulks, n, dryRun, lower) ==
        if Passes(pages[n].hits, dryRun, bulks(n)) then Loop(docs', st', pages, bulks, n + 1, dryRun, lower)
        else RunEnd(docs', st', BulkError)
  {
    BatchEmptyIff(pages[n].hits, lower);
  }

  // ------------------------------------------------------------ the job

  /** The destination index. */
  class Index {
    var docs: map<Id, Doc>

    constructor (docs: map<Id, Doc>)
      ensures this.docs == docs
    {
      this.docs := docs;
    }

    /** Indexing under an id replaces what was there. */
    method Bulk(ops: seq<BulkOp>, applied: set<nat>)
      modifies this
      ensures docs == Perform(old(docs), ops, applied)
    {
      for i := 0 to |ops|
        invariant docs == Perform(old(docs), ops[..i], applied)
      {
        assert ops[..i + 1][..i] == ops[..i];
        if i in applied {
          docs := docs[ops[i].id := WireDoc(ops[i].doc)];
        }
      }
      assert ops[..|ops|] == ops;
    }
  }

  method BulkIndex(dst: Index, ops: seq<BulkOp>, reply: BulkReply)
      returns (written: nat, failed: nat, ok: bool)
    modifies dst
    ensures dst.docs == Perform(old(dst.docs), ops, reply.applied)
    ensures written == Written(ops, reply) && failed == Failed(ops, reply) && ok == reply.Items?
    ensures reply.Items? ==>
              && written == Between(AllStatuses(reply.items), 200, 300)
              && failed == |AllStatuses(reply.items)| - written
    ensures reply.HttpError? ==> written == 0 && failed == |ops|
    ensures reply.Unreachable? ==> written == failed == 0
  {
    if reply.Items? { CountAllIsBetween(reply.items); }
    dst.Bulk(ops, reply.applied);
    match reply {
      case Unreachable(_) => return 0, 0, false;
      case HttpError(_) => return 0, |ops|, false;
      case Items(items, _) =>
        written, failed := 0, 0;
        for i := 0 to |items|
          invariant written == CountAll(items[..i], true) && failed == CountAll(items[..i], false)
        {
          assert items[..i + 1][..i] == items[..i];
          var statuses := items[i];
          ghost var w, f := written, failed;
          for j := 0 to |statuses|
            invariant written == w + Count(statuses[..j], true) && failed == f + Count(statuses[..j], false)
          {
            assert statuses[..j + 1][..j] == statuses[..j];
            if 200 <= statuses[j] && statuses[j] < 300 {
              written := written + 1;
            } else {
              failed := failed + 1;
            }
          }
          assert statuses[..|statuses|] == statuses;
        }
        assert items[..|items|] == items;
        return written, failed, true;
    }
  }

  /** Turns the hits of a page into operations, counting those without an object source. */
  method BuildBatch(hits: seq<Hit>, lower: Lower) returns (batch: seq<BulkOp>, skipped: nat)
    ensures batch == Batch(hits, lower) && skipped == Skipped(hits)
  {
    batch, skipped := [], 0;
    for i := 0 to |hits|
      invariant batch == Batch(hits[..i], lower) && skipped == Skipped(hits[..i])
    {
      assert hits[..i + 1][..i] == hits[..i];
      if hits[i].source.Object? {
        var enriched := Apply(hits[i].source.fields, lower);
        batch := batch + [BulkOp(hits[i].id, enriched)];
      } else {
        skipped := skipped + 1;
      }
    }
    assert hits[..|hits|] == hits;
  }

  /** The body of the loop of run, up to the next page; `ok` unless the bulk gave up. */
  method HandlePage(dst: Index, hits: seq<Hit>, reply: BulkReply, dryRun: bool, before: Stats, lower: Lower)
      returns (st: Stats, ok: bool)
    requires hits != []
    modifies dst
    ensures dst.docs == StorePage(old(dst.docs), hits, dryRun, reply, lower)
    ensures st == CountPage(before, hits, dryRun, reply, lower) && ok == Passes(hits, dryRun, reply)
  {
    st := before.(read := before.read + |hits|);
    var batch, skipped := BuildBatch(hits, lower);
    BatchEmptyIff(hits, lower);
    st := st.(skipped := st.skipped + skipped);
    if !dryRun && |batch| > 0 {
      var written, errCount;
      written, errCount, ok := BulkIndex(dst, batch, reply);
      st := st.(written := st.written + written, errors := st.errors + errCount);
    } else {
      ok := true;
      st := st.(written := st.written + |batch|);
    }
  }

  method Run(dst: Index, pages: seq<PageReply>, bulks: nat -> BulkReply, dryRun: bool, lower: Lower)
      returns (st: Stats, err: Error)
    modifies dst
    ensures RunEnd(dst.docs, st, err) == Loop(old(dst.docs), Stats(0, 0, 0, 0), pages, bulks, 0, dryRun, lower)
  {
    st := Stats(0, 0, 0, 0);
    if pages == [] || pages[0].PageFailed? {
      return st, SearchError;
    }
    var n, hits := 0, pages[0].hits;
    ghost var end := Loop(dst.docs, st, pages, bulks, 0, dryRun, lower);
    while hits != []
      invariant n < |pages| && pages[n] == Page(hits)
      invariant Loop(dst.docs, st, pages, bulks, n, dryRun, lower) == end
      decreases |pages| - n
    {
      var ok;
      LoopTurn(dst.docs, st, pages, bulks, n, dryRun, lower);
      st, ok := HandlePage(dst, hits, bulks(n), dryRun, st, lower);
      if !ok {
        return st, BulkError;
      }
      n := n + 1;
      if n == |pages| || pages[n].PageFailed? {
        return st, ScrollError;
      }
      hits := pages[n].hits;
    }
    return st, None;
  }
}
