/**
 * What a reindex run promises about the destination index and about its counters.
 */
module ReindexTheorems {
  import opened Json
  import opened SearchDoc
  import opened SearchDocTheorems
  import opened ApplyTheorems
  import opened Reindex

  // ------------------------------------------------------------ a run is a prefix of the pages

  /** The destination after the first `m` pages. */
  function StoredPages(docs: map<Id, Doc>, pages: seq<PageReply>, bulks: nat -> BulkReply, m: nat,
                       dryRun: bool, lower: Lower): map<Id, Doc>
    requires m <= |pages| && forall k :: 0 <= k < m ==> pages[k].Page?
  {
    if m == 0 then docs
    else
      var before := StoredPages(docs, pages, bulks, m - 1, dryRun, lower);
      StorePage(before, pages[m - 1].hits, dryRun, bulks(m - 1), lower)
  }

  /** The counters after the first `m` pages. */
  function CountedPages(pages: seq<PageReply>, bulks: nat -> BulkReply, m: nat, dryRun: bool, lower: Lower): Stats
    requires m <= |pages| && forall k :: 0 <= k < m ==> pages[k].Page?
  {
    if m == 0 then Stats(0, 0, 0, 0)
    else CountPage(CountedPages(pages, bulks, m - 1, dryRun, lower), pages[m - 1].hits, dryRun, bulks(m - 1), lower)
  }

  /** How many pages a run handles that has got to page `n`, the one that ends it included. */
  function Handled(pages: seq<PageReply>, bulks: nat -> BulkReply, n: nat, dryRun: bool): nat
    decreases |pages| - n
  {
    if n >= |pages| || pages[n].PageFailed? || pages[n].hits == [] then n
    else if Passes(pages[n].hits, dryRun, bulks(n)) then Handled(pages, bulks, n + 1, dryRun)
    else n + 1
  }

  /** Why a run that handled `m` pages stopped there. */
  ghost predicate StopsAfter(pages: seq<PageReply>, bulks: nat -> BulkReply, m: nat, err: Error,
                             dryRun: bool)
  {
    && m <= |pages| && (forall k :: 0 <= k < m ==> pages[k].Page? && pages[k].hits != [])
    && (forall k :: 0 <= k < m - 1 ==> Passes(pages[k].hits, dryRun, bulks(k)))
    && (m > 0 ==> (err.BulkError? <==> !Passes(pages[m - 1].hits, dryRun, bulks(m - 1))))
    && match err
       case BulkError => m > 0
       case None => m < |pages| && pages[m] == Page([])
       case SearchError => m == 0 && (pages == [] || pages[0].PageFailed?)
       case ScrollError => m > 0 && (m == |pages| || pages[m].PageFailed?)
  }

  /** From page `n` on, the run gets past every page before `m` but perhaps the last, and stops there. */
  predicate StopsFrom(pages: seq<PageReply>, bulks: nat -> BulkReply, n: nat, m: nat, dryRun: bool) {
    && n <= m <= |pages|
    && (forall k :: n <= k < m ==> pages[k].Page? && pages[k].hits != [])
    && (forall k :: n <= k < m - 1 ==> Passes(pages[k].hits, dryRun, bulks(k)))
    && (m == |pages| || pages[m].PageFailed? || pages[m].hits == []
        || (m > n && !Passes(pages[m - 1].hits, dryRun, bulks(m - 1))))
  }

  lemma StopsFromEarlier(pages: seq<PageReply>, bulks: nat -> BulkReply, n: nat, m: nat, dryRun: bool)
    requires n < |pages| && pages[n].Page? && Passes(pages[n].hits, dryRun, bulks(n))
    requires StopsFrom(pages, bulks, n + 1, m, dryRun)
    ensures StopsFrom(pages, bulks, n, m, dryRun)
  {
  }

  lemma {:induction false} HandledPages(pages: seq<PageReply>, bulks: nat -> BulkReply, n: nat,
                                        dryRun: bool)
    requires n <= |pages|
    ensures StopsFrom(pages, bulks, n, Handled(pages, bulks, n, dryRun), dryRun)
    decreases |pages| - n
  {
    if n < |pages| && pages[n].Page? && Passes(pages[n].hits, dryRun, bulks(n)) {
      HandledPages(pages, bulks, n + 1, dryRun);
      StopsFromEarlier(pages, bulks, n, Handled(pages, bulks, n + 1, dryRun), dryRun);
    }
  }

  /** The error of a run that has handled `m` pages. */
  function ErrorAfter(pages: seq<PageReply>, bulks: nat -> BulkReply, m: nat, dryRun: bool): Error
    requires m <= |pages| && (m > 0 ==> pages[m - 1].Page?)
  {
    if m > 0 && !Passes(pages[m - 1].hits, dryRun, bulks(m - 1)) then BulkError
    else if m == |pages| || pages[m].PageFailed? then (if m == 0 then SearchError else ScrollError)
    else None
  }

  /** `after` and `st` are what the first `n` pages leave in the destination and the counters. */
  predicate After(docs: map<Id, Doc>, pages: seq<PageReply>, bulks: nat -> BulkReply, n: nat, dryRun: bool,
                  lower: Lower, after: map<Id, Doc>, st: Stats)
  {
    && n <= |pages| && (forall k :: 0 <= k < n ==> pages[k].Page?)
    && after == StoredPages(docs, pages, bulks, n, dryRun, lower)
    && st == CountedPages(pages, bulks, n, dryRun, lower)
  }

  lemma AfterOneMore(docs: map<Id, Doc>, pages: seq<PageReply>, bulks: nat -> BulkReply, n: nat, dryRun: bool,
                     lower: Lower, after: map<Id, Doc>, st: Stats)
    requires After(docs, pages, bulks, n, dryRun, lower, after, st) && n < |pages| && pages[n].Page?
    ensures After(docs, pages, bulks, n + 1, dryRun, lower,
                  StorePage(after, pages[n].hits, dryRun, bulks(n), lower),
                  CountPage(st, pages[n].hits, dryRun, bulks(n), lower))
  {
  }

  /** The run ends in `end` if it gets to page `n` with this destination and these counters. */
  predicate LeadsTo(docs: map<Id, Doc>, st: Stats, pages: seq<PageReply>, bulks: nat -> BulkReply, n: nat,
                    dryRun: bool, lower: Lower, end: RunEnd) {
    Loop(docs, st, pages, bulks, n, dryRun, lower) == end
  }

  lemma LeadsOn(docs: map<Id, Doc>, st: Stats, pages: seq<PageReply>, bulks: nat -> BulkReply, n: nat,
                dryRun: bool, lower: Lower, end: RunEnd)
    requires n < |pages| && pages[n].Page? && Passes(pages[n].hits, dryRun, bulks(n))
    requires LeadsTo(docs, st, pages, bulks, n, dryRun, lower, end)
    ensures LeadsTo(StorePage(docs, pages[n].hits, dryRun, bulks(n), lower),
                    CountPage(st, pages[n].hits, dryRun, bulks(n), lower), pages, bulks, n + 1, dryRun, lower, end)
  {
    LoopTurn(docs, st, pages, bulks, n, dryRun, lower);
  }

  lemma {:induction false} Leads(docs: map<Id, Doc>, pages: seq<PageReply>, bulks: nat -> BulkReply, n: nat,
                                 dryRun: bool, lower: Lower, end: RunEnd)
      returns (after: map<Id, Doc>, st: Stats)
    requires n <= |pages| && forall k :: 0 <= k < n ==> pages[k].Page? && Passes(pages[k].hits, dryRun, bulks(k))
    requires LeadsTo(docs, Stats(0, 0, 0, 0), pages, bulks, 0, dryRun, lower, end)
    ensures After(docs, pages, bulks, n, dryRun, lower, after, st)
    ensures LeadsTo(after, st, pages, bulks, n, dryRun, lower, end)
  {
    after, st := docs, Stats(0, 0, 0, 0);
    if n > 0 {
      var before, counted := Leads(docs, pages, bulks, n - 1, dryRun, lower, end);
      LeadsOn(before, counted, pages, bulks, n - 1, dryRun, lower, end);
      AfterOneMore(docs, pages, bulks, n - 1, dryRun, lower, before, counted);
      after := StorePage(before, pages[n - 1].hits, dryRun, bulks(n - 1), lower);
      st := CountPage(counted, pages[n - 1].hits, dryRun, bulks(n - 1), lower);
    }
  }

  /** A run gets past any pages that are written without it giving up. */
  lemma LoopReaches(docs: map<Id, Doc>, pages: seq<PageReply>, bulks: nat -> BulkReply, n: nat,
                    dryRun: bool, lower: Lower) returns (after: map<Id, Doc>, st: Stats)
    requires n <= |pages| && forall k :: 0 <= k < n ==> pages[k].Page? && Passes(pages[k].hits, dryRun, bulks(k))
    ensures After(docs, pages, bulks, n, dryRun, lower, after, st)
    ensures Loop(docs, Stats(0, 0, 0, 0), pages, bulks, 0, dryRun, lower)
         == Loop(after, st, pages, bulks, n, dryRun, lower)
  {
    after, st := Leads(docs, pages, bulks, n, dryRun, lower,
                       Loop(docs, Stats(0, 0, 0, 0), pages, bulks, 0, dryRun, lower));
  }

  /** It ends in a bulk that gives up, ... */
  lemma EndsInBulk(docs: map<Id, Doc>, pages: seq<PageReply>, bulks: nat -> BulkReply, m: nat,
                   dryRun: bool, lower: Lower) returns (after: map<Id, Doc>, st: Stats)
    requires 0 < m <= |pages| && forall k :: 0 <= k < m ==> pages[k].Page? && pages[k].hits != []
    requires forall k :: 0 <= k < m - 1 ==> Passes(pages[k].hits, dryRun, bulks(k))
    requires !Passes(pages[m - 1].hits, dryRun, bulks(m - 1))
    ensures After(docs, pages, bulks, m, dryRun, lower, after, st)
    ensures Loop(docs, Stats(0, 0, 0, 0), pages, bulks, 0, dryRun, lower) == RunEnd(after, st, BulkError)
  {
    var end := Loop(docs, Stats(0, 0, 0, 0), pages, bulks, 0, dryRun, lower);
    var before, counted := Leads(docs, pages, bulks, m - 1, dryRun, lower, end);
    after := StorePage(before, pages[m - 1].hits, dryRun, bulks(m - 1), lower);
    st := CountPage(counted, pages[m - 1].hits, dryRun, bulks(m - 1), lower);
    LeadsToBulkError(before, counted, pages, bulks, m - 1, dryRun, lower, end);
    AfterOneMore(docs, pages, bulks, m - 1, dryRun, lower, before, counted);
  }

  lemma LeadsToBulkError(docs: map<Id, Doc>, st: Stats, pages: seq<PageReply>, bulks: nat -> BulkReply, n: nat,
                         dryRun: bool, lower: Lower, end: RunEnd)
    requires n < |pages| && pages[n].Page? && pages[n].hits != [] && !Passes(pages[n].hits, dryRun, bulks(n))
    requires LeadsTo(docs, st, pages, bulks, n, dryRun, lower, end)
    ensures end == RunEnd(StorePage(docs, pages[n].hits, dryRun, bulks(n), lower),
                          CountPage(st, pages[n].hits, dryRun, bulks(n), lower), BulkError)
  {
    LoopTurn(docs, st, pages, bulks, n, dryRun, lower);
  }

  /** ... or where there is no page to go on with. */
  lemma EndsAtPage(docs: map<Id, Doc>, pages: seq<PageReply>, bulks: nat -> BulkReply, m: nat,
                   dryRun: bool, lower: Lower) returns (after: map<Id, Doc>, st: Stats)
    requires m <= |pages|
    requires forall k :: 0 <= k < m ==> pages[k].Page? && Passes(pages[k].hits, dryRun, bulks(k))
    requires m == |pages| || pages[m].PageFailed? || pages[m].hits == []
    ensures After(docs, pages, bulks, m, dryRun, lower, after, st)
    ensures Loop(docs, Stats(0, 0, 0, 0), pages, bulks, 0, dryRun, lower)
         == RunEnd(after, st, ErrorAfter(pages, bulks, m, dryRun))
  {
    after, st := LoopReaches(docs, pages, bulks, m, dryRun, lower);
    LoopStops(after, st, pages, bulks, m, dryRun, lower);
  }

  lemma LoopStops(docs: map<Id, Doc>, st: Stats, pages: seq<PageReply>, bulks: nat -> BulkReply, m: nat,
                  dryRun: bool, lower: Lower)
    requires m <= |pages| && (m == |pages| || pages[m].PageFailed? || pages[m].hits == [])
    requires m > 0 ==> pages[m - 1].Page? && Passes(pages[m - 1].hits, dryRun, bulks(m - 1))
    ensures Loop(docs, st, pages, bulks, m, dryRun, lower)
         == RunEnd(docs, st, ErrorAfter(pages, bulks, m, dryRun))
  {
  }

  lemma StopsHandled(pages: seq<PageReply>, bulks: nat -> BulkReply, m: nat, dryRun: bool)
    requires m == Handled(pages, bulks, 0, dryRun)
    ensures m <= |pages| && (m > 0 ==> pages[m - 1].Page?)
    ensures StopsAfter(pages, bulks, m, ErrorAfter(pages, bulks, m, dryRun), dryRun)
  {
    HandledPages(pages, bulks, 0, dryRun);
  }

  /**
   * Whatever happens, a run has stored and counted exactly the pages before the one that
   * ended it, and if a bulk ended it, that page as far as the index performed it.
   */
  lemma RunIsPrefix(docs: map<Id, Doc>, pages: seq<PageReply>, bulks: nat -> BulkReply, dryRun: bool, lower: Lower)
      returns (m: nat)
    ensures var o := Loop(docs, Stats(0, 0, 0, 0), pages, bulks, 0, dryRun, lower);
      && StopsAfter(pages, bulks, m, o.err, dryRun) && o.err == ErrorAfter(pages, bulks, m, dryRun)
      && o.docs == StoredPages(docs, pages, bulks, m, dryRun, lower)
      && o.st == CountedPages(pages, bulks, m, dryRun, lower)
      && (dryRun ==> o.docs == docs)
    ensures m == Handled(pages, bulks, 0, dryRun)
  {
    m := Handled(pages, bulks, 0, dryRun);
    HandledPages(pages, bulks, 0, dryRun);
    StopsHandled(pages, bulks, m, dryRun);
    if m > 0 && !Passes(pages[m - 1].hits, dryRun, bulks(m - 1)) {
      var after, st := EndsInBulk(docs, pages, bulks, m, dryRun, lower);
    } else {
      var after, st := EndsAtPage(docs, pages, bulks, m, dryRun, lower);
    }
    if dryRun { DryRunStoresNothing(docs, pages, bulks, m, lower); }
  }

  lemma {:induction false} DryRunStoresNothing(docs: map<Id, Doc>, pages: seq<PageReply>, bulks: nat -> BulkReply,
                                               m: nat, lower: Lower)
    requires m <= |pages| && forall k :: 0 <= k < m ==> pages[k].Page?
    ensures StoredPages(docs, pages, bulks, m, true, lower) == docs
  {
    if m > 0 { DryRunStoresNothing(docs, pages, bulks, m - 1, lower); }
  }

  // ------------------------------------------------------------ the counters

  predicate AddsUp(st: Stats) {
    st.read == st.written + st.skipped + st.errors
  }

  lemma {:induction false} BatchAndSkipped(hits: seq<Hit>, lower: Lower)
    ensures |Batch(hits, lower)| + Skipped(hits) == |hits|
  {
    if hits != [] { BatchAndSkipped(hits[..|hits| - 1], lower); }
  }

  /** Number of statuses in a bulk answer. */
  function Statuses(items: seq<seq<int>>): nat {
    if items == [] then 0 else Statuses(items[..|items| - 1]) + |items[|items| - 1]|
  }

  lemma {:induction false} CountsSplit(statuses: seq<int>)
    ensures Count(statuses, true) + Count(statuses, false) == |statuses|
  {
    if statuses != [] { CountsSplit(statuses[..|statuses| - 1]); }
  }

  lemma {:induction false} CountAllSplit(items: seq<seq<int>>)
    ensures CountAll(items, true) + CountAll(items, false) == Statuses(items)
  {
    if items != [] {
      CountAllSplit(items[..|items| - 1]);
      CountsSplit(items[|items| - 1]);
    }
  }

  /** Every operation of the page is counted once. */
  predicate Accounted(hits: seq<Hit>, dryRun: bool, reply: BulkReply, lower: Lower) {
    dryRun || Batch(hits, lower) == [] || reply.HttpError?
    || (reply.Items? && Statuses(reply.items) == |Batch(hits, lower)|)
  }

  /** A page keeps read = written + skipped + errors exactly if each operation gets one status. */
  lemma PageBalancedIff(st: Stats, hits: seq<Hit>, dryRun: bool, reply: BulkReply, lower: Lower)
    requires AddsUp(st)
    ensures AddsUp(CountPage(st, hits, dryRun, reply, lower)) <==> Accounted(hits, dryRun, reply, lower)
  {
    BatchAndSkipped(hits, lower);
    if reply.Items? { CountAllSplit(reply.items); }
  }

  lemma {:induction false} PagesBalanced(pages: seq<PageReply>, bulks: nat -> BulkReply, m: nat,
                                         dryRun: bool, lower: Lower)
    requires m <= |pages|
    requires forall k :: 0 <= k < m ==> pages[k].Page? && Accounted(pages[k].hits, dryRun, bulks(k), lower)
    ensures AddsUp(CountedPages(pages, bulks, m, dryRun, lower))
  {
    if m > 0 {
      PagesBalanced(pages, bulks, m - 1, dryRun, lower);
      PageBalancedIff(CountedPages(pages, bulks, m - 1, dryRun, lower), pages[m - 1].hits, dryRun, bulks(m - 1), lower);
    }
  }

  /** The counters balance at the end of every run whose bulk answers account for each operation. */
  lemma RunBalanced(docs: map<Id, Doc>, pages: seq<PageReply>, bulks: nat -> BulkReply, dryRun: bool, lower: Lower)
    requires forall k :: 0 <= k < |pages| && pages[k].Page? ==> Accounted(pages[k].hits, dryRun, bulks(k), lower)
    ensures AddsUp(Loop(docs, Stats(0, 0, 0, 0), pages, bulks, 0, dryRun, lower).st)
  {
    var m := RunIsPrefix(docs, pages, bulks, dryRun, lower);
    PagesBalanced(pages, bulks, m, dryRun, lower);
  }

  /** How many hits have an object source. */
  function Sources(hits: seq<Hit>): nat {
    if hits == [] then 0 else Sources(hits[..|hits| - 1]) + (if hits[|hits| - 1].source.Object? then 1 else 0)
  }

  lemma {:induction false} SourcesConcat(a: seq<Hit>, b: seq<Hit>)
    ensures Sources(a + b) == Sources(a) + Sources(b)
    decreases |b|
  {
    if b == [] {
      assert a + b == a;
    } else {
      var n := |b| - 1;
      assert (a + b)[..|a| + n] == a + b[..n];
      SourcesConcat(a, b[..n]);
    }
  }

  lemma {:induction false} SkippedIs(hits: seq<Hit>)
    ensures Skipped(hits) == |hits| - Sources(hits)
  {
    if hits != [] { SkippedIs(hits[..|hits| - 1]); }
  }

  /** What one page adds to the counters. */
  lemma PageCounts(st: Stats, hits: seq<Hit>, dryRun: bool, reply: BulkReply, lower: Lower)
    ensures var st' := CountPage(st, hits, dryRun, reply, lower);
      && st'.read == st.read + |hits| && st'.skipped == st.skipped + |hits| - Sources(hits)
      && (dryRun ==> st'.written == st.written + Sources(hits) && st'.errors == st.errors)
  {
    SkippedIs(hits);
    BatchAndSkipped(hits, lower);
  }

  lemma {:induction false} PagesCounts(pages: seq<PageReply>, bulks: nat -> BulkReply, m: nat,
                                       dryRun: bool, lower: Lower)
    requires m <= |pages| && forall k :: 0 <= k < m ==> pages[k].Page?
    ensures var st, hits := CountedPages(pages, bulks, m, dryRun, lower), Delivered(pages, m);
      && st.read == |hits| && st.skipped == |hits| - Sources(hits)
      && (dryRun ==> st.written == Sources(hits) && st.errors == 0)
  {
    if m > 0 {
      PagesCounts(pages, bulks, m - 1, dryRun, lower);
      PageCounts(CountedPages(pages, bulks, m - 1, dryRun, lower), pages[m - 1].hits, dryRun, bulks(m - 1), lower);
      SourcesConcat(Delivered(pages, m - 1), pages[m - 1].hits);
    }
  }

  /**
   * In every run, read counts the hits delivered and skipped those without an object source;
   * in a dry run, written counts those with one and there are no errors.
   */
  lemma CountsDelivered(docs: map<Id, Doc>, pages: seq<PageReply>, bulks: nat -> BulkReply,
                        dryRun: bool, lower: Lower) returns (m: nat)
    ensures m == Handled(pages, bulks, 0, dryRun)
    ensures m <= |pages| && forall k :: 0 <= k < m ==> pages[k].Page?
    ensures var o, hits := Loop(docs, Stats(0, 0, 0, 0), pages, bulks, 0, dryRun, lower), Delivered(pages, m);
      && o.st.read == |hits| && o.st.skipped == |hits| - Sources(hits)
      && (dryRun ==> o.st.written == Sources(hits) && o.st.errors == 0 && o.docs == docs)
  {
    m := RunIsPrefix(docs, pages, bulks, dryRun, lower);
    PagesCounts(pages, bulks, m, dryRun, lower);
  }

  // ------------------------------------------------------------ the destination index

  /** Stores every hit that has an object source under its id, in order. */
  function Upsert(docs: map<Id, Doc>, hits: seq<Hit>, lower: Lower): map<Id, Doc> {
    if hits == [] then docs
    else
      var h := hits[|hits| - 1];
      var before := Upsert(docs, hits[..|hits| - 1], lower);
      if IsDoc(h) then before[h.id := Stored(h.source.fields, lower)] else before
  }

  /** Every operation of the bulk was performed. */
  ghost predicate AllPerformed(ops: seq<BulkOp>, reply: BulkReply) {
    forall i :: 0 <= i < |ops| ==> i in reply.applied
  }

  lemma {:induction false} PerformIsUpsert(docs: map<Id, Doc>, hits: seq<Hit>, applied: set<nat>, lower: Lower)
    requires forall i :: 0 <= i < |Batch(hits, lower)| ==> i in applied
    ensures Perform(docs, Batch(hits, lower), applied) == Upsert(docs, hits, lower)
  {
    if hits != [] {
      var init, h := hits[..|hits| - 1], hits[|hits| - 1];
      assert hits == init + [h];
      BatchStep(init, h, lower);
      UpsertStep(docs, init, h, lower);
      PerformIsUpsert(docs, init, applied, lower);
      if IsDoc(h) {
        assert |Batch(init, lower)| in applied;
        PerformStep(docs, Batch(init, lower), OpFor(h, lower), applied);
      }
    }
  }

  function OpFor(h: Hit, lower: Lower): BulkOp
    requires IsDoc(h)
  {
    BulkOp(h.id, Applied(h.source.fields, lower))
  }

  lemma BatchStep(init: seq<Hit>, h: Hit, lower: Lower)
    ensures Batch(init + [h], lower) ==
            if IsDoc(h) then Batch(init, lower) + [OpFor(h, lower)] else Batch(init, lower)
  {
    assert (init + [h])[..|init|] == init;
  }

  lemma UpsertStep(docs: map<Id, Doc>, init: seq<Hit>, h: Hit, lower: Lower)
    ensures var before := Upsert(docs, init, lower);
      Upsert(docs, init + [h], lower) == if IsDoc(h) then before[h.id := Stored(h.source.fields, lower)] else before
  {
    assert (init + [h])[..|init|] == init;
  }

  lemma PerformStep(docs: map<Id, Doc>, ops: seq<BulkOp>, op: BulkOp, applied: set<nat>)
    ensures var before := Perform(docs, ops, applied);
      Perform(docs, ops + [op], applied) == if |ops| in applied then before[op.id := WireDoc(op.doc)] else before
  {
    assert (ops + [op])[..|ops|] == ops;
  }

  /** All hits of the first `m` pages. */
  function Delivered(pages: seq<PageReply>, m: nat): seq<Hit>
    requires m <= |pages| && forall k :: 0 <= k < m ==> pages[k].Page?
  {
    if m == 0 then [] else Delivered(pages, m - 1) + pages[m - 1].hits
  }

  lemma {:induction false} UpsertConcat(docs: map<Id, Doc>, a: seq<Hit>, b: seq<Hit>, lower: Lower)
    ensures Upsert(docs, a + b, lower) == Upsert(Upsert(docs, a, lower), b, lower)
    decreases |b|
  {
    if b == [] {
      assert a + b == a;
    } else {
      var n := |b| - 1;
      assert (a + b)[..|a| + n] == a + b[..n];
      UpsertConcat(docs, a, b[..n], lower);
    }
  }

  lemma {:induction false} StoredIsUpsert(docs: map<Id, Doc>, pages: seq<PageReply>, bulks: nat -> BulkReply, m: nat,
                                          lower: Lower)
    requires m <= |pages|
    requires forall k :: 0 <= k < m ==> pages[k].Page? && AllPerformed(Batch(pages[k].hits, lower), bulks(k))
    ensures StoredPages(docs, pages, bulks, m, false, lower) == Upsert(docs, Delivered(pages, m), lower)
  {
    if m > 0 {
      StoredIsUpsert(docs, pages, bulks, m - 1, lower);
      UpsertConcat(docs, Delivered(pages, m - 1), pages[m - 1].hits, lower);
      var before := StoredPages(docs, pages, bulks, m - 1, false, lower);
      PerformIsUpsert(before, pages[m - 1].hits, bulks(m - 1).applied, lower);
    }
  }

  /** Each document is delivered once. */
  predicate DistinctIds(hits: seq<Hit>) {
    forall i, j :: 0 <= i < j < |hits| && IsDoc(hits[i]) && IsDoc(hits[j]) ==> hits[i].id != hits[j].id
  }

  lemma {:induction false} UpsertOther(docs: map<Id, Doc>, hits: seq<Hit>, id: Id, lower: Lower)
    requires forall i :: 0 <= i < |hits| && IsDoc(hits[i]) ==> hits[i].id != id
    ensures id in Upsert(docs, hits, lower) <==> id in docs
    ensures id in docs ==> Upsert(docs, hits, lower)[id] == docs[id]
  {
    if hits != [] { UpsertOther(docs, hits[..|hits| - 1], id, lower); }
  }

  lemma {:induction false} UpsertHit(docs: map<Id, Doc>, hits: seq<Hit>, i: nat, lower: Lower)
    requires DistinctIds(hits) && i < |hits| && IsDoc(hits[i])
    ensures hits[i].id in Upsert(docs, hits, lower)
    ensures Upsert(docs, hits, lower)[hits[i].id] == Stored(hits[i].source.fields, lower)
  {
    var n := |hits| - 1;
    var init, h := hits[..n], hits[i];
    if i < n {
      assert init[i] == h;
      assert IsDoc(hits[n]) ==> hits[n].id != h.id;
      UpsertHit(docs, init, i, lower);
    }
  }

  /** The two scrolls deliver the same documents, whatever the order and the pages. */
  ghost predicate SameDocs(a: seq<Hit>, b: seq<Hit>) {
    && (forall i :: 0 <= i < |a| && IsDoc(a[i]) ==> a[i] in b)
    && (forall i :: 0 <= i < |b| && IsDoc(b[i]) ==> b[i] in a)
  }

  predicate Mentions(hits: seq<Hit>, id: Id) {
    exists i :: 0 <= i < |hits| && IsDoc(hits[i]) && hits[i].id == id
  }

  /** The destination depends only on which documents are delivered, and a second pass changes nothing. */
  lemma UpsertOrderless(docs: map<Id, Doc>, a: seq<Hit>, b: seq<Hit>, lower: Lower)
    requires DistinctIds(a) && DistinctIds(b) && SameDocs(a, b)
    ensures Upsert(docs, a, lower) == Upsert(docs, b, lower)
    ensures Upsert(Upsert(docs, a, lower), b, lower) == Upsert(docs, a, lower)
  {
    var u := Upsert(docs, a, lower);
    forall id
      ensures id in u <==> id in Upsert(docs, b, lower)
      ensures id in u <==> id in Upsert(u, b, lower)
      ensures id in u ==> u[id] == Upsert(docs, b, lower)[id] == Upsert(u, b, lower)[id]
    {
      UpsertAgree(docs, a, b, id, lower);
    }
  }

  lemma UpsertAgree(docs: map<Id, Doc>, a: seq<Hit>, b: seq<Hit>, id: Id, lower: Lower)
    requires DistinctIds(a) && DistinctIds(b) && SameDocs(a, b)
    ensures var u, v, w := Upsert(docs, a, lower), Upsert(docs, b, lower), Upsert(Upsert(docs, a, lower), b, lower);
      (id in u <==> id in v) && (id in u <==> id in w) && (id in u ==> u[id] == v[id] == w[id])
  {
    if Mentions(a, id) {
      var i :| 0 <= i < |a| && IsDoc(a[i]) && a[i].id == id;
      var j :| 0 <= j < |b| && b[j] == a[i];
      UpsertHit(docs, a, i, lower);
      UpsertHit(docs, b, j, lower);
      UpsertHit(Upsert(docs, a, lower), b, j, lower);
    } else {
      assert forall j :: 0 <= j < |b| && IsDoc(b[j]) && b[j].id == id ==> b[j] in a;
      UpsertOther(docs, a, id, lower);
      UpsertOther(docs, b, id, lower);
      UpsertOther(Upsert(docs, a, lower), b, id, lower);
    }
  }

  // ------------------------------------------------------------ what a run reports

  /**
   * The index does not claim what it has not done: one item per operation, one status per
   * item, and a success status only for an operation it has performed.
   */
  ghost predicate Honest(ops: seq<BulkOp>, reply: BulkReply) {
    reply.Items? ==>
      && |reply.items| == |ops|
      && forall i :: 0 <= i < |ops| ==> |reply.items[i]| == 1 && (200 <= reply.items[i][0] < 300 ==> i in reply.applied)
  }

  /** And it owns up to everything that it has done. */
  ghost predicate Exact(ops: seq<BulkOp>, reply: BulkReply) {
    && Honest(ops, reply)
    && (reply.Items? ==> forall i :: 0 <= i < |ops| && i in reply.applied ==> 200 <= reply.items[i][0] < 300)
  }

  ghost predicate AllHonest(pages: seq<PageReply>, bulks: nat -> BulkReply, lower: Lower) {
    forall k :: 0 <= k < |pages| && pages[k].Page? ==> Honest(Batch(pages[k].hits, lower), bulks(k))
  }

  ghost predicate AllExact(pages: seq<PageReply>, bulks: nat -> BulkReply, lower: Lower) {
    forall k :: 0 <= k < |pages| && pages[k].Page? ==> Exact(Batch(pages[k].hits, lower), bulks(k))
  }

  /** All that the caller of run can see of its success: no bulk gave up and no item was counted as failed. */
  predicate ReportsSuccess(o: RunEnd) {
    !o.err.BulkError? && o.st.errors == 0
  }

  lemma {:induction false} NoneFailed(items: seq<seq<int>>)
    requires CountAll(items, false) == 0 && forall i :: 0 <= i < |items| ==> |items[i]| == 1
    ensures forall i :: 0 <= i < |items| ==> 200 <= items[i][0] < 300
  {
    if items != [] {
      var n := |items| - 1;
      NoneFailed(items[..n]);
      assert Count(items[n], false) == 0;
      assert items[n][..0] == [];
      assert forall i :: 0 <= i < n ==> items[..n][i] == items[i];
    }
  }

  /** The error counter of a page that was answered tells whether everything was performed. */
  lemma PageWithoutErrors(hits: seq<Hit>, reply: BulkReply, lower: Lower)
    requires Honest(Batch(hits, lower), reply) && Clean(hits, reply)
    ensures AllPerformed(Batch(hits, lower), reply)
  {
    BatchEmptyIff(hits, lower);
    if AnyDoc(hits) { NoneFailed(reply.items); }
  }

  lemma ErrorsStep(pages: seq<PageReply>, bulks: nat -> BulkReply, m: nat, lower: Lower)
    requires 0 < m <= |pages| && forall k :: 0 <= k < m ==> pages[k].Page?
    ensures var ops := Batch(pages[m - 1].hits, lower);
      CountedPages(pages, bulks, m, false, lower).errors ==
        CountedPages(pages, bulks, m - 1, false, lower).errors
        + (if AnyDoc(pages[m - 1].hits) then Failed(ops, bulks(m - 1)) else 0)
  {
    BatchEmptyIff(pages[m - 1].hits, lower);
  }

  lemma AllPass(pages: seq<PageReply>, bulks: nat -> BulkReply, m: nat, err: Error, dryRun: bool)
    requires StopsAfter(pages, bulks, m, err, dryRun) && !err.BulkError?
    ensures forall k :: 0 <= k < m ==> Passes(pages[k].hits, dryRun, bulks(k))
  {
  }

  /** Nothing of the page was counted as failed, and it did not end the run. */
  predicate Clean(hits: seq<Hit>, reply: BulkReply) {
    !AnyDoc(hits) || (reply.Items? && CountAll(reply.items, false) == 0)
  }

  /** Page `k` is written without the run giving up. */
  predicate PassedAt(pages: seq<PageReply>, bulks: nat -> BulkReply, k: nat) {
    k < |pages| && pages[k].Page? && Passes(pages[k].hits, false, bulks(k))
  }

  lemma PagesClean(pages: seq<PageReply>, bulks: nat -> BulkReply, m: nat, lower: Lower)
    requires m <= |pages| && (forall k :: 0 <= k < m ==> pages[k].Page?)
    requires forall k :: 0 <= k < m ==> PassedAt(pages, bulks, k)
    requires CountedPages(pages, bulks, m, false, lower).errors == 0
    ensures forall k :: 0 <= k < m ==> Clean(pages[k].hits, bulks(k))
  {
    forall k | 0 <= k < m ensures Clean(pages[k].hits, bulks(k)) {
      assert PassedAt(pages, bulks, k);
      PageClean(pages, bulks, m, k, lower);
    }
  }

  lemma PageClean(pages: seq<PageReply>, bulks: nat -> BulkReply, m: nat, k: nat, lower: Lower)
    requires k < m <= |pages| && (forall j :: 0 <= j < m ==> pages[j].Page?) && PassedAt(pages, bulks, k)
    requires CountedPages(pages, bulks, m, false, lower).errors == 0
    ensures Clean(pages[k].hits, bulks(k))
  {
    ErrorsGrow(pages, bulks, k + 1, m, lower);
    LastPageClean(pages, bulks, k + 1, lower);
  }

  lemma {:induction false} ErrorsGrow(pages: seq<PageReply>, bulks: nat -> BulkReply, k: nat, m: nat, lower: Lower)
    requires k <= m <= |pages| && forall j :: 0 <= j < m ==> pages[j].Page?
    ensures CountedPages(pages, bulks, k, false, lower).errors <= CountedPages(pages, bulks, m, false, lower).errors
    decreases m
  {
    if k < m {
      NoErrorLost(pages, bulks, m, lower);
      ErrorsGrow(pages, bulks, k, m - 1, lower);
    }
  }

  lemma NoErrorLost(pages: seq<PageReply>, bulks: nat -> BulkReply, m: nat, lower: Lower)
    requires 0 < m <= |pages| && forall j :: 0 <= j < m ==> pages[j].Page?
    ensures CountedPages(pages, bulks, m - 1, false, lower).errors <= CountedPages(pages, bulks, m, false, lower).errors
  {
    ErrorsStep(pages, bulks, m, lower);
  }

  lemma LastPageClean(pages: seq<PageReply>, bulks: nat -> BulkReply, m: nat, lower: Lower)
    requires 0 < m <= |pages| && forall k :: 0 <= k < m ==> pages[k].Page?
    requires PassedAt(pages, bulks, m - 1) && CountedPages(pages, bulks, m, false, lower).errors == 0
    ensures Clean(pages[m - 1].hits, bulks(m - 1))
  {
    ErrorsStep(pages, bulks, m, lower);
  }

  lemma PagesWithoutErrors(pages: seq<PageReply>, bulks: nat -> BulkReply, m: nat, lower: Lower)
    requires m <= |pages| && forall k :: 0 <= k < m ==> pages[k].Page? && Passes(pages[k].hits, false, bulks(k))
    requires AllHonest(pages, bulks, lower) && CountedPages(pages, bulks, m, false, lower).errors == 0
    ensures forall k :: 0 <= k < m ==> AllPerformed(Batch(pages[k].hits, lower), bulks(k))
  {
    assert forall k :: 0 <= k < m ==> PassedAt(pages, bulks, k);
    PagesClean(pages, bulks, m, lower);
    forall k | 0 <= k < m ensures AllPerformed(Batch(pages[k].hits, lower), bulks(k)) {
      PageWithoutErrors(pages[k].hits, bulks(k), lower);
    }
  }

  /** If an honest index let the run report success, the destination holds every delivered document. */
  lemma SuccessMeansUpsert(docs: map<Id, Doc>, pages: seq<PageReply>, bulks: nat -> BulkReply, lower: Lower)
      returns (m: nat)
    requires AllHonest(pages, bulks, lower)
    ensures m == Handled(pages, bulks, 0, false) && m <= |pages| && forall k :: 0 <= k < m ==> pages[k].Page?
    ensures var o := Loop(docs, Stats(0, 0, 0, 0), pages, bulks, 0, false, lower);
      && (o.err.None? ==> m < |pages| && pages[m] == Page([]))
      && (ReportsSuccess(o) ==> o.docs == Upsert(docs, Delivered(pages, m), lower))
  {
    m := RunIsPrefix(docs, pages, bulks, false, lower);
    var o := Loop(docs, Stats(0, 0, 0, 0), pages, bulks, 0, false, lower);
    if ReportsSuccess(o) {
      AllPass(pages, bulks, m, o.err, false);
      PagesWithoutErrors(pages, bulks, m, lower);
      StoredIsUpsert(docs, pages, bulks, m, lower);
    }
  }

  /**
   * A run that reports no error maps the id of every delivered document to that document
   * enriched, and leaves every other id alone.
   */
  lemma DestinationIsApplied(docs: map<Id, Doc>, pages: seq<PageReply>, bulks: nat -> BulkReply, lower: Lower)
      returns (m: nat)
    requires AllHonest(pages, bulks, lower)
    ensures m == Handled(pages, bulks, 0, false)
    ensures m <= |pages| && forall k :: 0 <= k < m ==> pages[k].Page?
    ensures var o := Loop(docs, Stats(0, 0, 0, 0), pages, bulks, 0, false, lower); var hits := Delivered(pages, m);
      && (o.err.None? ==> m < |pages| && pages[m] == Page([]))
      && (ReportsSuccess(o) && DistinctIds(hits) ==>
            && (forall i :: 0 <= i < |hits| && IsDoc(hits[i]) ==>
                  hits[i].id in o.docs && o.docs[hits[i].id] == Stored(hits[i].source.fields, lower))
            && (forall id :: !Mentions(hits, id) ==>
                  (id in o.docs <==> id in docs) && (id in docs ==> o.docs[id] == docs[id])))
  {
    m := SuccessMeansUpsert(docs, pages, bulks, lower);
    var hits := Delivered(pages, m);
    var after := Upsert(docs, hits, lower);
    if DistinctIds(hits) {
      forall i | 0 <= i < |hits| && IsDoc(hits[i])
        ensures hits[i].id in after && after[hits[i].id] == Stored(hits[i].source.fields, lower)
      {
        UpsertHit(docs, hits, i, lower);
      }
      forall id | !Mentions(hits, id)
        ensures (id in after <==> id in docs) && (id in docs ==> after[id] == docs[id])
      {
        UpsertOther(docs, hits, id, lower);
      }
    }
  }

  /**
   * Two runs that report no error, over scrolls that deliver the same documents once each,
   * leave the same index, and the second changes nothing.
   */
  lemma SecondRunChangesNothing(docs: map<Id, Doc>, pages: seq<PageReply>, bulks: nat -> BulkReply,
                                pages': seq<PageReply>, bulks': nat -> BulkReply, lower: Lower)
      returns (m: nat, m': nat)
    requires AllHonest(pages, bulks, lower) && AllHonest(pages', bulks', lower)
    ensures m == Handled(pages, bulks, 0, false) && m' == Handled(pages', bulks', 0, false)
    ensures m <= |pages| && forall k :: 0 <= k < m ==> pages[k].Page?
    ensures m' <= |pages'| && forall k :: 0 <= k < m' ==> pages'[k].Page?
    ensures var first := Loop(docs, Stats(0, 0, 0, 0), pages, bulks, 0, false, lower);
      var second := Loop(first.docs, Stats(0, 0, 0, 0), pages', bulks', 0, false, lower);
      var alone := Loop(docs, Stats(0, 0, 0, 0), pages', bulks', 0, false, lower);
      && ReportsSuccess(second) == ReportsSuccess(alone)
      && (ReportsSuccess(first) && ReportsSuccess(second)
          && DistinctIds(Delivered(pages, m)) && DistinctIds(Delivered(pages', m'))
          && SameDocs(Delivered(pages, m), Delivered(pages', m'))
          ==> second.docs == first.docs && alone.docs == first.docs)
  {
    m := SuccessMeansUpsert(docs, pages, bulks, lower);
    m' := SuccessMeansUpsert(docs, pages', bulks', lower);
    var first := Loop(docs, Stats(0, 0, 0, 0), pages, bulks, 0, false, lower).docs;
    var again := SuccessMeansUpsert(first, pages', bulks', lower);
    SameReport(docs, first, pages', bulks', false, lower);
    if DistinctIds(Delivered(pages, m)) && DistinctIds(Delivered(pages', m'))
       && SameDocs(Delivered(pages, m), Delivered(pages', m')) {
      UpsertOrderless(docs, Delivered(pages, m), Delivered(pages', m'), lower);
    }
  }

  /** What a run reports does not depend on what was in the destination. */
  lemma SameReport(docs: map<Id, Doc>, docs': map<Id, Doc>, pages: seq<PageReply>, bulks: nat -> BulkReply,
                   dryRun: bool, lower: Lower)
    ensures var o := Loop(docs, Stats(0, 0, 0, 0), pages, bulks, 0, dryRun, lower);
      var o' := Loop(docs', Stats(0, 0, 0, 0), pages, bulks, 0, dryRun, lower);
      o.st == o'.st && o.err == o'.err
  {
    var m := RunIsPrefix(docs, pages, bulks, dryRun, lower);
    var m' := RunIsPrefix(docs', pages, bulks, dryRun, lower);
  }

  // ------------------------------------------------------------ what an item's status says

  predicate SameAt(a: map<Id, Doc>, b: map<Id, Doc>, id: Id) {
    (id in a <==> id in b) && (id in a ==> a[id] == b[id])
  }

  lemma {:induction false} PerformOther(docs: map<Id, Doc>, ops: seq<BulkOp>, applied: set<nat>, id: Id)
    requires forall i :: 0 <= i < |ops| ==> ops[i].id != id
    ensures SameAt(Perform(docs, ops, applied), docs, id)
  {
    if ops != [] { PerformOther(docs, ops[..|ops| - 1], applied, id); }
  }

  /** With distinct ids, the value at an operation's id depends on that operation alone. */
  lemma {:induction false} PerformOne(docs: map<Id, Doc>, ops: seq<BulkOp>, applied: set<nat>, p: nat)
    requires p < |ops| && forall i :: 0 <= i < |ops| && i != p ==> ops[i].id != ops[p].id
    ensures var after, id := Perform(docs, ops, applied), ops[p].id;
      if p in applied then id in after && after[id] == WireDoc(ops[p].doc) else SameAt(after, docs, id)
  {
    var n := |ops| - 1;
    var init := ops[..n];
    if p < n {
      assert init[p] == ops[p];
      PerformOne(docs, init, applied, p);
    } else {
      PerformOther(docs, init, applied, ops[p].id);
    }
  }

  /** The place of the hit's operation in the batch of its page. */
  function OpOf(hits: seq<Hit>, i: nat, lower: Lower): nat
    requires i <= |hits|
  {
    |Batch(hits[..i], lower)|
  }

  lemma {:induction false} BatchAt(hits: seq<Hit>, i: nat, lower: Lower)
    requires i < |hits| && IsDoc(hits[i])
    ensures OpOf(hits, i, lower) < |Batch(hits, lower)|
    ensures Batch(hits, lower)[OpOf(hits, i, lower)] == BulkOp(hits[i].id, Applied(hits[i].source.fields, lower))
    decreases |hits|
  {
    var n := |hits| - 1;
    if i < n {
      assert hits[..n][..i] == hits[..i];
      BatchAt(hits[..n], i, lower);
    }
  }

  /** Every operation comes from a hit with an object source, and only from that one. */
  lemma {:induction false} BatchFrom(hits: seq<Hit>, p: nat, lower: Lower) returns (i: nat)
    requires p < |Batch(hits, lower)|
    ensures i < |hits| && IsDoc(hits[i]) && OpOf(hits, i, lower) == p && Batch(hits, lower)[p].id == hits[i].id
    decreases |hits|
  {
    var n := |hits| - 1;
    if p < |Batch(hits[..n], lower)| {
      i := BatchFrom(hits[..n], p, lower);
      assert hits[..n][..i] == hits[..i];
    } else {
      i := n;
    }
  }

  /** One page, seen from one of its hits. */
  lemma PerformHit(docs: map<Id, Doc>, hits: seq<Hit>, applied: set<nat>, i: nat, lower: Lower)
    requires i < |hits| && IsDoc(hits[i]) && DistinctIds(hits)
    ensures var after, id := Perform(docs, Batch(hits, lower), applied), hits[i].id;
      if OpOf(hits, i, lower) in applied then id in after && after[id] == Stored(hits[i].source.fields, lower)
      else SameAt(after, docs, id)
  {
    var ops, p := Batch(hits, lower), OpOf(hits, i, lower);
    BatchAt(hits, i, lower);
    forall q | 0 <= q < |ops| && q != p ensures ops[q].id != ops[p].id {
      var j := BatchFrom(hits, q, lower);
      assert j < i || i < j;
    }
    PerformOne(docs, ops, applied, p);
  }

  /** One page, seen from an id that none of its hits has. */
  lemma PerformElsewhere(docs: map<Id, Doc>, hits: seq<Hit>, applied: set<nat>, id: Id, lower: Lower)
    requires !Mentions(hits, id)
    ensures SameAt(Perform(docs, Batch(hits, lower), applied), docs, id)
  {
    forall p | 0 <= p < |Batch(hits, lower)| ensures Batch(hits, lower)[p].id != id {
      var i := BatchFrom(hits, p, lower);
    }
    PerformOther(docs, Batch(hits, lower), applied, id);
  }

  /** Pages `from` to `m` that do not mention an id leave it alone. */
  lemma {:induction false} PagesElsewhere(docs: map<Id, Doc>, pages: seq<PageReply>, bulks: nat -> BulkReply,
                                          from: nat, m: nat, id: Id, lower: Lower)
    requires from <= m <= |pages| && forall k :: 0 <= k < m ==> pages[k].Page?
    requires forall k :: from <= k < m ==> !Mentions(pages[k].hits, id)
    ensures SameAt(StoredPages(docs, pages, bulks, m, false, lower),
                   StoredPages(docs, pages, bulks, from, false, lower), id)
    decreases m
  {
    if from < m {
      PagesElsewhere(docs, pages, bulks, from, m - 1, id, lower);
      var before := StoredPages(docs, pages, bulks, m - 1, false, lower);
      PerformElsewhere(before, pages[m - 1].hits, bulks(m - 1).applied, id, lower);
    }
  }

  lemma {:induction false} DeliveredAt(pages: seq<PageReply>, m: nat, k: nat, i: nat)
    requires k < m <= |pages| && (forall j :: 0 <= j < m ==> pages[j].Page?) && i < |pages[k].hits|
    ensures var at := |Delivered(pages, k)| + i;
      at < |Delivered(pages, k + 1)| <= |Delivered(pages, m)| && Delivered(pages, m)[at] == pages[k].hits[i]
    decreases m
  {
    if k < m - 1 { DeliveredAt(pages, m - 1, k, i); }
  }

  /** If every document is delivered once, a page's hit has an id of its own within and across pages. */
  lemma OnePageOnly(pages: seq<PageReply>, m: nat, k: nat, i: nat)
    requires k < m <= |pages| && (forall j :: 0 <= j < m ==> pages[j].Page?)
    requires DistinctIds(Delivered(pages, m)) && i < |pages[k].hits| && IsDoc(pages[k].hits[i])
    ensures DistinctIds(pages[k].hits)
    ensures forall j :: 0 <= j < m && j != k ==> !Mentions(pages[j].hits, pages[k].hits[i].id)
  {
    var all, hits := Delivered(pages, m), pages[k].hits;
    forall a, b | 0 <= a < b < |hits| && IsDoc(hits[a]) && IsDoc(hits[b]) ensures hits[a].id != hits[b].id {
      DeliveredAt(pages, m, k, a);
      DeliveredAt(pages, m, k, b);
    }
    DeliveredAt(pages, m, k, i);
    forall j | 0 <= j < m && j != k ensures !Mentions(pages[j].hits, hits[i].id) {
      forall q | 0 <= q < |pages[j].hits| && IsDoc(pages[j].hits[q]) ensures pages[j].hits[q].id != hits[i].id {
        DeliveredAt(pages, m, j, q);
        OffsetsGrow(pages, if j < k then j else k, if j < k then k else j);
      }
    }
  }

  lemma {:induction false} OffsetsGrow(pages: seq<PageReply>, j: nat, k: nat)
    requires j < k <= |pages| && forall l :: 0 <= l < k ==> pages[l].Page?
    ensures |Delivered(pages, j)| + |pages[j].hits| <= |Delivered(pages, k)|
    decreases k
  {
    if j < k - 1 { OffsetsGrow(pages, j, k - 1); }
  }

  /**
   * Whatever the run reports as a whole: on a page answered by an exact index, a document
   * that is delivered once is in the destination if its item has a success status, and its
   * id is untouched if not.
   */
  lemma StatusTells(docs: map<Id, Doc>, pages: seq<PageReply>, bulks: nat -> BulkReply, lower: Lower, k: nat, i: nat)
      returns (m: nat)
    requires AllExact(pages, bulks, lower)
    ensures m == Handled(pages, bulks, 0, false)
    ensures m <= |pages| && forall j :: 0 <= j < m ==> pages[j].Page?
    ensures k < m && bulks(k).Items? && i < |pages[k].hits| && IsDoc(pages[k].hits[i])
            && DistinctIds(Delivered(pages, m)) ==>
              StatusDecides(docs, Loop(docs, Stats(0, 0, 0, 0), pages, bulks, 0, false, lower).docs,
                            pages[k].hits, bulks(k).items, i, lower)
  {
    m := RunIsPrefix(docs, pages, bulks, false, lower);
    if k < m && bulks(k).Items? && i < |pages[k].hits| && IsDoc(pages[k].hits[i]) && DistinctIds(Delivered(pages, m)) {
      var hits, id := pages[k].hits, pages[k].hits[i].id;
      OnePageOnly(pages, m, k, i);
      PagesElsewhere(docs, pages, bulks, 0, k, id, lower);
      PagesElsewhere(docs, pages, bulks, k + 1, m, id, lower);
      PerformHit(StoredPages(docs, pages, bulks, k, false, lower), hits, bulks(k).applied, i, lower);
      BatchAt(hits, i, lower);
      assert Exact(Batch(hits, lower), bulks(k));
    }
  }

  /** The status of the hit's item decides between the enriched document and what was there. */
  predicate StatusDecides(docs: map<Id, Doc>, after: map<Id, Doc>, hits: seq<Hit>, items: seq<seq<int>>, i: nat,
                          lower: Lower)
    requires i < |hits| && IsDoc(hits[i])
  {
    var p, id := OpOf(hits, i, lower), hits[i].id;
    && p < |items| && |items[p]| == 1
    && if 200 <= items[p][0] < 300 then id in after && after[id] == Stored(hits[i].source.fields, lower)
       else SameAt(after, docs, id)
  }

  // ------------------------------------------------------------ what is counted as written

  /** How many of the first `n` operations the index performed. */
  function Performed(n: nat, applied: set<nat>): nat {
    if n == 0 then 0 else Performed(n - 1, applied) + (if n - 1 in applied then 1 else 0)
  }

  /** Operations performed over the first `m` pages. */
  function PerformedPages(pages: seq<PageReply>, bulks: nat -> BulkReply, m: nat, lower: Lower): nat
    requires m <= |pages| && forall k :: 0 <= k < m ==> pages[k].Page?
  {
    if m == 0 then 0
    else PerformedPages(pages, bulks, m - 1, lower)
         + Performed(|Batch(pages[m - 1].hits, lower)|, bulks(m - 1).applied)
  }

  lemma {:induction false} SuccessesArePerformed(items: seq<seq<int>>, applied: set<nat>)
    requires forall i :: 0 <= i < |items| ==> |items[i]| == 1 && (200 <= items[i][0] < 300 ==> i in applied)
    ensures CountAll(items, true) <= Performed(|items|, applied)
    ensures (forall i :: 0 <= i < |items| && i in applied ==> 200 <= items[i][0] < 300) ==>
              CountAll(items, true) == Performed(|items|, applied)
  {
    if items != [] {
      var n := |items| - 1;
      assert forall i :: 0 <= i < n ==> items[..n][i] == items[i];
      SuccessesArePerformed(items[..n], applied);
      assert items[n][..0] == [];
      assert Count(items[n], true) == if 200 <= items[n][0] < 300 then 1 else 0;
    }
  }

  lemma {:induction false} WrittenPages(pages: seq<PageReply>, bulks: nat -> BulkReply, m: nat, lower: Lower)
    requires m <= |pages| && forall k :: 0 <= k < m ==> pages[k].Page?
    requires AllHonest(pages, bulks, lower)
    ensures CountedPages(pages, bulks, m, false, lower).written <= PerformedPages(pages, bulks, m, lower)
    ensures AllExact(pages, bulks, lower)
            && (forall k :: 0 <= k < m ==> Passes(pages[k].hits, false, bulks(k))) ==>
              CountedPages(pages, bulks, m, false, lower).written == PerformedPages(pages, bulks, m, lower)
  {
    if m > 0 {
      WrittenPages(pages, bulks, m - 1, lower);
      var ops, reply := Batch(pages[m - 1].hits, lower), bulks(m - 1);
      BatchEmptyIff(pages[m - 1].hits, lower);
      if reply.Items? {
        assert Honest(ops, reply);
        SuccessesArePerformed(reply.items, reply.applied);
      }
      assert AllExact(pages, bulks, lower) ==> Exact(ops, reply);
    }
  }

  /**
   * With an honest index no run counts more documents as written than were; with an exact
   * one the counter is right unless a bulk gave up.
   */
  lemma WrittenIsPerformed(docs: map<Id, Doc>, pages: seq<PageReply>, bulks: nat -> BulkReply, lower: Lower)
      returns (m: nat)
    requires AllHonest(pages, bulks, lower)
    ensures m == Handled(pages, bulks, 0, false)
    ensures m <= |pages| && forall k :: 0 <= k < m ==> pages[k].Page?
    ensures var o := Loop(docs, Stats(0, 0, 0, 0), pages, bulks, 0, false, lower);
      && o.docs == StoredPages(docs, pages, bulks, m, false, lower)
      && o.st.written <= PerformedPages(pages, bulks, m, lower)
      && (AllExact(pages, bulks, lower) && !o.err.BulkError? ==>
            o.st.written == PerformedPages(pages, bulks, m, lower))
  {
    m := RunIsPrefix(docs, pages, bulks, false, lower);
    var err := Loop(docs, Stats(0, 0, 0, 0), pages, bulks, 0, false, lower).err;
    if !err.BulkError? { AllPass(pages, bulks, m, err, false); }
    WrittenPages(pages, bulks, m, lower);
  }

  /** Reindexing documents that an earlier reindex wrote copies them unchanged. */
  lemma ReindexOfReindexed(docs: map<Id, Doc>, hits: seq<Hit>, originals: seq<Doc>, i: nat, lower: Lower)
    requires IsNormaliser(lower) && DistinctIds(hits) && |originals| == |hits| && i < |hits|
    requires forall k :: 0 <= k < |hits| ==>
               DocFromJson(originals[k]) && hits[k].source == Object(Stored(originals[k], lower))
    ensures hits[i].id in Upsert(docs, hits, lower) && Object(Upsert(docs, hits, lower)[hits[i].id]) == hits[i].source
  {
    UpsertHit(docs, hits, i, lower);
    ApplyIdempotent(originals[i], lower);
  }
}
