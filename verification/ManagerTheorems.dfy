/**
 * The manager's calls, with everything that happens inside them, are runs of the
 * interleaved protocol.
 */
module ManagerTheorems {
  import opened Wrappers
  import opened ConfirmLink
  import opened PublishProtocol
  import opened PublishTheorems
  import opened Publisher
  import opened PublisherTheorems
  import opened Manager

  /** Nobody writes, and the manager's connection is the newest, with its pubMu free. */
  predicate Quiet(s: State) {
    && s.writer.None? && s.conn == s.generation && |s.links| == s.generation + 1
    && s.links[s.conn].holder.None?
  }

  predicate IsIdle(s: State, i: nat) {
    i < |s.callers| && s.callers[i].pc.Idle?
  }

  // ------------------------------------------------------------ the parts of a call

  /** A call returns after a success, or after its last attempt. */
  lemma FinishRun(s: State, i: nat) returns (steps: seq<Step>, s': State)
    requires i < |s.callers| && s.callers[i].pc.Judge?
    requires Succeeds(s.callers[i].kind, s.callers[i].pc.o)
          || (s.callers[i].second && s.callers[i].attempt >= MaxAttempts(s.callers[i].kind))
    ensures Execute(s, steps) == Some(s')
    ensures var c := s.callers[i];
      s' == s.(callers := s.callers[i := c.(pc := Idle)],
               calls := s.calls + [Return(MsgOf(s, i), c.kind, c.pc.o, c.conn, c.gen, c.second, c.attempt, c.copies)])
  {
    var s1 := Do(s, JudgeAttempt(i));
    s' := Do(s1, Finish(i));
    assert Execute(s1, [Finish(i)]) == Some(s') by { assert Execute(s', []) == Some(s'); }
    steps := [JudgeAttempt(i), Finish(i)];
  }

  /** A first half that has failed goes on to reconnectIfStale. */
  lemma FailedHalfRun(s: State, i: nat) returns (steps: seq<Step>, s': State)
    requires i < |s.callers| && s.callers[i].pc.Judge? && !s.callers[i].second
    requires !Succeeds(s.callers[i].kind, s.callers[i].pc.o) && s.callers[i].attempt >= MaxAttempts(s.callers[i].kind)
    ensures Execute(s, steps) == Some(s')
    ensures s' == s.(callers := s.callers[i := s.callers[i].(pc := AcquireMu)])
  {
    s' := Do(s, JudgeAttempt(i));
    steps := [JudgeAttempt(i)];
    assert Execute(s', []) == Some(s');
  }

  /** The caller is at the top of its second half, on the connection now current. */
  predicate AtSecondHalf(s: State, s': State, i: nat) {
    && i < |s.callers| && |s'.callers| == |s.callers|
    && s'.callers[i] == s.callers[i].(pc := Enter, conn := s'.conn, second := true, attempt := 1)
    && Quiet(s')
  }

  /** reconnectIfStale when nobody else has reconnected. */
  lemma DialingRun(s: State, i: nat, confirms: bool) returns (steps: seq<Step>, s': State)
    requires i < |s.callers| && s.callers[i].pc.AcquireMu? && !s.callers[i].kind.Ungated?
    requires s.writer.None? && s.conn == s.generation == s.callers[i].gen && |s.links| == s.generation + 1
    ensures Execute(s, steps) == Some(s') && AtSecondHalf(s, s', i) && s'.generation == s.generation + 1
    ensures s'.links == s.links[s.conn := Shut(s.links[s.conn])] + [Fresh(confirms)]
  {
    var s1 := Do(s, LockMu(i));
    var s2 := Do(s1, CheckGeneration(i));
    assert Execute(s1, [CheckGeneration(i)]) == Some(s2) by { assert Execute(s2, []) == Some(s2); }
    assert Execute(s, [LockMu(i), CheckGeneration(i)]) == Some(s2);
    var bump, s3 := RunsToBumped(s2, i, confirms);
    ExecuteConcat(s, [LockMu(i), CheckGeneration(i)], bump);
    s' := Do(s3, UnlockMu(i));
    Then(s, [LockMu(i), CheckGeneration(i)] + bump, s3, UnlockMu(i));
    steps := [LockMu(i), CheckGeneration(i)] + bump + [UnlockMu(i)];
  }

  /** reconnectIfStale when somebody else has. */
  lemma SkippingRun(s: State, i: nat) returns (steps: seq<Step>, s': State)
    requires i < |s.callers| && s.callers[i].pc.AcquireMu? && !s.callers[i].kind.Ungated?
    requires Quiet(s) && s.callers[i].gen != s.generation
    ensures Execute(s, steps) == Some(s') && AtSecondHalf(s, s', i)
    ensures s'.generation == s.generation && s'.links == s.links
  {
    var s1 := Do(s, LockMu(i));
    var s2 := Do(s1, CheckGeneration(i));
    s' := Do(s2, UnlockMu(i));
    assert Execute(s2, [UnlockMu(i)]) == Some(s') by { assert Execute(s', []) == Some(s'); }
    assert Execute(s1, [CheckGeneration(i), UnlockMu(i)]) == Some(s');
    steps := [LockMu(i), CheckGeneration(i), UnlockMu(i)];
  }

  // ------------------------------------------------------------ the others

  /** One Reconnect by goroutine `j`, from idle to idle. */
  lemma ReconnectRun(s: State, j: nat, confirms: bool) returns (steps: seq<Step>, s': State)
    requires IsIdle(s, j) && s.writer.None? && s.conn == s.generation && |s.links| == s.generation + 1
    ensures Execute(s, steps) == Some(s') && IsIdle(s', j)
    ensures Quiet(s') && s'.generation == s.generation + 1 && |s'.callers| == |s.callers|
    ensures s'.links == s.links[s.conn := Shut(s.links[s.conn])] + [Fresh(confirms)]
    ensures forall i :: 0 <= i < |s.callers| && i != j ==> s'.callers[i] == s.callers[i]
  {
    var s1 := Do(s, Call(j, Ungated));
    assert Execute(s, [Call(j, Ungated)]) == Some(s1) by { assert Execute(s1, []) == Some(s1); }
    var rest, s2 := RunsToReplaced(s1, j, confirms);
    ExecuteConcat(s, [Call(j, Ungated)], rest);
    steps, s' := [Call(j, Ungated)] + rest, s2;
  }

  /** The links after connections have been dialled one after the other, `others` saying which confirm. */
  function Replaced(links: seq<Link>, others: seq<bool>): seq<Link>
    requires links != []
  {
    if others == [] then links
    else
      var n := |others| - 1;
      var before := Replaced(links, others[..n]);
      before[|before| - 1 := Shut(before[|before| - 1])] + [Fresh(others[n])]
  }

  /** The link of the `a`-th new connection: only the last is still open. */
  predicate NewLinkAt(after: seq<Link>, base: nat, others: seq<bool>, a: nat) {
    && a < |others| && base + a < |after|
    && after[base + a] == if a < |others| - 1 then Shut(Fresh(others[a])) else Fresh(others[a])
  }

  /** The old links: the last is closed if there are new ones. */
  predicate OldLinksKept(links: seq<Link>, after: seq<Link>, others: seq<bool>) {
    && 0 < |links| <= |after|
    && after[|links| - 1] == (if others == [] then links[|links| - 1] else Shut(links[|links| - 1]))
    && (forall l :: 0 <= l < |links| - 1 ==> after[l] == links[l])
  }

  lemma {:induction false} ReplacedAt(links: seq<Link>, others: seq<bool>)
    requires links != []
    ensures |Replaced(links, others)| == |links| + |others| && OldLinksKept(links, Replaced(links, others), others)
    ensures forall a :: 0 <= a < |others| ==> NewLinkAt(Replaced(links, others), |links|, others, a)
    decreases |others|
  {
    if others != [] {
      var n := |others| - 1;
      ReplacedAt(links, others[..n]);
      OneMoreLink(links, Replaced(links, others[..n]), others[..n], others[n]);
      assert others == others[..n] + [others[n]];
    }
  }

  lemma OneMoreLink(links: seq<Link>, before: seq<Link>, init: seq<bool>, confirms: bool)
    requires links != [] && |before| == |links| + |init| && OldLinksKept(links, before, init)
    requires forall a :: 0 <= a < |init| ==> NewLinkAt(before, |links|, init, a)
    ensures var after := before[|before| - 1 := Shut(before[|before| - 1])] + [Fresh(confirms)];
      var others := init + [confirms];
      && OldLinksKept(links, after, others)
      && forall a :: 0 <= a < |others| ==> NewLinkAt(after, |links|, others, a)
  {
    var after := before[|before| - 1 := Shut(before[|before| - 1])] + [Fresh(confirms)];
    var others := init + [confirms];
    forall a | 0 <= a < |others| ensures NewLinkAt(after, |links|, others, a) {
      if a < |init| { assert NewLinkAt(before, |links|, init, a); }
    }
  }

  lemma {:induction false} OthersRun(s: State, j: nat, others: seq<bool>) returns (steps: seq<Step>, s': State)
    requires Quiet(s) && (others != [] ==> IsIdle(s, j))
    ensures Execute(s, steps) == Some(s') && Quiet(s')
    ensures s'.generation == s.generation + |others| && s'.links == Replaced(s.links, others)
    ensures |s'.callers| == |s.callers| && (IsIdle(s, j) ==> IsIdle(s', j))
    ensures forall i :: 0 <= i < |s.callers| && i != j ==> s'.callers[i] == s.callers[i]
    decreases |others|
  {
    if others == [] {
      steps, s' := [], s;
    } else {
      var n := |others| - 1;
      var init, s1 := OthersRun(s, j, others[..n]);
      var last, s2 := ReconnectRun(s1, j, others[n]);
      ExecuteConcat(s, init, last);
      steps, s' := init + last, s2;
    }
  }

  // ------------------------------------------------------------ the call

  /** Goroutine `i` has come to the end `d` of a half that ran on link `l`. */
  predicate Settled(s: State, i: nat, m: Msg, l: nat, d: Delivery, second: bool) {
    && i < |s.callers| && l < |s.links| && s.links[l] == Left(i, d.link, d.last).0
    && if d.last.Hung? then s.callers[i].pc.Drain? && s.callers[i].conn == l
       else
         && s.callers[i].pc.Idle? && s.calls != []
         && var r := s.calls[|s.calls| - 1];
            r.msg == m && r.conn == l && r.last == d.last.o && r.attempt == d.attempts && r.second == second
  }

  /** The first half, up to its last judgement. */
  lemma FirstHalfRun(s: State, i: nat, weather: nat -> Weather, maxRetries: int) returns (steps: seq<Step>, s': State)
    requires Quiet(s) && IsIdle(s, i)
    ensures Execute(s, steps) == Some(s') && OnLink(s', i)
    ensures var max, m := MaxAttempts(Reliable(maxRetries)), Msg(i, s.callers[i].serial + 1);
      var d := Retry(s.links[s.conn], Trials(m, weather), 1, max);
      && s'.links == s.links[s.conn := Left(i, d.link, d.last).0] && |s'.callers| == |s.callers|
      && s'.callers[i] == Caller(Reliable(maxRetries), m.serial, Left(i, d.link, d.last).1, s.conn, s.generation, false,
                                 d.attempts, s'.callers[i].copies)
      && (forall j :: 0 <= j < |s.callers| && j != i ==> s'.callers[j] == s.callers[j])
      && s'.conn == s.conn && s'.generation == s.generation && s'.writer.None?
  {
    var start, s1 := RunsToSnapshot(s, i, Reliable(maxRetries));
    var max := MaxAttempts(Reliable(maxRetries));
    assert s1.links == s.links && MsgOf(s1, i) == Msg(i, s.callers[i].serial + 1);
    var rest, s2 := RetryIsARun(s1, i, weather, 1, max);
    ExecuteConcat(s, start, rest);
    steps, s' := start + rest, s2;
  }

  lemma {:induction false} RetryKeepsFree(k: Link, m: Msg, weather: nat -> Weather, attempt: nat, max: nat)
    requires 1 <= attempt <= max && k.holder.None?
    ensures Retry(k, Trials(m, weather), attempt, max).link.holder.None?
    decreases max - attempt
  {
    TryOnceUnlocks(k, m, weather(attempt));
    var (k', a) := TryOnce(k, m, weather(attempt));
    if !Decisive(a) && attempt < max { RetryKeepsFree(k', m, weather, attempt + 1, max); }
  }

  /** The second half, from the top to the return. */
  lemma SecondHalfRun(s: State, i: nat, weather: nat -> Weather, max: nat) returns (steps: seq<Step>, s': State)
    requires Quiet(s) && i < |s.callers| && s.callers[i].second && s.callers[i].conn == s.conn
    requires AtAttempt(s, i, 1) && max == MaxAttempts(s.callers[i].kind)
    ensures Execute(s, steps) == Some(s')
    ensures var d := Retry(s.links[s.conn], Trials(MsgOf(s, i), weather), 1, max);
      && Settled(s', i, MsgOf(s, i), s.conn, d, true) && s'.links == s.links[s.conn := Left(i, d.link, d.last).0]
      && s'.conn == s.conn && s'.generation == s.generation
  {
    var d := Retry(s.links[s.conn], Trials(MsgOf(s, i), weather), 1, max);
    var rest, s1 := RetryIsARun(s, i, weather, 1, max);
    StopsAtFirstDecisive(s.links[s.conn], Trials(MsgOf(s, i), weather), 1, max);
    if d.last.Hung? {
      steps, s' := rest, s1;
    } else {
      var finish, s2 := FinishRun(s1, i);
      ExecuteConcat(s, rest, finish);
      steps, s' := rest + finish, s2;
    }
  }

  /** From the failure of the first half to the top of the second. */
  lemma BetweenHalvesRun(s: State, i: nat, j: nat, others: seq<bool>, confirms: bool)
      returns (steps: seq<Step>, s': State)
    requires Quiet(s) && i < |s.callers| && s.callers[i].pc.Judge? && !s.callers[i].kind.Ungated?
    requires !s.callers[i].second && s.callers[i].gen == s.generation
    requires !Succeeds(s.callers[i].kind, s.callers[i].pc.o) && s.callers[i].attempt >= MaxAttempts(s.callers[i].kind)
    requires others != [] ==> IsIdle(s, j) && i != j
    ensures Execute(s, steps) == Some(s') && AtSecondHalf(s, s', i)
    ensures s'.links == Replaced(s.links, NewLinks(others, confirms)) && |s'.links| > 0
    ensures s'.generation == s.generation + |NewLinks(others, confirms)|
  {
    var fail, s1 := FailedHalfRun(s, i);
    var rest;
    if others == [] {
      rest, s' := DialingRun(s1, i, confirms);
      ReplacedOnce(s.links, confirms);
    } else {
      rest, s' := OthersThenSkipRun(s1, i, j, others);
    }
    ExecuteConcat(s, fail, rest);
    steps := fail + rest;
  }

  lemma ReplacedOnce(links: seq<Link>, confirms: bool)
    requires links != []
    ensures Replaced(links, [confirms]) == links[|links| - 1 := Shut(links[|links| - 1])] + [Fresh(confirms)]
  {
    assert [confirms][..0] == [];
    assert Replaced(links, []) == links;
  }

  lemma OthersThenSkipRun(s: State, i: nat, j: nat, others: seq<bool>) returns (steps: seq<Step>, s': State)
    requires Quiet(s) && i < |s.callers| && s.callers[i].pc.AcquireMu? && !s.callers[i].kind.Ungated?
    requires s.callers[i].gen == s.generation && others != [] && IsIdle(s, j) && i != j
    ensures Execute(s, steps) == Some(s') && AtSecondHalf(s, s', i)
    ensures s'.links == Replaced(s.links, others) && s'.generation == s.generation + |others|
  {
    var reconnects, s1 := OthersRun(s, j, others);
    var skip, s2 := SkippingRun(s1, i);
    ExecuteConcat(s, reconnects, skip);
    steps, s' := reconnects + skip, s2;
  }

  /** The connections dialled between the halves: those of the others, or one by the call itself. */
  function NewLinks(others: seq<bool>, confirms: bool): (links: seq<bool>)
    ensures links != []
  {
    if others == [] then [confirms] else others
  }

  /** Goroutine `i`'s call about `m` has ended as `e` says, with `dialled` connections made in between. */
  predicate CallEnded(s: State, s': State, i: nat, m: Msg, dialled: seq<bool>, e: CallEnd)
    requires s.conn < |s.links|
  {
    match e
    case OneHalf(d) =>
      && s'.conn == s.conn && s'.generation == s.generation && |s'.links| == |s.links|
      && Settled(s', i, m, s.conn, d, false)
    case TwoHalves(d, again) =>
      && s'.conn == s'.generation == s.generation + |dialled| && |s'.links| == |s.links| + |dialled|
      && s'.links[s.conn] == Shut(d.link)
      && (forall a :: 0 <= a < |dialled| - 1 ==> s'.links[|s.links| + a] == Shut(Fresh(dialled[a])))
      && Settled(s', i, m, s'.conn, again, true)
  }

  lemma OneHalfRun(s: State, i: nat, weather: nat -> Weather, maxRetries: int) returns (steps: seq<Step>, s': State)
    requires Quiet(s) && IsIdle(s, i)
    requires var m := Msg(i, s.callers[i].serial + 1);
      Decisive(Retry(s.links[s.conn], Trials(m, weather), 1, MaxAttempts(Reliable(maxRetries))).last)
    ensures Execute(s, steps) == Some(s')
    ensures var m := Msg(i, s.callers[i].serial + 1);
      var d := Retry(s.links[s.conn], Trials(m, weather), 1, MaxAttempts(Reliable(maxRetries)));
      CallEnded(s, s', i, m, [], OneHalf(d))
  {
    var half, s1 := FirstHalfRun(s, i, weather, maxRetries);
    if s1.callers[i].pc.Drain? {
      steps, s' := half, s1;
    } else {
      var finish, s2 := FinishRun(s1, i);
      ExecuteConcat(s, half, finish);
      steps, s' := half + finish, s2;
    }
  }

  /** The first half fails and the caller gets to the top of the second. */
  lemma FirstHalfFailsRun(s: State, i: nat, weather: nat -> Weather, maxRetries: int,
                          j: nat, others: seq<bool>, confirms: bool) returns (steps: seq<Step>, s': State)
    requires Quiet(s) && IsIdle(s, i) && (others != [] ==> IsIdle(s, j) && i != j)
    requires var m := Msg(i, s.callers[i].serial + 1);
      !Decisive(Retry(s.links[s.conn], Trials(m, weather), 1, MaxAttempts(Reliable(maxRetries))).last)
    ensures Execute(s, steps) == Some(s') && Quiet(s') && AtAttempt(s', i, 1)
    ensures s'.callers[i].kind == Reliable(maxRetries) && s'.callers[i].second && s'.callers[i].conn == s'.conn
    ensures MsgOf(s', i) == Msg(i, s.callers[i].serial + 1)
    ensures var d := Retry(s.links[s.conn], Trials(MsgOf(s', i), weather), 1, MaxAttempts(Reliable(maxRetries)));
      && s'.links == Replaced(s.links[s.conn := d.link], NewLinks(others, confirms))
      && s'.generation == s.generation + |NewLinks(others, confirms)|
  {
    var m := Msg(i, s.callers[i].serial + 1);
    StopsAtFirstDecisive(s.links[s.conn], Trials(m, weather), 1, MaxAttempts(Reliable(maxRetries)));
    RetryKeepsFree(s.links[s.conn], m, weather, 1, MaxAttempts(Reliable(maxRetries)));
    var half, s1 := FirstHalfRun(s, i, weather, maxRetries);
    var between, s2 := BetweenHalvesRun(s1, i, j, others, confirms);
    ExecuteConcat(s, half, between);
    steps, s' := half + between, s2;
  }

  lemma TwoHalvesRun(s: State, i: nat, first: nat -> Weather, second: nat -> Weather, maxRetries: int,
                     j: nat, others: seq<bool>, confirms: bool) returns (steps: seq<Step>, s': State)
    requires Quiet(s) && IsIdle(s, i) && (others != [] ==> IsIdle(s, j) && i != j)
    requires var m := Msg(i, s.callers[i].serial + 1);
      !Decisive(Retry(s.links[s.conn], Trials(m, first), 1, MaxAttempts(Reliable(maxRetries))).last)
    ensures Execute(s, steps) == Some(s')
    ensures var m, dialled := Msg(i, s.callers[i].serial + 1), NewLinks(others, confirms);
      var max, next := MaxAttempts(Reliable(maxRetries)), Fresh(dialled[|dialled| - 1]);
      CallEnded(s, s', i, m, dialled,
                TwoHalves(Retry(s.links[s.conn], Trials(m, first), 1, max), Retry(next, Trials(m, second), 1, max)))
  {
    var m, max := Msg(i, s.callers[i].serial + 1), MaxAttempts(Reliable(maxRetries));
    var dialled := NewLinks(others, confirms);
    var d, next := Retry(s.links[s.conn], Trials(m, first), 1, max), Fresh(dialled[|dialled| - 1]);
    var start, s1 := FirstHalfFailsRun(s, i, first, maxRetries, j, others, confirms);
    BetweenLinks(s, s1.links, dialled, d.link);
    var rest, s2 := SecondHalfRun(s1, i, second, max);
    BothHalves(s, s1, s2, i, m, dialled, d, Retry(next, Trials(m, second), 1, max));
    ExecuteConcat(s, start, rest);
    steps, s' := start + rest, s2;
  }

  lemma BothHalves(s: State, s1: State, s2: State, i: nat, m: Msg, dialled: seq<bool>, d: Delivery, again: Delivery)
    requires Quiet(s) && Quiet(s1) && dialled != [] && s1.links == Replaced(s.links[s.conn := d.link], dialled)
    requires s1.generation == s.generation + |dialled|
    requires s2.conn == s1.conn && s2.generation == s1.generation
    requires s2.links == s1.links[s1.conn := Left(i, again.link, again.last).0]
    requires Settled(s2, i, m, s1.conn, again, true)
    ensures CallEnded(s, s2, i, m, dialled, TwoHalves(d, again))
  {
    BetweenLinks(s, s1.links, dialled, d.link);
    assert s1.conn == |s.links| + |dialled| - 1;
  }

  /** The links once the first half has left `k` and the `dialled` connections have been made. */
  lemma BetweenLinks(s: State, after: seq<Link>, dialled: seq<bool>, k: Link)
    requires Quiet(s) && dialled != [] && after == Replaced(s.links[s.conn := k], dialled)
    ensures |after| == |s.links| + |dialled| && after[s.conn] == Shut(k)
    ensures forall a :: 0 <= a < |dialled| - 1 ==> after[|s.links| + a] == Shut(Fresh(dialled[a]))
    ensures after[|after| - 1] == Fresh(dialled[|dialled| - 1])
  {
    var before, n := s.links[s.conn := k], |dialled| - 1;
    ReplacedAt(before, dialled);
    forall a | 0 <= a < |dialled| - 1 ensures after[|s.links| + a] == Shut(Fresh(dialled[a])) {
      assert NewLinkAt(after, |before|, dialled, a);
    }
    assert NewLinkAt(after, |before|, dialled, n);
  }

  /**
   * The whole call of the manager is a run of the protocol, whoever reconnects between its
   * halves: the links, the generation, the number of attempts and the outcome are those that
   * ConnManager.PublishReliable computes when every dialled connection starts out fresh.
   */
  lemma ReliableCallIsARun(s: State, i: nat, first: nat -> Weather, second: nat -> Weather, maxRetries: int,
                           j: nat, others: seq<bool>, confirms: bool) returns (steps: seq<Step>, s': State)
    requires Quiet(s) && IsIdle(s, i) && (others != [] ==> IsIdle(s, j) && i != j)
    ensures Execute(s, steps) == Some(s')
    ensures var m, dialled := Msg(i, s.callers[i].serial + 1), NewLinks(others, confirms);
      CallEnded(s, s', i, m, dialled,
                CallReliable(s.links[s.conn], Fresh(dialled[|dialled| - 1]), m, first, second,
                             MaxAttempts(Reliable(maxRetries))))
  {
    var m := Msg(i, s.callers[i].serial + 1);
    if Decisive(Retry(s.links[s.conn], Trials(m, first), 1, MaxAttempts(Reliable(maxRetries))).last) {
      steps, s' := OneHalfRun(s, i, first, maxRetries);
    } else {
      steps, s' := TwoHalvesRun(s, i, first, second, maxRetries, j, others, confirms);
    }
  }

  // ------------------------------------------------------------ PublishMessage

  /** The last record is that of the call about `m`: where its last send went, and whether it returned nil. */
  predicate Returned(s: State, i: nat, m: Msg, l: nat, second: bool, ok: bool) {
    && IsIdle(s, i) && s.calls != []
    && var r := s.calls[|s.calls| - 1];
       r.msg == m && r.kind == Plain && r.conn == l && r.second == second && (Succeeds(Plain, r.last) <==> ok)
  }

  /** One send of a PublishMessage, from the top of the attempt to its judgement. */
  predicate Sent(s: State, s': State, i: nat, k: Link, ok: bool)
    requires OnLink(s, i)
  {
    && i < |s'.callers| && s'.callers[i].pc.Judge? && (Succeeds(Plain, s'.callers[i].pc.o) <==> ok)
    && Ends(s, s', i, k, s'.callers[i].pc)
  }

  lemma FirstSendRun(s: State, i: nat, w: Weather) returns (steps: seq<Step>, s1: State, s': State)
    requires Quiet(s) && IsIdle(s, i)
    ensures s1 == s.(callers := s.callers[i := Caller(Plain, s.callers[i].serial + 1, Enter,
                                                      s.conn, s.generation, false, 1, 0)])
    ensures Execute(s, steps) == Some(s') && OnLink(s1, i)
    ensures var (k, ok) := SendOnce(s.links[s.conn], Msg(i, s.callers[i].serial + 1), w); Sent(s1, s', i, k, ok)
  {
    var start;
    start, s1 := RunsToSnapshot(s, i, Plain);
    var rest, s2 := SendIsARun(s1, i, w);
    ExecuteConcat(s, start, rest);
    steps, s' := start + rest, s2;
  }

  /** A send that is the last of its call. */
  lemma LastSendRun(s: State, s1: State, i: nat, k: Link, ok: bool) returns (steps: seq<Step>, s': State)
    requires OnLink(s, i) && s.callers[i].kind.Plain? && Sent(s, s1, i, k, ok) && (ok || s.callers[i].second)
    requires s.callers[i].attempt == 1
    ensures Execute(s1, steps) == Some(s') && Returned(s', i, MsgOf(s, i), s.callers[i].conn, s.callers[i].second, ok)
    ensures s'.links == s.links[s.callers[i].conn := k] && s'.conn == s.conn && s'.generation == s.generation
  {
    steps, s' := FinishRun(s1, i);
  }

  lemma SendOnceUnlocks(k: Link, m: Msg, w: Weather)
    requires k.holder.None?
    ensures SendOnce(k, m, w).0.holder.None?
  {
    PlayKeeps(k, w.before);
    PlayKeeps(Publish(Play(k, w.before), m), w.during);
  }

  /** The first send fails and the caller gets to the top of the second. */
  lemma FirstSendFailsRun(s: State, i: nat, w: Weather, j: nat, others: seq<bool>, confirms: bool)
      returns (steps: seq<Step>, s': State)
    requires Quiet(s) && IsIdle(s, i) && (others != [] ==> IsIdle(s, j) && i != j)
    requires !SendOnce(s.links[s.conn], Msg(i, s.callers[i].serial + 1), w).1
    ensures Execute(s, steps) == Some(s') && Quiet(s')
    ensures OnLink(s', i) && MsgOf(s', i) == Msg(i, s.callers[i].serial + 1)
    ensures var c := s'.callers[i]; c.kind.Plain? && c.pc.Enter? && c.second && c.attempt == 1 && c.conn == s'.conn
    ensures s'.links == Replaced(s.links[s.conn := SendOnce(s.links[s.conn], MsgOf(s', i), w).0],
                                 NewLinks(others, confirms))
    ensures s'.generation == s.generation + |NewLinks(others, confirms)|
  {
    SendOnceUnlocks(s.links[s.conn], Msg(i, s.callers[i].serial + 1), w);
    var first, _, s1 := FirstSendRun(s, i, w);
    var between, s2 := BetweenHalvesRun(s1, i, j, others, confirms);
    ExecuteConcat(s, first, between);
    steps, s' := first + between, s2;
  }

  /** The call about `m` sent twice, leaving `k` and `again`, with `dialled` connections made in between. */
  predicate SentTwice(s: State, s': State, i: nat, m: Msg, dialled: seq<bool>, k: Link, again: Link, ok: bool)
    requires s.conn < |s.links|
  {
    && s'.conn == s'.generation == s.generation + |dialled| && |s'.links| == |s.links| + |dialled|
    && s'.conn < |s'.links| && s'.links[s.conn] == Shut(k) && s'.links[s'.conn] == again
    && Returned(s', i, m, s'.conn, true, ok)
  }

  lemma TwoSendsRun(s: State, i: nat, first: Weather, second: Weather, j: nat, others: seq<bool>, confirms: bool)
      returns (steps: seq<Step>, s': State)
    requires Quiet(s) && IsIdle(s, i) && (others != [] ==> IsIdle(s, j) && i != j)
    requires !SendOnce(s.links[s.conn], Msg(i, s.callers[i].serial + 1), first).1
    ensures Execute(s, steps) == Some(s')
    ensures var m, dialled := Msg(i, s.callers[i].serial + 1), NewLinks(others, confirms);
      var (again, ok) := SendOnce(Fresh(dialled[|dialled| - 1]), m, second);
      SentTwice(s, s', i, m, dialled, SendOnce(s.links[s.conn], m, first).0, again, ok)
  {
    var m, dialled := Msg(i, s.callers[i].serial + 1), NewLinks(others, confirms);
    var k := SendOnce(s.links[s.conn], m, first).0;
    var (again, ok) := SendOnce(Fresh(dialled[|dialled| - 1]), m, second);
    var start, s1 := FirstSendFailsRun(s, i, first, j, others, confirms);
    BetweenLinks(s, s1.links, dialled, k);
    var rest, s2 := SecondSendRun(s1, i, second);
    BothSends(s, s1, s2, i, m, dialled, k, again, ok);
    ExecuteConcat(s, start, rest);
    steps, s' := start + rest, s2;
  }

  lemma BothSends(s: State, s1: State, s2: State, i: nat, m: Msg, dialled: seq<bool>, k: Link, again: Link, ok: bool)
    requires Quiet(s) && Quiet(s1) && dialled != [] && s1.links == Replaced(s.links[s.conn := k], dialled)
    requires s1.generation == s.generation + |dialled|
    requires s2.conn == s1.conn && s2.generation == s1.generation && s2.links == s1.links[s1.conn := again]
    requires Returned(s2, i, m, s1.conn, true, ok)
    ensures SentTwice(s, s2, i, m, dialled, k, again, ok)
  {
    BetweenLinks(s, s1.links, dialled, k);
  }

  lemma SecondSendRun(s: State, i: nat, w: Weather) returns (steps: seq<Step>, s': State)
    requires Quiet(s) && OnLink(s, i)
    requires var c := s.callers[i]; c.kind.Plain? && c.pc.Enter? && c.second && c.attempt == 1 && c.conn == s.conn
    ensures Execute(s, steps) == Some(s') && s'.conn == s.conn && s'.generation == s.generation
    ensures var (k, ok) := SendOnce(s.links[s.conn], MsgOf(s, i), w);
      s'.links == s.links[s.conn := k] && Returned(s', i, MsgOf(s, i), s.conn, true, ok)
  {
    var (k, ok) := SendOnce(s.links[s.conn], MsgOf(s, i), w);
    var send, s1 := SendIsARun(s, i, w);
    var finish, s2 := LastSendRun(s, s1, i, k, ok);
    ExecuteConcat(s, send, finish);
    steps, s' := send + finish, s2;
  }

  /** The same for PublishMessage of the manager. */
  lemma PlainCallIsARun(s: State, i: nat, first: Weather, second: Weather, j: nat, others: seq<bool>, confirms: bool)
      returns (steps: seq<Step>, s': State)
    requires Quiet(s) && IsIdle(s, i) && (others != [] ==> IsIdle(s, j) && i != j)
    ensures Execute(s, steps) == Some(s')
    ensures var m, dialled := Msg(i, s.callers[i].serial + 1), NewLinks(others, confirms);
      var (k, sent) := SendOnce(s.links[s.conn], m, first);
      var (again, ok) := SendOnce(Fresh(dialled[|dialled| - 1]), m, second);
      if sent
      then
        && s'.conn == s.conn && s'.generation == s.generation && s'.links == s.links[s.conn := k]
        && Returned(s', i, m, s.conn, false, true)
      else SentTwice(s, s', i, m, dialled, k, again, ok)
  {
    var (k, sent) := SendOnce(s.links[s.conn], Msg(i, s.callers[i].serial + 1), first);
    if sent {
      var send, s1, s2 := FirstSendRun(s, i, first);
      var finish, s3 := LastSendRun(s1, s2, i, k, true);
      ExecuteConcat(s, send, finish);
      steps, s' := send + finish, s3;
    } else {
      steps, s' := TwoSendsRun(s, i, first, second, j, others, confirms);
    }
  }
}
