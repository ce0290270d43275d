/**
 * What an uninterrupted PublishReliable promises, and that its attempts are runs of
 * the interleaved protocol.
 */
module PublisherTheorems {
  import opened Wrappers
  import opened ConfirmLink
  import opened PublishProtocol
  import opened PublishTheorems
  import opened Publisher

  // ------------------------------------------------------------ an attempt is a run

  /**
   * Goroutine `i` has taken its link to `k` and itself to `pc`, sending a copy for each
   * new entry of the log; nothing else has moved.
   */
  predicate Ends(s: State, s': State, i: nat, k: Link, pc: Pc)
    requires OnLink(s, i)
  {
    var c, before := s.callers[i], s.links[s.callers[i].conn];
    && |s'.callers| == |s.callers|
    && s'.callers == s.callers[i := c.(pc := pc, copies := s'.callers[i].copies)]
    && s'.links == s.links[c.conn := k] && k.confirms == before.confirms
    && (before.confirms ==> s'.callers[i].copies + |before.log| == c.copies + |k.log|)
    && s'.conn == s.conn && s'.generation == s.generation && s'.writer == s.writer
    && s'.dials == s.dials && s'.refreshes == s.refreshes && s'.calls == s.calls
  }

  lemma EndsThen(s: State, s1: State, s2: State, i: nat, k1: Link, pc1: Pc, k2: Link, pc2: Pc)
    requires OnLink(s, i) && Ends(s, s1, i, k1, pc1)
    requires OnLink(s1, i) && Ends(s1, s2, i, k2, pc2)
    ensures Ends(s, s2, i, k2, pc2)
  {
  }

  /** The drain loop of the protocol empties the buffer. */
  lemma {:induction false} DrainRun(s: State, i: nat) returns (steps: seq<Step>)
    requires OnLink(s, i) && s.callers[i].pc.Drain?
    ensures Execute(s, steps) ==
            Some(s.(links := s.links[s.callers[i].conn := DrainAll(s.links[s.callers[i].conn])]))
    decreases |s.links[s.callers[i].conn].buffer|
  {
    var l := s.callers[i].conn;
    if s.links[l].buffer == [] {
      steps := [];
      assert DrainAll(s.links[l]) == s.links[l];
      assert s.links[l := s.links[l]] == s.links;
    } else {
      var s' := Do(s, DrainStep(i));
      var rest := DrainRun(s', i);
      steps := [DrainStep(i)] + rest;
      assert steps[1..] == rest;
      assert DrainAll(s'.links[l]) == DrainAll(s.links[l]);
      assert s'.links[l := DrainAll(s.links[l])] == s.links[l := DrainAll(s.links[l])];
    }
  }

  lemma HappensRun(s: State, l: nat, e: Event) returns (steps: seq<Step>)
    requires l < |s.links|
    ensures Execute(s, steps) == Some(s.(links := s.links[l := Happens(s.links[l], e)]))
  {
    var k := s.links[l];
    if e.Drops? {
      steps := [LinkDrops(l)];
      assert Execute(Do(s, LinkDrops(l)), []) == Some(Do(s, LinkDrops(l)));
    } else if k.atBroker != [] && k.open && |k.buffer| < CONFIRM_BUFFER {
      steps := [BrokerConfirms(l, e.ack)];
      assert Execute(Do(s, BrokerConfirms(l, e.ack)), []) == Some(Do(s, BrokerConfirms(l, e.ack)));
    } else {
      steps := [];
      assert s.links[l := k] == s.links;
    }
  }

  /** What happens to a channel is a run of the broker and the network. */
  lemma {:induction false} PlayRun(s: State, l: nat, events: seq<Event>) returns (steps: seq<Step>)
    requires l < |s.links|
    ensures Execute(s, steps) == Some(s.(links := s.links[l := Play(s.links[l], events)]))
    decreases |events|
  {
    if events == [] {
      steps := [];
      assert s.links[l := s.links[l]] == s.links;
    } else {
      var first := HappensRun(s, l, events[0]);
      var s1 := Execute(s, first).value;
      var rest := PlayRun(s1, l, events[1..]);
      ExecuteConcat(s, first, rest);
      steps := first + rest;
      assert s1.links[l := Play(s.links[l], events)] == s.links[l := Play(s.links[l], events)];
    }
  }

  /** Nothing that happens looks at who holds pubMu. */
  lemma {:induction false} PlayIgnoresHolder(k: Link, holder: Option<nat>, events: seq<Event>)
    ensures Play(k.(holder := holder), events) == Play(k, events).(holder := holder)
    decreases |events|
  {
    if events != [] {
      assert Happens(k.(holder := holder), events[0]) == Happens(k, events[0]).(holder := holder);
      PlayIgnoresHolder(Happens(k, events[0]), holder, events[1..]);
    }
  }

  /** From the top of an attempt to an empty buffer, with pubMu locked. */
  lemma LockAndDrainRun(s: State, i: nat) returns (steps: seq<Step>, s': State)
    requires OnLink(s, i) && s.callers[i].pc.Enter? && s.callers[i].kind.Reliable?
    requires var k := s.links[s.callers[i].conn]; k.confirms && k.holder.None?
    ensures Execute(s, steps) == Some(s')
    ensures var l := s.callers[i].conn;
      s' == s.(links := s.links[l := DrainAll(s.links[l]).(holder := Some(i))],
               callers := s.callers[i := s.callers[i].(pc := Drain)])
  {
    var l := s.callers[i].conn;
    var s1 := Do(s, EnterAttempt(i));
    assert Execute(s, [EnterAttempt(i)]) == Some(s1) by { assert Execute(s1, []) == Some(s1); }
    var drain := DrainRun(s1, i);
    ExecuteConcat(s, [EnterAttempt(i)], drain);
    steps, s' := [EnterAttempt(i)] + drain, Execute(s1, drain).value;
    OverwriteTwice(s.links, l, s.links[l].(holder := Some(i)), DrainAll(s.links[l]).(holder := Some(i)));
  }

  lemma OverwriteTwice(links: seq<Link>, l: nat, k: Link, k': Link)
    requires l < |links|
    ensures links[l := k][l := k'] == links[l := k']
  {
  }

  /** From the top of an attempt to the point where it is out of the drain loop, or stuck in it. */
  lemma EntryRun(s: State, i: nat) returns (steps: seq<Step>, s': State)
    requires OnLink(s, i) && s.callers[i].pc.Enter? && s.callers[i].kind.Reliable?
    requires var k := s.links[s.callers[i].conn]; k.confirms && k.holder.None?
    ensures Execute(s, steps) == Some(s')
    ensures var l := s.callers[i].conn; var d := DrainAll(s.links[l]);
      s' == s.(links := s.links[l := d.(holder := Some(i))],
               callers := s.callers[i := s.callers[i].(pc := if d.open then Send(|d.atBroker|) else Drain)])
  {
    steps, s' := LockAndDrainRun(s, i);
    if s.links[s.callers[i].conn].open {
      Then(s, steps, s', DrainStep(i));
      steps := steps + [DrainStep(i)];
      s' := Do(s', DrainStep(i));
      assert s'.callers == s.callers[i := s'.callers[i]];
    }
  }

  /** From Send to Judge when the send fails. */
  lemma FailedSendRun(s: State, i: nat) returns (steps: seq<Step>, s': State)
    requires OnLink(s, i) && s.callers[i].pc.Send? && s.links[s.callers[i].conn].confirms
    ensures Execute(s, steps) == Some(s')
    ensures var l := s.callers[i].conn;
      s' == s.(links := s.links[l := s.links[l].(holder := None)],
               callers := s.callers[i := s.callers[i].(pc := Judge(PublishError))])
  {
    var s1 := Do(s, SendFail(i));
    s' := Do(s1, ReleasePubMu(i));
    assert Execute(s1, [ReleasePubMu(i)]) == Some(s') by { assert Execute(s', []) == Some(s'); }
    steps := [SendFail(i), ReleasePubMu(i)];
  }

  /** What the attempt does after the send, with its result. */
  function AfterSend(p: Link, w: Weather, tag: nat, ahead: nat): (Link, Outcome) {
    var a := Play(p, w.during);
    if w.late || !CanTake(a) then (GiveUp(a), NoConfirm) else (Take(a), Confirmed(Taken(a), tag, ahead))
  }

  /** The send, and what happens to the channel until the wait is over. */
  lemma SendAndWaitRun(s: State, i: nat, w: Weather) returns (steps: seq<Step>, s': State)
    requires OnLink(s, i) && s.callers[i].pc.Send?
    requires s.links[s.callers[i].conn].confirms && s.links[s.callers[i].conn].open
    ensures Execute(s, steps) == Some(s')
    ensures var c, k, m := s.callers[i], s.links[s.callers[i].conn], MsgOf(s, i);
      s' == s.(links := s.links[c.conn := Play(Publish(k, m), w.during)],
               callers := s.callers[i := c.(pc := Wait(|k.log| + 1, c.pc.ahead), copies := c.copies + 1)],
               sent := s.sent + multiset{m})
  {
    var s1 := Do(s, SendOk(i));
    assert Execute(s, [SendOk(i)]) == Some(s1) by { assert Execute(s1, []) == Some(s1); }
    var answer := PlayRun(s1, s.callers[i].conn, w.during);
    ExecuteConcat(s, [SendOk(i)], answer);
    steps, s' := [SendOk(i)] + answer, Execute(s1, answer).value;
  }

  /** The end of the wait, with or without a confirmation, and the release of pubMu. */
  lemma ConcludeRun(s: State, i: nat, late: bool) returns (steps: seq<Step>, s': State)
    requires OnLink(s, i) && s.callers[i].pc.Wait?
    ensures Execute(s, steps) == Some(s')
    ensures var c, a := s.callers[i], s.links[s.callers[i].conn];
      var gaveUp := late || !CanTake(a);
      var o := if gaveUp then NoConfirm else Confirmed(Taken(a), c.pc.tag, c.pc.ahead);
      s' == s.(links := s.links[c.conn := (if gaveUp then GiveUp(a) else Take(a)).(holder := None)],
               callers := s.callers[i := c.(pc := Judge(o))])
  {
    var step := if late || !CanTake(s.links[s.callers[i].conn]) then TimeOut(i) else Receive(i);
    var s1 := Do(s, step);
    s' := Do(s1, ReleasePubMu(i));
    assert Execute(s1, [ReleasePubMu(i)]) == Some(s') by { assert Execute(s', []) == Some(s'); }
    steps := [step] + [ReleasePubMu(i)];
    assert steps[1..] == [ReleasePubMu(i)];
  }

  /** From Send to Judge when the send succeeds. */
  lemma SentRun(s: State, i: nat, w: Weather) returns (steps: seq<Step>, s': State)
    requires OnLink(s, i) && s.callers[i].pc.Send?
    requires s.links[s.callers[i].conn].confirms && s.links[s.callers[i].conn].open
    ensures Execute(s, steps) == Some(s')
    ensures var k := s.links[s.callers[i].conn];
      var (after, o) := AfterSend(Publish(k, MsgOf(s, i)), w, |k.log| + 1, s.callers[i].pc.ahead);
      Ends(s, s', i, after.(holder := None), Judge(o))
  {
    var send, s1 := SendAndWaitRun(s, i, w);
    var conclude, s2 := ConcludeRun(s1, i, w.late);
    ExecuteConcat(s, send, conclude);
    steps, s' := send + conclude, s2;
    PlayKeeps(Publish(s.links[s.callers[i].conn], MsgOf(s, i)), w.during);
  }

  lemma AfterSendIgnoresHolder(p: Link, h: Option<nat>, w: Weather, tag: nat, ahead: nat)
    ensures AfterSend(p.(holder := h), w, tag, ahead) ==
            (AfterSend(p, w, tag, ahead).0.(holder := h), AfterSend(p, w, tag, ahead).1)
  {
    PlayIgnoresHolder(p, h, w.during);
  }

  /** The rest of the attempt, from a drained open link. */
  function SendResult(d: Link, m: Msg, w: Weather): (Link, Outcome) {
    if w.sendOk then AfterSend(Publish(d, m), w, |d.log| + 1, |d.atBroker|) else (d, PublishError)
  }

  lemma OpenAttempt(k: Link, m: Msg, w: Weather)
    requires k.confirms && k.open
    ensures var (after, o) := SendResult(DrainAll(k), m, w); LockedTry(k, m, w) == (after, Ended(o))
  {
  }

  /** The whole attempt once it is past the drain loop. */
  lemma SendingRun(s: State, i: nat, w: Weather, d: Link) returns (steps: seq<Step>, s': State)
    requires OnLink(s, i) && s.callers[i].pc == Send(|d.atBroker|)
    requires d.confirms && d.open && d.holder.None? && s.links[s.callers[i].conn] == d.(holder := Some(i))
    ensures Execute(s, steps) == Some(s')
    ensures var (after, o) := SendResult(d, MsgOf(s, i), w); Ends(s, s', i, after, Judge(o))
  {
    if w.sendOk {
      steps, s' := SentRun(s, i, w);
      AfterSendIgnoresHolder(Publish(d, MsgOf(s, i)), Some(i), w, |d.log| + 1, |d.atBroker|);
      AfterSendIgnoresHolder(Publish(d, MsgOf(s, i)), None, w, |d.log| + 1, |d.atBroker|);
      assert Publish(d.(holder := Some(i)), MsgOf(s, i)) == Publish(d, MsgOf(s, i)).(holder := Some(i));
      assert Publish(d, MsgOf(s, i)).(holder := None) == Publish(d, MsgOf(s, i));
    } else {
      steps, s' := FailedSendRun(s, i);
    }
  }

  /** The link and the program point an attempt leaves behind: one that hangs keeps pubMu. */
  function Left(i: nat, k: Link, a: Attempt): (Link, Pc) {
    if a.Hung? then (k.(holder := Some(i)), Drain) else (k, Judge(a.o))
  }

  /** The time before an attempt, or anything else that only happens to the channel. */
  lemma BeforeRun(s: State, i: nat, events: seq<Event>) returns (steps: seq<Step>, s': State)
    requires OnLink(s, i)
    ensures Execute(s, steps) == Some(s')
    ensures s' == s.(links := s.links[s.callers[i].conn := Play(s.links[s.callers[i].conn], events)])
    ensures Ends(s, s', i, Play(s.links[s.callers[i].conn], events), s.callers[i].pc)
  {
    var l := s.callers[i].conn;
    steps := PlayRun(s, l, events);
    s' := Execute(s, steps).value;
    PlayKeeps(s.links[l], events);
  }

  /** Every attempt of the imperative publisher is a run of the protocol. */
  lemma AttemptIsARun(s: State, i: nat, w: Weather) returns (steps: seq<Step>, s': State)
    requires OnLink(s, i) && s.callers[i].pc.Enter? && s.callers[i].kind.Reliable?
    requires s.links[s.callers[i].conn].holder.None?
    ensures Execute(s, steps) == Some(s')
    ensures var (after, a) := TryOnce(s.links[s.callers[i].conn], MsgOf(s, i), w);
      Ends(s, s', i, Left(i, after, a).0, Left(i, after, a).1)
  {
    var k := Play(s.links[s.callers[i].conn], w.before);
    var before, s1 := BeforeRun(s, i, w.before);
    PlayKeeps(s.links[s.callers[i].conn], w.before);
    var rest, s2 := LockedTryIsARun(s1, i, w);
    ExecuteConcat(s, before, rest);
    steps, s' := before + rest, s2;
    var (after, a) := LockedTry(k, MsgOf(s, i), w);
    EndsThen(s, s1, s2, i, k, s.callers[i].pc, Left(i, after, a).0, Left(i, after, a).1);
  }

  lemma LockedTryIsARun(s: State, i: nat, w: Weather) returns (steps: seq<Step>, s': State)
    requires OnLink(s, i) && s.callers[i].pc.Enter? && s.callers[i].kind.Reliable?
    requires s.links[s.callers[i].conn].holder.None?
    ensures Execute(s, steps) == Some(s')
    ensures var (after, a) := LockedTry(s.links[s.callers[i].conn], MsgOf(s, i), w);
      Ends(s, s', i, Left(i, after, a).0, Left(i, after, a).1)
  {
    var l := s.callers[i].conn;
    var k := s.links[l];
    if !k.confirms {
      s' := Do(s, EnterAttempt(i));
      steps := [EnterAttempt(i)];
      assert Execute(s', []) == Some(s');
      assert s.links[l := k] == s.links;
    } else {
      var entry, s1 := EntryRun(s, i);
      if !k.open {
        steps, s' := entry, s1;
      } else {
        var rest, s2 := SendingRun(s1, i, w, DrainAll(k));
        ExecuteConcat(s, entry, rest);
        steps, s' := entry + rest, s2;
        OpenAttempt(k, MsgOf(s, i), w);
        var (after, o) := SendResult(DrainAll(k), MsgOf(s, i), w);
        EndsThen(s, s1, s2, i, s1.links[l], s1.callers[i].pc, after, Judge(o));
      }
    }
  }

  lemma TryOnceUnlocks(k: Link, m: Msg, w: Weather)
    requires k.holder.None?
    ensures TryOnce(k, m, w).0.holder.None?
  {
    PlayKeeps(k, w.before);
    PlayKeeps(Publish(DrainAll(Play(k, w.before)), m), w.during);
  }

  /** Goroutine `i` is about to start its n-th attempt on an unlocked link. */
  predicate AtAttempt(s: State, i: nat, n: nat) {
    && OnLink(s, i) && s.callers[i].pc.Enter? && s.callers[i].kind.Reliable? && s.callers[i].attempt == n
    && s.links[s.callers[i].conn].holder.None?
  }

  /** Goroutine `i` has come to the end `d` of its attempts. */
  predicate Retried(s: State, s': State, i: nat, d: Delivery)
    requires OnLink(s, i)
  {
    Ends(WithCaller(s, i, s.callers[i].(attempt := d.attempts)), s', i,
         Left(i, d.link, d.last).0, Left(i, d.link, d.last).1)
  }

  /** The retry loop, whatever the number of attempts, is a run of the protocol. */
  lemma RetryIsARun(s: State, i: nat, weather: nat -> Weather, attempt: nat, max: nat)
      returns (steps: seq<Step>, s': State)
    requires AtAttempt(s, i, attempt) && 1 <= attempt <= max == MaxAttempts(s.callers[i].kind)
    ensures Execute(s, steps) == Some(s')
    ensures Retried(s, s', i, Retry(s.links[s.callers[i].conn], Trials(MsgOf(s, i), weather), attempt, max))
  {
    steps, s' := EndsAsRetry(s, i, weather, attempt, max,
                             Retry(s.links[s.callers[i].conn], Trials(MsgOf(s, i), weather), attempt, max));
  }

  lemma {:induction false} EndsAsRetry(s: State, i: nat, weather: nat -> Weather, attempt: nat, max: nat, d: Delivery)
      returns (steps: seq<Step>, s': State)
    requires AtAttempt(s, i, attempt) && 1 <= attempt <= max == MaxAttempts(s.callers[i].kind)
    requires d == Retry(s.links[s.callers[i].conn], Trials(MsgOf(s, i), weather), attempt, max)
    ensures Execute(s, steps) == Some(s') && Retried(s, s', i, d)
    decreases max - attempt
  {
    var (k, a) := TryOnce(s.links[s.callers[i].conn], MsgOf(s, i), weather(attempt));
    RetryStep(s.links[s.callers[i].conn], MsgOf(s, i), weather, attempt, max);
    if Decisive(a) || attempt == max {
      steps, s' := AttemptIsARun(s, i, weather(attempt));
      StopsHere(s, s', i, d);
    } else {
      var first, s1 := TriesAgain(s, i, weather(attempt), k);
      var rest, s2 := EndsAsRetry(s1, i, weather, attempt + 1, max, d);
      ExecuteConcat(s, first, rest);
      RetriedThen(s, s1, s2, i, k, d);
      steps, s' := first + rest, s2;
    }
  }

  lemma RetryStep(k: Link, m: Msg, weather: nat -> Weather, attempt: nat, max: nat)
    requires 1 <= attempt <= max
    ensures var (k', a) := TryOnce(k, m, weather(attempt));
      Retry(k, Trials(m, weather), attempt, max) ==
        if Decisive(a) || attempt == max then Delivery(k', attempt, a)
        else Retry(k', Trials(m, weather), attempt + 1, max)
  {
  }

  lemma StopsHere(s: State, s': State, i: nat, d: Delivery)
    requires OnLink(s, i) && d.attempts == s.callers[i].attempt
    requires Ends(s, s', i, Left(i, d.link, d.last).0, Left(i, d.link, d.last).1)
    ensures Retried(s, s', i, d)
  {
    assert WithCaller(s, i, s.callers[i].(attempt := d.attempts)) == s;
  }

  /** The goroutine is at the top of its next attempt. */
  predicate Reenters(s: State, s': State, i: nat, k: Link)
    requires OnLink(s, i)
  {
    Ends(WithCaller(s, i, s.callers[i].(attempt := s.callers[i].attempt + 1)), s', i, k, Enter)
  }

  /** A failed attempt that is not the last leads to the top of the next one. */
  lemma TriesAgain(s: State, i: nat, w: Weather, k: Link) returns (steps: seq<Step>, s': State)
    requires i < |s.callers| && AtAttempt(s, i, s.callers[i].attempt)
    requires s.callers[i].attempt < MaxAttempts(s.callers[i].kind)
    requires var (k', a) := TryOnce(s.links[s.callers[i].conn], MsgOf(s, i), w); k == k' && !Decisive(a)
    ensures Execute(s, steps) == Some(s')
    ensures Reenters(s, s', i, k)
    ensures AtAttempt(s', i, s.callers[i].attempt + 1) && s'.callers[i].kind == s.callers[i].kind
    ensures MsgOf(s', i) == MsgOf(s, i) && s'.links[s'.callers[i].conn] == k
  {
    var first, s1 := AttemptIsARun(s, i, w);
    TryOnceUnlocks(s.links[s.callers[i].conn], MsgOf(s, i), w);
    Then(s, first, s1, JudgeAttempt(i));
    steps, s' := first + [JudgeAttempt(i)], Do(s1, JudgeAttempt(i));
    JudgedAgain(s, s1, i, TryOnce(s.links[s.callers[i].conn], MsgOf(s, i), w));
  }

  lemma JudgedAgain(s: State, s1: State, i: nat, end: (Link, Attempt))
    requires OnLink(s, i) && end.1.Ended? && !Acked(end.1) && Ends(s, s1, i, end.0, Judge(end.1.o))
    requires s.callers[i].kind.Reliable? && s.callers[i].attempt < MaxAttempts(s.callers[i].kind)
    ensures Enabled(s1, JudgeAttempt(i)) && Reenters(s, Do(s1, JudgeAttempt(i)), i, end.0)
  {
  }

  lemma RetriedThen(s: State, s1: State, s2: State, i: nat, k: Link, d: Delivery)
    requires OnLink(s, i) && Reenters(s, s1, i, k) && OnLink(s1, i) && Retried(s1, s2, i, d)
    ensures Retried(s, s2, i, d)
  {
  }

  /** So is every PublishMessage. */
  lemma SendIsARun(s: State, i: nat, w: Weather) returns (steps: seq<Step>, s': State)
    requires OnLink(s, i) && s.callers[i].pc.Enter? && s.callers[i].kind.Plain?
    requires s.links[s.callers[i].conn].holder.None?
    ensures Execute(s, steps) == Some(s')
    ensures var (after, ok) := SendOnce(s.links[s.callers[i].conn], MsgOf(s, i), w);
      && i < |s'.callers| && s'.callers[i].pc.Judge?
      && (Succeeds(Plain, s'.callers[i].pc.o) <==> ok)
      && Ends(s, s', i, after, s'.callers[i].pc)
  {
    var k := Play(s.links[s.callers[i].conn], w.before);
    var before, s1 := BeforeRun(s, i, w.before);
    PlayKeeps(s.links[s.callers[i].conn], w.before);
    var rest, s2 := LockedSendIsARun(s1, i, w);
    ExecuteConcat(s, before, rest);
    steps, s' := before + rest, s2;
    EndsThen(s, s1, s2, i, k, s.callers[i].pc, LockedSend(k, MsgOf(s, i), w).0, s2.callers[i].pc);
  }

  lemma LockedSendIsARun(s: State, i: nat, w: Weather) returns (steps: seq<Step>, s': State)
    requires OnLink(s, i) && s.callers[i].pc.Enter? && s.callers[i].kind.Plain?
    requires s.links[s.callers[i].conn].holder.None?
    ensures Execute(s, steps) == Some(s')
    ensures var (after, ok) := LockedSend(s.links[s.callers[i].conn], MsgOf(s, i), w);
      && i < |s'.callers| && s'.callers[i].pc.Judge?
      && (Succeeds(Plain, s'.callers[i].pc.o) <==> ok)
      && Ends(s, s', i, after, s'.callers[i].pc)
  {
    var l, m := s.callers[i].conn, MsgOf(s, i);
    var k := s.links[l];
    var s1 := Do(s, EnterAttempt(i));
    assert Execute(s, [EnterAttempt(i)]) == Some(s1) by { assert Execute(s1, []) == Some(s1); }
    if !k.confirms {
      var step := if k.open && w.sendOk then SendOk(i) else SendFail(i);
      steps, s' := [EnterAttempt(i)] + [step], Do(s1, step);
      Then(s, [EnterAttempt(i)], s1, step);
      assert s.links[l := k] == s.links;
    } else {
      var locked := k.(holder := Some(i));
      var rest;
      if k.open && w.sendOk {
        rest, s' := SentRun(s1, i, w);
        AfterSendIgnoresHolder(Publish(k, m), Some(i), w, |k.log| + 1, Outstanding(k));
        AfterSendIgnoresHolder(Publish(k, m), None, w, |k.log| + 1, Outstanding(k));
        assert Publish(locked, m) == Publish(k, m).(holder := Some(i));
        assert Publish(k, m).(holder := None) == Publish(k, m);
      } else {
        rest, s' := FailedSendRun(s1, i);
        assert locked.(holder := None) == k;
      }
      ExecuteConcat(s, [EnterAttempt(i)], rest);
      steps := [EnterAttempt(i)] + rest;
      EndsThen(s, s1, s', i, locked, s1.callers[i].pc, LockedSend(k, m, w).0, s'.callers[i].pc);
    }
  }

  // ------------------------------------------------------------ one attempt

  /** On a link that owes nothing at the broker, only losing the channel can happen. */
  lemma {:induction false} IdleBroker(k: Link, events: seq<Event>)
    requires k.atBroker == []
    ensures var k' := Play(k, events);
      && k'.atBroker == [] && k'.confirms == k.confirms && (k'.open <==> k.open && Drops !in events)
    decreases |events|
  {
    if events != [] { IdleBroker(Happens(k, events[0]), events[1..]); }
  }

  /** Nor do further events change what a receive yields once something is there to take. */
  lemma {:induction false} TakenStays(k: Link, events: seq<Event>)
    requires CanTake(k) && (k.buffer == [] ==> !k.open)
    ensures CanTake(Play(k, events)) && Taken(Play(k, events)) == Taken(k)
    decreases |events|
  {
    if events != [] { TakenStays(Happens(k, events[0]), events[1..]); }
  }

  /**
   * On a link that owes nothing at the broker, an attempt is acked exactly when the channel
   * survives until the send, the send succeeds, and the first thing that happens then is an
   * ack, before the timer fires.
   */
  lemma AckedIff(k: Link, m: Msg, w: Weather)
    requires k.atBroker == []
    ensures Acked(TryOnce(k, m, w).1) <==>
            && k.confirms && k.open && Drops !in w.before && w.sendOk
            && !w.late && w.during != [] && w.during[0] == Answers(true)
  {
    IdleBroker(k, w.before);
    var k1 := Play(k, w.before);
    if k1.confirms && k1.open && w.during != [] {
      TakenStays(Happens(Publish(DrainAll(k1), m), w.during[0]), w.during[1..]);
    }
  }

  // ------------------------------------------------------------ the retry loop

  /** The link as attempt `j` finds it, had every earlier attempt been followed by another. */
  function LinkBefore(k: Link, trial: Trial, j: nat): Link
    requires j >= 1
  {
    if j == 1 then k else trial(LinkBefore(k, trial, j - 1), j - 1).0
  }

  function NthAttempt(k: Link, trial: Trial, j: nat): Attempt
    requires j >= 1
  {
    trial(LinkBefore(k, trial, j), j).1
  }

  /**
   * PublishReliable stops at the first attempt that is acked or never returns, and
   * otherwise after `max` attempts; its result is that attempt's.
   */
  lemma {:induction false} StopsAtFirstDecisive(k: Link, trial: Trial, attempt: nat, max: nat)
    requires 1 <= attempt <= max
    ensures var d := Retry(LinkBefore(k, trial, attempt), trial, attempt, max);
      && attempt <= d.attempts <= max
      && d.link == LinkBefore(k, trial, d.attempts + 1)
      && d.last == NthAttempt(k, trial, d.attempts)
      && (Decisive(d.last) || d.attempts == max)
      && forall j :: attempt <= j < d.attempts ==> !Decisive(NthAttempt(k, trial, j))
    decreases max - attempt
  {
    if !Decisive(NthAttempt(k, trial, attempt)) && attempt < max {
      StopsAtFirstDecisive(k, trial, attempt + 1, max);
    }
  }

  /** The broker answers the send of the attempt with a nack, in time and with the channel alive. */
  predicate Nacks(w: Weather) {
    && Drops !in w.before && w.sendOk && !w.late
    && w.during != [] && w.during[0] == Answers(false) && Drops !in w.during
  }

  lemma NackedAttempt(k: Link, m: Msg, w: Weather)
    requires k.confirms && k.open && k.atBroker == [] && Nacks(w)
    ensures var (k', a) := TryOnce(k, m, w);
      && k'.confirms && k'.open && k'.atBroker == [] && k'.log == k.log + [m]
      && a.Ended? && a.o.Confirmed? && !a.o.c.ack
  {
    IdleBroker(k, w.before);
    PlayKeeps(k, w.before);
    var k1 := Play(k, w.before);
    var p := Publish(DrainAll(k1), m);
    var n := Happens(p, w.during[0]);
    IdleBroker(n, w.during[1..]);
    TakenStays(n, w.during[1..]);
    PlayKeeps(p, w.during);
  }

  /** Against nothing but nacks every attempt allowed is made, and each sends its copy. */
  lemma {:induction false} NackedRetry(k: Link, m: Msg, weather: nat -> Weather, attempt: nat, max: nat)
    requires 1 <= attempt <= max && k.confirms && k.open && k.atBroker == []
    requires forall j :: attempt <= j <= max ==> Nacks(weather(j))
    ensures var d := Retry(k, Trials(m, weather), attempt, max);
      d.attempts == max && d.last.Ended? && !Acked(d.last) && |d.link.log| == |k.log| + (max - attempt + 1)
    decreases max - attempt
  {
    NackedAttempt(k, m, weather(attempt));
    RetryStep(k, m, weather, attempt, max);
    if attempt < max {
      NackedRetry(TryOnce(k, m, weather(attempt)).0, m, weather, attempt + 1, max);
    }
  }

  /**
   * So maxRetries attempts are made, or 3 if it is not positive, and exactly that many
   * copies enter the log.
   */
  lemma NackedThroughout(k: Link, m: Msg, weather: nat -> Weather, maxRetries: int)
    requires k.confirms && k.open && k.atBroker == [] && forall j :: Nacks(weather(j))
    ensures var d := Retry(k, Trials(m, weather), 1, MaxAttempts(Reliable(maxRetries)));
      var most := if maxRetries <= 0 then 3 else maxRetries;
      d.attempts == most && !Acked(d.last) && |d.link.log| == |k.log| + most
  {
    NackedRetry(k, m, weather, 1, MaxAttempts(Reliable(maxRetries)));
  }

  lemma {:induction false} PlayOpen(k: Link, events: seq<Event>)
    ensures Play(k, events).open <==> k.open && Drops !in events
    decreases |events|
  {
    if events != [] { PlayOpen(Happens(k, events[0]), events[1..]); }
  }

  /** PublishMessage returns nil exactly if the channel survives until the send and the send succeeds. */
  lemma SentIff(k: Link, m: Msg, w: Weather)
    ensures SendOnce(k, m, w).1 <==> k.open && Drops !in w.before && w.sendOk
  {
    PlayOpen(k, w.before);
  }

  /** No attempt sends more than one copy, and without confirms none is sent and every call fails. */
  lemma {:induction false} CopiesPerRetry(k: Link, m: Msg, weather: nat -> Weather, attempt: nat, max: nat)
    requires 1 <= attempt <= max
    ensures var d := Retry(k, Trials(m, weather), attempt, max);
      && k.log <= d.link.log
      && |d.link.log| - |k.log| <= d.attempts - attempt + 1
      && (forall t :: |k.log| <= t < |d.link.log| ==> d.link.log[t] == m)
      && (!k.confirms ==> d.link.log == k.log && d.attempts == max && d.last == Ended(Disabled))
    decreases max - attempt
  {
    var (k', a) := Trials(m, weather)(k, attempt);
    AttemptSends(k, m, weather(attempt));
    if !Decisive(a) && attempt < max {
      CopiesPerRetry(k', m, weather, attempt + 1, max);
    }
  }

  lemma AttemptSends(k: Link, m: Msg, w: Weather)
    ensures TryOnce(k, m, w).0.log == k.log
         || (k.confirms && TryOnce(k, m, w).0.log == k.log + [m])
    ensures TryOnce(k, m, w).0.confirms == k.confirms
    ensures !k.confirms ==> TryOnce(k, m, w).1 == Ended(Disabled)
  {
    PlayKeeps(k, w.before);
    PlayKeeps(Publish(DrainAll(Play(k, w.before)), m), w.during);
  }

  // ------------------------------------------------------------ the pauses

  lemma {:induction false} Pow2Grows(a: nat, b: nat)
    requires a <= b
    ensures Pow2(a) <= Pow2(b)
    decreases b
  {
    if a < b { Pow2Grows(a, b - 1); }
  }

  lemma Pow2Small()
    ensures Pow2(0) == 1 && Pow2(1) == 2 && Pow2(2) == 4 && Pow2(3) == 8 && Pow2(4) == 16 && Pow2(5) == 32
  {
    assert Pow2(2) == 2 * Pow2(1) && Pow2(3) == 2 * Pow2(2) && Pow2(4) == 2 * Pow2(3) && Pow2(5) == 2 * Pow2(4);
  }

  /** The pauses double until the cap: 500 * (2^m - 1) up to five of them, then 10 s each. */
  lemma {:induction false} PausesTotal(pauses: seq<nat>)
    requires forall k :: 0 <= k < |pauses| ==> pauses[k] == PauseAfter(k + 1)
    ensures Total(pauses) == if |pauses| <= 5 then 500 * (Pow2(|pauses|) - 1) else 15_500 + 10_000 * (|pauses| - 5)
    decreases |pauses|
  {
    var m := |pauses|;
    if m > 0 {
      PausesTotal(pauses[..m - 1]);
      Pow2Small();
      if m > 5 { Pow2Grows(5, m - 1); }
    }
  }
}
