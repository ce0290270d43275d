/**
 * What holds in every state that some run of the protocol can reach, for any number
 * of goroutines, any calls and any interleaving.
 */
module PublishTheorems {
  import opened Wrappers
  import opened ConfirmLink
  import opened PublishProtocol
  import opened PublishInvariants

  /** `steps` is a run of `n` goroutines that ends in `s`. */
  predicate Reaches(n: nat, confirms: bool, steps: seq<Step>, s: State) {
    Execute(Initial(n, confirms), steps) == Some(s)
  }

  lemma Reached(n: nat, confirms: bool, steps: seq<Step>, s: State)
    requires Reaches(n, confirms, steps, s)
    ensures Inv(s)
  {
    InvInitially(n, confirms);
    InvAlong(Initial(n, confirms), steps);
  }

  // ------------------------------------------------------------ runs

  lemma {:induction false} ExecuteConcat(s: State, a: seq<Step>, b: seq<Step>)
    ensures Execute(s, a + b) == if Execute(s, a).None? then None else Execute(Execute(s, a).value, b)
    decreases |a|
  {
    if a == [] {
      assert a + b == b;
    } else {
      assert (a + b)[0] == a[0] && (a + b)[1..] == a[1..] + b;
      if Enabled(s, a[0]) { ExecuteConcat(Do(s, a[0]), a[1..], b); }
    }
  }

  lemma Then(s0: State, a: seq<Step>, s: State, step: Step)
    requires Execute(s0, a) == Some(s) && Enabled(s, step)
    ensures Execute(s0, a + [step]) == Some(Do(s, step))
  {
    ExecuteConcat(s0, a, [step]);
  }

  /** A goroutine that takes no step stays where it is. */
  lemma {:induction false} StandsStill(s: State, steps: seq<Step>, i: nat)
    requires Execute(s, steps).Some? && i < |s.callers|
    requires forall k :: 0 <= k < |steps| ==> Actor(steps[k]) != Some(i)
    ensures i < |Execute(s, steps).value.callers|
    ensures Execute(s, steps).value.callers[i] == s.callers[i]
    decreases |steps|
  {
    if steps != [] {
      CallersFrame(s, steps[0]);
      StandsStill(Do(s, steps[0]), steps[1..], i);
    }
  }

  // ------------------------------------------------------------ generations and connections

  /**
   * Outside the lock the manager's connection is the one dialled for its generation.
   * At most that one link is open, and none is while a successor is being dialled.
   */
  lemma OneLiveConnection(n: nat, confirms: bool, steps: seq<Step>, s: State)
    requires Reaches(n, confirms, steps, s)
    ensures s.writer.None? ==> s.conn == s.generation && |s.links| == s.generation + 1
    ensures forall l :: 0 <= l < |s.links| && s.links[l].open ==> l == s.conn
    ensures WriterAt(s, Dialing) ==> forall l :: 0 <= l < |s.links| ==> !s.links[l].open
    ensures |s.dials| == s.generation
  {
    Reached(n, confirms, steps, s);
  }

  /**
   * Among all reconnectIfStale(g) calls at most one dials; each that has returned
   * left the generation above g; and if Reconnect was never called, exactly one dialled.
   */
  lemma GatedReconnectDialsOnce(n: nat, confirms: bool, steps: seq<Step>, s: State, g: nat)
    requires Reaches(n, confirms, steps, s)
    ensures forall a, b | 0 <= a < |s.dials| && 0 <= b < |s.dials| && s.dials[a].gated && s.dials[b].gated ::
              s.dials[a].oldGen == g && s.dials[b].oldGen == g ==> a == b
    ensures forall r :: 0 <= r < |s.refreshes| && s.refreshes[r].oldGen == g ==>
              && g < s.refreshes[r].generation <= s.generation
              && s.refreshes[r].conn == s.refreshes[r].generation
              && g < |s.dials|
              && (s.dials[g].gated ==> s.dials[g].oldGen == g)
    ensures (forall a :: 0 <= a < |s.dials| ==> s.dials[a].gated) ==>
              forall r :: 0 <= r < |s.refreshes| && s.refreshes[r].oldGen == g ==>
                g < |s.dials| && forall a :: 0 <= a < |s.dials| ==> (s.dials[a].oldGen == g <==> a == g)
  {
    Reached(n, confirms, steps, s);
  }

  /** Reconnect is not gated: each completed call of it dialled once, whoever else did. */
  lemma UngatedAlwaysDials(n: nat, confirms: bool, steps: seq<Step>, s: State, q: nat, r: nat)
    requires Reaches(n, confirms, steps, s)
    requires q < |s.calls| && s.calls[q].kind.Ungated? && r < |s.calls| && s.calls[r].kind.Ungated?
    requires q != r
    ensures exists a, b :: 0 <= a < |s.dials| && 0 <= b < |s.dials| && a != b
                        && s.dials[a].msg == s.calls[q].msg && s.dials[b].msg == s.calls[r].msg
  {
    Reached(n, confirms, steps, s);
    var a :| 0 <= a < |s.dials| && s.dials[a] == Dial(s.calls[q].msg, false, s.calls[q].gen);
    var b :| 0 <= b < |s.dials| && s.dials[b] == Dial(s.calls[r].msg, false, s.calls[r].gen);
  }

  /** The second half of a call runs on a later connection than the first, which is closed by then. */
  lemma RetryUsesLaterConnection(n: nat, confirms: bool, steps: seq<Step>, s: State, i: nat)
    requires Reaches(n, confirms, steps, s)
    requires i < |s.callers| && s.callers[i].second && !s.callers[i].pc.Idle? && !s.callers[i].kind.Ungated?
    ensures s.callers[i].gen < s.callers[i].conn < |s.links|
    ensures !s.links[s.callers[i].gen].open
  {
    Reached(n, confirms, steps, s);
    assert CallerOk(s.callers[i], s.generation);
  }

  // ------------------------------------------------------------ confirmations

  /** No two callers are inside the critical section of the same link. */
  lemma PublishersExclude(n: nat, confirms: bool, steps: seq<Step>, s: State, i: nat, j: nat)
    requires Reaches(n, confirms, steps, s)
    requires i < |s.callers| && j < |s.callers| && InPub(s, i) && InPub(s, j)
    requires s.callers[i].conn == s.callers[j].conn
    ensures i == j
  {
    Reached(n, confirms, steps, s);
  }

  /**
   * Every publish is accounted for, in tag order, and what a free channel still owes
   * is exactly the waits nobody answered minus what was drained.
   */
  lemma ConfirmationsConserved(n: nat, confirms: bool, steps: seq<Step>, s: State, l: nat)
    requires Reaches(n, confirms, steps, s) && l < |s.links|
    ensures var k := s.links[l];
      && |k.log| == k.received + k.drained + |k.buffer| + |k.atBroker| && |k.buffer| <= 256
      && (forall j :: 0 <= j < |k.buffer| ==> k.buffer[j].tag == k.received + k.drained + 1 + j)
      && (forall j :: 0 <= j < |k.atBroker| ==> k.atBroker[j] == |k.log| - |k.atBroker| + 1 + j)
      && (k.holder.None? ==> Outstanding(k) + k.drained == k.timeouts + k.zeros)
      && (k.holder.None? && k.open ==> Outstanding(k) <= k.timeouts)
  {
    Reached(n, confirms, steps, s);
    assert LinkOk(s.links[l]);
  }

  /** What a waiting publisher receives is the verdict `ahead` places before its own tag. */
  lemma ReceivedVerdict(s: State, i: nat)
    requires Inv(s) && Enabled(s, Receive(i))
    ensures var c, k, s' := s.callers[i], s.links[s.callers[i].conn], Do(s, Receive(i));
      && s'.callers[i].conn == c.conn < |s'.links| && MsgOf(s', i) == MsgOf(s, i)
      && s'.callers[i].pc == Release(Confirmed(Taken(k), c.pc.tag, c.pc.ahead))
      && s'.links[c.conn].log == k.log && s'.links[c.conn].verdicts == k.verdicts
      && s'.links[c.conn].open == k.open
      && 1 <= c.pc.tag <= |k.log| && k.log[c.pc.tag - 1] == MsgOf(s, i)
      && (Taken(k) == ZERO_CONFIRMATION ==> !k.open)
      && (Taken(k) != ZERO_CONFIRMATION ==>
            && Taken(k).tag + c.pc.ahead == c.pc.tag
            && 1 <= Taken(k).tag <= |k.verdicts|
            && k.verdicts[Taken(k).tag - 1] == Taken(k).ack)
  {
    assert InPub(s, i);
    assert PubOk(s.callers[i], MsgOf(s, i), s.links[s.callers[i].conn]);
    assert LinkOk(s.links[s.callers[i].conn]);
  }

  /**
   * A publisher leaves the drain loop, sends, and receives, with anything the others
   * do in between.  What it receives is the verdict on its own publish exactly when
   * no earlier publish was still unanswered at the broker when it left the loop.
   */
  lemma ConfirmationMatches(n: nat, confirms: bool, before: seq<Step>, s: State, i: nat,
                            mid1: seq<Step>, mid2: seq<Step>, s': State)
    requires Reaches(n, confirms, before, s)
    requires i < |s.callers| && s.callers[i].pc.Drain? && s.callers[i].conn < |s.links|
    requires s.links[s.callers[i].conn].buffer == [] && s.links[s.callers[i].conn].open
    requires forall k :: 0 <= k < |mid1| ==> Actor(mid1[k]) != Some(i)
    requires forall k :: 0 <= k < |mid2| ==> Actor(mid2[k]) != Some(i)
    requires Execute(s, [DrainStep(i)] + mid1 + [SendOk(i)] + mid2 + [Receive(i)]) == Some(s')
    ensures i < |s'.callers| && s'.callers[i].conn < |s'.links|
    ensures var o, k' := s'.callers[i].pc, s'.links[s'.callers[i].conn];
      && o.Release? && o.o.Confirmed?
      && 1 <= o.o.tag <= |k'.log| && k'.log[o.o.tag - 1] == MsgOf(s', i)
      && (if o.o.c == ZERO_CONFIRMATION then !k'.open
          else && 1 <= o.o.c.tag <= |k'.verdicts| && k'.verdicts[o.o.c.tag - 1] == o.o.c.ack
               && (o.o.c.tag == o.o.tag <==> s.links[s.callers[i].conn].atBroker == []))
  {
    var s1, s2, s3, s4 := Stages(s, i, mid1, mid2, s');
    ReachedLater(n, confirms, before, s, [DrainStep(i)] + mid1 + [SendOk(i)] + mid2, s4);
    ReceivedVerdict(s4, i);
  }

  lemma ReachedLater(n: nat, confirms: bool, before: seq<Step>, s: State, steps: seq<Step>, s': State)
    requires Reaches(n, confirms, before, s) && Execute(s, steps) == Some(s')
    ensures Inv(s')
  {
    Reached(n, confirms, before, s);
    InvAlong(s, steps);
  }

  /** The states between the three steps of the publisher. */
  lemma Stages(s: State, i: nat, mid1: seq<Step>, mid2: seq<Step>, s': State)
    returns (s1: State, s2: State, s3: State, s4: State)
    requires i < |s.callers| && s.callers[i].pc.Drain? && s.callers[i].conn < |s.links|
    requires s.links[s.callers[i].conn].buffer == [] && s.links[s.callers[i].conn].open
    requires forall k :: 0 <= k < |mid1| ==> Actor(mid1[k]) != Some(i)
    requires forall k :: 0 <= k < |mid2| ==> Actor(mid2[k]) != Some(i)
    requires Execute(s, [DrainStep(i)] + mid1 + [SendOk(i)] + mid2 + [Receive(i)]) == Some(s')
    ensures Execute(s, [DrainStep(i)] + mid1 + [SendOk(i)] + mid2) == Some(s4)
    ensures i < |s4.callers| && Enabled(s4, Receive(i)) && s' == Do(s4, Receive(i))
    ensures s4.callers[i].pc.Wait? && s4.callers[i].pc.ahead == |s.links[s.callers[i].conn].atBroker|
    ensures s4.callers[i].conn == s.callers[i].conn
  {
    var a := [DrainStep(i)] + mid1;
    var b := a + [SendOk(i)];
    var c := b + mid2;
    ExecuteConcat(s, c, [Receive(i)]);
    ExecuteConcat(s, b, mid2);
    ExecuteConcat(s, a, [SendOk(i)]);
    ExecuteConcat(s, [DrainStep(i)], mid1);
    s1 := Do(s, DrainStep(i));
    assert Execute(s, [DrainStep(i)]) == Some(s1);
    s2 := Execute(s1, mid1).value;
    StandsStill(s1, mid1, i);
    s3 := Execute(s, b).value;
    assert s3 == Do(s2, SendOk(i));
    s4 := Execute(s3, mid2).value;
    StandsStill(s3, mid2, i);
  }

  /**
   * A PublishReliable that returned nil was sent under some tag, and the broker acked
   * the publish `ahead` places before that tag.  `ahead` never exceeds the number of
   * waits that have timed out on the link.
   */
  lemma NilMeansAcked(n: nat, confirms: bool, steps: seq<Step>, s: State, r: nat)
    requires Reaches(n, confirms, steps, s)
    requires r < |s.calls| && s.calls[r].kind.Reliable? && Succeeds(s.calls[r].kind, s.calls[r].last)
    ensures s.calls[r].last.Confirmed? && s.calls[r].conn < |s.links|
    ensures var o, k := s.calls[r].last, s.links[s.calls[r].conn];
      && 1 <= o.tag <= |k.log| && k.log[o.tag - 1] == s.calls[r].msg
      && 1 <= o.tag - o.ahead <= |k.verdicts| && k.verdicts[o.tag - o.ahead - 1]
      && o.ahead <= k.timeouts
  {
    Reached(n, confirms, steps, s);
    assert ReturnOk(s.calls[r], s.links);
  }

  /** On a link where no wait has ever timed out, nil means the broker acked this message. */
  lemma NilWithoutTimeouts(n: nat, confirms: bool, steps: seq<Step>, s: State, r: nat)
    requires Reaches(n, confirms, steps, s)
    requires r < |s.calls| && s.calls[r].kind.Reliable? && Succeeds(s.calls[r].kind, s.calls[r].last)
    requires s.calls[r].conn < |s.links| ==> s.links[s.calls[r].conn].timeouts == 0
    ensures s.calls[r].conn < |s.links|
    ensures exists t :: AckedUnder(s.links[s.calls[r].conn], t, s.calls[r].msg)
  {
    NilMeansAcked(n, confirms, steps, s, r);
    Reached(n, confirms, steps, s);
    assert LinkOk(s.links[s.calls[r].conn]);
    assert AckedUnder(s.links[s.calls[r].conn], s.calls[r].last.tag, s.calls[r].msg);
  }

  /** The message was published under tag `t` of the link and the broker acked that tag. */
  predicate AckedUnder(k: Link, t: nat, m: Msg) {
    1 <= t <= |k.verdicts| <= |k.log| && k.log[t - 1] == m && k.verdicts[t - 1]
  }

  // ------------------------------------------------------------ attempts and copies

  /**
   * An error comes only after every attempt on both connections, a call reconnects at
   * most once, and at most twice the number of attempts of one half were ever sent of its message.
   */
  lemma CopiesBounded(n: nat, confirms: bool, steps: seq<Step>, s: State, r: nat)
    requires Reaches(n, confirms, steps, s) && r < |s.calls| && !s.calls[r].kind.Ungated?
    ensures var c := s.calls[r];
      var most := if c.kind.Plain? then 1 else if c.kind.maxRetries <= 0 then 3 else c.kind.maxRetries;
      && (!Succeeds(c.kind, c.last) ==> c.second && c.attempt == most)
      && 1 <= c.attempt <= most
      && s.sent[c.msg] <= (if c.second then 2 * most else most)
    ensures forall a, b | 0 <= a < |s.refreshes| && 0 <= b < |s.refreshes| ::
              s.refreshes[a].msg == s.calls[r].msg == s.refreshes[b].msg ==> a == b
  {
    Reached(n, confirms, steps, s);
    assert ReturnOk(s.calls[r], s.links);
    assert RecordOk(s, s.calls[r]);
  }

  // ------------------------------------------------------------ the drain loop

  /** Once its channel is closed, a draining caller never leaves the loop nor frees pubMu. */
  lemma {:induction false} DrainHangs(s: State, steps: seq<Step>, i: nat)
    requires Inv(s) && Execute(s, steps).Some?
    requires i < |s.callers| && s.callers[i].pc.Drain? && s.callers[i].conn < |s.links|
    requires !s.links[s.callers[i].conn].open
    ensures var s' := Execute(s, steps).value;
      && i < |s'.callers| && s'.callers[i] == s.callers[i]
      && s'.callers[i].conn < |s'.links| && s'.links[s'.callers[i].conn].holder == Some(i)
    decreases |steps|
  {
    assert InPub(s, i);
    if steps != [] {
      CallersFrame(s, steps[0]);
      LinksFrame(s, steps[0]);
      NoneReopens(s, steps[0], s.callers[i].conn);
      InvKept(s, steps[0]);
      DrainHangs(Do(s, steps[0]), steps[1..], i);
    }
  }

  /** If nobody else moves, an open channel is left after one turn more than there are stale confirmations. */
  lemma {:induction false} DrainEnds(s: State, i: nat) returns (steps: seq<Step>)
    requires i < |s.callers| && s.callers[i].pc.Drain? && s.callers[i].conn < |s.links|
    requires s.links[s.callers[i].conn].open
    ensures |steps| == |s.links[s.callers[i].conn].buffer| + 1
    ensures forall k :: 0 <= k < |steps| ==> steps[k] == DrainStep(i)
    ensures Execute(s, steps).Some? && i < |Execute(s, steps).value.callers|
    ensures Execute(s, steps).value.callers[i].pc.Send?
    decreases |s.links[s.callers[i].conn].buffer|
  {
    var s' := Do(s, DrainStep(i));
    if s.links[s.callers[i].conn].buffer == [] {
      steps := [DrainStep(i)];
      assert Execute(s', []) == Some(s');
    } else {
      var rest := DrainEnds(s', i);
      steps := [DrainStep(i)] + rest;
      assert steps[1..] == rest;
    }
  }

  /** Goroutine `i` takes no step but turns of the drain loop; the others take any. */
  predicate OnlyDrains(steps: seq<Step>, i: nat) {
    forall k :: 0 <= k < |steps| && Actor(steps[k]) == Some(i) ==> steps[k] == DrainStep(i)
  }

  function DrainTurns(steps: seq<Step>, i: nat): nat {
    if steps == [] then 0 else (if steps[0] == DrainStep(i) then 1 else 0) + DrainTurns(steps[1..], i)
  }

  /** Caller `i` drains the open link `l`. */
  predicate Draining(s: State, i: nat, l: nat) {
    i < |s.callers| && s.callers[i].pc.Drain? && s.callers[i].conn == l && l < |s.links| && s.links[l].open
  }

  /** While somebody drains a link, nobody else's step changes what is outstanding on it. */
  lemma OthersLeaveDebt(s: State, step: Step, i: nat, l: nat)
    requires Inv(s) && Enabled(s, step) && Draining(s, i, l) && Actor(step) != Some(i)
    ensures l < |Do(s, step).links| && Outstanding(Do(s, step).links[l]) == Outstanding(s.links[l])
    ensures i < |Do(s, step).callers| && Do(s, step).callers[i] == s.callers[i]
  {
    CallersFrame(s, step);
    LinksFrame(s, step);
    assert InPub(s, i);
    LedgerMoves(s, step, l);
    InvKept(s, step);
    assert LinkOk(s.links[l]) && LinkOk(Do(s, step).links[l]);
  }

  /** A turn that does not end the loop removes one confirmation. */
  lemma TurnPaysOne(s: State, i: nat, l: nat)
    requires Enabled(s, DrainStep(i)) && Draining(s, i, l)
    ensures var s' := Do(s, DrainStep(i)); i < |s'.callers| && l < |s'.links| && s'.callers[i].conn == l
    ensures var s' := Do(s, DrainStep(i));
      s'.callers[i].pc.Drain? ==> Outstanding(s'.links[l]) + 1 == Outstanding(s.links[l])
  {
  }

  /** Out of the loop, a caller that takes no other step does not get back into it. */
  lemma {:induction false} StaysOut(s: State, steps: seq<Step>, i: nat)
    requires Execute(s, steps).Some? && OnlyDrains(steps, i) && i < |s.callers| && !s.callers[i].pc.Drain?
    ensures i < |Execute(s, steps).value.callers| && !Execute(s, steps).value.callers[i].pc.Drain?
    decreases |steps|
  {
    if steps != [] {
      CallersFrame(s, steps[0]);
      StaysOut(Do(s, steps[0]), steps[1..], i);
    }
  }

  /** A closed link stays closed. */
  lemma {:induction false} StaysClosed(s: State, steps: seq<Step>, l: nat)
    requires Execute(s, steps).Some? && l < |s.links|
    ensures l < |Execute(s, steps).value.links|
    ensures Execute(s, steps).value.links[l].open ==> s.links[l].open
    decreases |steps|
  {
    if steps != [] {
      LinksFrame(s, steps[0]);
      NoneReopens(s, steps[0], l);
      StaysClosed(Do(s, steps[0]), steps[1..], l);
    }
  }

  /**
   * In every interleaving: as long as the caller is in the loop and the channel open, its
   * turns and what is still outstanding add up to what was outstanding at the start.
   */
  lemma {:induction false} DrainTurnsPay(s: State, steps: seq<Step>, i: nat, l: nat)
    requires Inv(s) && Draining(s, i, l) && Execute(s, steps).Some? && OnlyDrains(steps, i)
    requires Draining(Execute(s, steps).value, i, l)
    ensures DrainTurns(steps, i) + Outstanding(Execute(s, steps).value.links[l]) == Outstanding(s.links[l])
    decreases |steps|
  {
    if steps != [] {
      var s1 := Do(s, steps[0]);
      if steps[0] == DrainStep(i) { TurnPaysOne(s, i, l); } else { OthersLeaveDebt(s, steps[0], i, l); }
      if !s1.callers[i].pc.Drain? { StaysOut(s1, steps[1..], i); }
      StaysClosed(s1, steps[1..], l);
      InvKept(s, steps[0]);
      DrainTurnsPay(s1, steps[1..], i, l);
    }
  }

  /**
   * The drain loop ends if and only if its channel stays open: a closed channel is never left,
   * an open one can be, and no run takes more turns than there were confirmations outstanding
   * without having left the loop or lost the channel.
   */
  lemma DrainEndsIffOpen(n: nat, confirms: bool, before: seq<Step>, s: State, i: nat)
    requires Reaches(n, confirms, before, s)
    requires i < |s.callers| && s.callers[i].pc.Drain? && s.callers[i].conn < |s.links|
    ensures s.links[s.callers[i].conn].open <==>
            exists steps :: LeavesDrain(s, steps, i)
    ensures forall steps | Execute(s, steps).Some? && OnlyDrains(steps, i)
                           && DrainTurns(steps, i) > Outstanding(s.links[s.callers[i].conn]) ::
              LeavesDrain(s, steps, i) || IsClosed(Execute(s, steps).value, s.callers[i].conn)
  {
    var l := s.callers[i].conn;
    Reached(n, confirms, before, s);
    if s.links[l].open {
      var steps := DrainEnds(s, i);
      assert LeavesDrain(s, steps, i);
    } else {
      forall steps | Execute(s, steps).Some? ensures !LeavesDrain(s, steps, i) {
        DrainHangs(s, steps, i);
      }
    }
    forall steps | Execute(s, steps).Some? && OnlyDrains(steps, i) && DrainTurns(steps, i) > Outstanding(s.links[l])
      ensures LeavesDrain(s, steps, i) || IsClosed(Execute(s, steps).value, l)
    {
      StaysClosed(s, steps, l);
      KeepsLink(s, steps, i);
      if Draining(Execute(s, steps).value, i, l) { DrainTurnsPay(s, steps, i, l); }
    }
  }

  predicate IsClosed(s: State, l: nat) {
    l < |s.links| && !s.links[l].open
  }

  /** A caller that takes nothing but turns of the drain loop keeps its connection. */
  lemma {:induction false} KeepsLink(s: State, steps: seq<Step>, i: nat)
    requires Execute(s, steps).Some? && OnlyDrains(steps, i) && i < |s.callers|
    ensures i < |Execute(s, steps).value.callers| && Execute(s, steps).value.callers[i].conn == s.callers[i].conn
    decreases |steps|
  {
    if steps != [] {
      CallersFrame(s, steps[0]);
      KeepsLink(Do(s, steps[0]), steps[1..], i);
    }
  }

  predicate LeavesDrain(s: State, steps: seq<Step>, i: nat) {
    && Execute(s, steps).Some?
    && i < |Execute(s, steps).value.callers|
    && !Execute(s, steps).value.callers[i].pc.Drain?
  }

  // ------------------------------------------------------------ two runs that go wrong

  /** An idle goroutine calls PublishReliable and runs, alone, up to the wait. */
  lemma RunsToWait(s: State, i: nat, max: int) returns (steps: seq<Step>, s': State)
    requires i < |s.callers| && s.callers[i].pc.Idle? && s.writer.None? && s.conn < |s.links|
    requires var k := s.links[s.conn]; k.open && k.confirms && k.holder.None? && k.buffer == []
    ensures Execute(s, steps) == Some(s')
    ensures var k, m := s.links[s.conn], Msg(i, s.callers[i].serial + 1);
      s' == s.(links := s.links[s.conn := Publish(k.(holder := Some(i)), m)],
               callers := s.callers[i := Caller(Reliable(max), m.serial, Wait(|k.log| + 1, |k.atBroker|),
                                                s.conn, s.generation, false, 1, 1)],
               sent := s.sent + multiset{m})
  {
    var s1 := Do(s, Call(i, Reliable(max)));
    var s2 := Do(s1, TakeSnapshot(i));
    var s3 := Do(s2, EnterAttempt(i));
    var s4 := Do(s3, DrainStep(i));
    s' := Do(s4, SendOk(i));
    assert Execute(s4, [SendOk(i)]) == Some(s') by { assert Execute(s', []) == Some(s'); }
    assert Execute(s3, [DrainStep(i), SendOk(i)]) == Some(s');
    assert Execute(s2, [EnterAttempt(i), DrainStep(i), SendOk(i)]) == Some(s');
    assert Execute(s1, [TakeSnapshot(i), EnterAttempt(i), DrainStep(i), SendOk(i)]) == Some(s');
    steps := [Call(i, Reliable(max)), TakeSnapshot(i), EnterAttempt(i), DrainStep(i), SendOk(i)];
    assert s'.callers == s.callers[i := s'.callers[i]];
  }

  /** The wait times out and pubMu is released. */
  lemma RunsToTimeout(s: State, i: nat) returns (steps: seq<Step>, s': State)
    requires OnLink(s, i) && s.callers[i].pc.Wait?
    ensures Execute(s, steps) == Some(s')
    ensures var l := s.callers[i].conn;
      s' == s.(links := s.links[l := GiveUp(s.links[l]).(holder := None)],
               callers := s.callers[i := s.callers[i].(pc := Judge(NoConfirm))])
  {
    var s1 := Do(s, TimeOut(i));
    s' := Do(s1, ReleasePubMu(i));
    assert Execute(s1, [ReleasePubMu(i)]) == Some(s') by { assert Execute(s', []) == Some(s'); }
    steps := [TimeOut(i), ReleasePubMu(i)];
  }

  /** A buffered ack is received and the call returns nil. */
  lemma RunsToNil(s: State, i: nat) returns (steps: seq<Step>, s': State)
    requires OnLink(s, i) && s.callers[i].pc.Wait? && s.callers[i].kind.Reliable?
    requires s.links[s.callers[i].conn].buffer != [] && s.links[s.callers[i].conn].buffer[0].ack
    ensures Execute(s, steps) == Some(s')
    ensures var c, k := s.callers[i], s.links[s.callers[i].conn];
      var o := Confirmed(k.buffer[0], c.pc.tag, c.pc.ahead);
      s' == s.(links := s.links[c.conn := Take(k).(holder := None)],
               callers := s.callers[i := c.(pc := Idle)],
               calls := s.calls + [Return(MsgOf(s, i), c.kind, o, c.conn, c.gen, c.second, c.attempt, c.copies)])
  {
    var s1 := Do(s, Receive(i));
    var s2 := Do(s1, ReleasePubMu(i));
    var s3 := Do(s2, JudgeAttempt(i));
    s' := Do(s3, Finish(i));
    assert Execute(s3, [Finish(i)]) == Some(s') by { assert Execute(s', []) == Some(s'); }
    assert Execute(s2, [JudgeAttempt(i), Finish(i)]) == Some(s');
    assert Execute(s1, [ReleasePubMu(i), JudgeAttempt(i), Finish(i)]) == Some(s');
    steps := [Receive(i), ReleasePubMu(i), JudgeAttempt(i), Finish(i)];
  }

  /**
   * Goroutine 0 times out; goroutine 1 drains before the late ack arrives, publishes,
   * and takes that ack for its own.  Its PublishReliable returns nil although the
   * broker then nacks its message.
   */
  lemma LateAckIsMistaken() returns (steps: seq<Step>, s: State)
    ensures Reaches(2, true, steps, s)
    ensures s.calls == [Return(Msg(1, 1), Reliable(1), Confirmed(Confirmation(1, true), 2, 1), 0, 0, false, 1, 1)]
    ensures Succeeds(s.calls[0].kind, s.calls[0].last)
    ensures |s.links| == 1 && s.links[0].log == [Msg(0, 1), Msg(1, 1)] && s.links[0].verdicts == [true, false]
  {
    var s0 := Initial(2, true);
    var a, s1 := SecondWaits(s0);
    var b, s2 := LateAckArrives(s1);
    ExecuteConcat(s0, a, b);
    s := Do(s2, BrokerConfirms(0, false));
    Then(s0, a + b, s2, BrokerConfirms(0, false));
    steps := a + b + [BrokerConfirms(0, false)];
  }

  /** Goroutine 1 has published while the confirmation goroutine 0 gave up on is still out. */
  predicate SecondIsWaiting(s: State) {
    && |s.callers| == 2 && s.calls == [] && s.writer.None?
    && s.callers[1] == Caller(Reliable(1), 1, Wait(2, 1), 0, 0, false, 1, 1)
    && s.links == [Fresh(true).(atBroker := [1, 2], log := [Msg(0, 1), Msg(1, 1)], timeouts := 1, holder := Some(1))]
  }

  lemma SecondWaits(s: State) returns (steps: seq<Step>, s': State)
    requires s == Initial(2, true)
    ensures Execute(s, steps) == Some(s') && SecondIsWaiting(s')
  {
    var a, s1 := FirstTimesOut(s);
    var b, s2 := RunsToWait(s1, 1, 1);
    ExecuteConcat(s, a, b);
    steps, s' := a + b, s2;
    var before := s1.links[0].(holder := Some(1));
    assert s2.links == [Publish(before, Msg(1, 1))];
    assert [1] + [2] == [1, 2] && [Msg(0, 1)] + [Msg(1, 1)] == [Msg(0, 1), Msg(1, 1)];
  }

  lemma LateAckArrives(s: State) returns (steps: seq<Step>, s': State)
    requires SecondIsWaiting(s)
    ensures Execute(s, steps) == Some(s')
    ensures s'.calls == [Return(Msg(1, 1), Reliable(1), Confirmed(Confirmation(1, true), 2, 1), 0, 0, false, 1, 1)]
    ensures |s'.links| == 1 && s'.links[0].open && s'.links[0].buffer == [] && s'.links[0].atBroker == [2]
    ensures s'.links[0].log == [Msg(0, 1), Msg(1, 1)] && s'.links[0].verdicts == [true]
  {
    var s1 := Do(s, BrokerConfirms(0, true));
    var rest, s2 := RunsToNil(s1, 1);
    steps, s' := [BrokerConfirms(0, true)] + rest, s2;
    assert steps[1..] == rest;
  }

  lemma FirstTimesOut(s: State) returns (steps: seq<Step>, s': State)
    requires s == Initial(2, true)
    ensures Execute(s, steps) == Some(s')
    ensures |s'.callers| == 2 && s'.callers[1] == s.callers[1] && s'.calls == []
    ensures s'.writer.None? && s'.conn == s'.generation == 0
    ensures s'.links == [Fresh(true).(atBroker := [1], log := [Msg(0, 1)], timeouts := 1)]
  {
    var a, s1 := RunsToWait(s, 0, 1);
    var b, s2 := RunsToTimeout(s1, 0);
    ExecuteConcat(s, a, b);
    steps, s' := a + b, s2;
    var sent := Publish(Fresh(true).(holder := Some(0)), Msg(0, 1));
    assert sent.log == [Msg(0, 1)] && sent.atBroker == [1];
    assert s1.links == [sent];
    assert s2.links == [GiveUp(sent).(holder := None)];
  }

  /** An idle goroutine calls a publishing entry point and takes its snapshot. */
  lemma RunsToSnapshot(s: State, i: nat, kind: Kind) returns (steps: seq<Step>, s': State)
    requires i < |s.callers| && s.callers[i].pc.Idle? && s.writer.None? && !kind.Ungated?
    ensures Execute(s, steps) == Some(s')
    ensures s' == s.(callers := s.callers[i := Caller(kind, s.callers[i].serial + 1, Enter,
                                                      s.conn, s.generation, false, 1, 0)])
  {
    var s1 := Do(s, Call(i, kind));
    s' := Do(s1, TakeSnapshot(i));
    assert Execute(s1, [TakeSnapshot(i)]) == Some(s') by { assert Execute(s', []) == Some(s'); }
    steps := [Call(i, kind), TakeSnapshot(i)];
  }

  /** An idle goroutine calls Reconnect and closes the current connection. */
  lemma RunsToClosed(s: State, i: nat) returns (steps: seq<Step>, s': State)
    requires i < |s.callers| && s.callers[i].pc.Idle? && s.writer.None? && s.conn < |s.links|
    ensures Execute(s, steps) == Some(s')
    ensures s' == s.(links := s.links[s.conn := Shut(s.links[s.conn])], writer := Some(i),
                     callers := s.callers[i := Caller(Ungated, s.callers[i].serial + 1, Dialing, 0, 0, false, 0, 0)])
  {
    var s1 := Do(s, Call(i, Ungated));
    var s2 := Do(s1, LockMu(i));
    s' := Do(s2, CloseOld(i));
    assert Execute(s2, [CloseOld(i)]) == Some(s') by { assert Execute(s', []) == Some(s'); }
    assert Execute(s1, [LockMu(i), CloseOld(i)]) == Some(s');
    steps := [Call(i, Ungated), LockMu(i), CloseOld(i)];
  }

  /** Under the lock: close, dial, bump the generation. */
  lemma RunsToBumped(s: State, i: nat, confirms: bool) returns (steps: seq<Step>, s': State)
    requires i < |s.callers| && s.callers[i].pc.Closing? && s.conn < |s.links|
    ensures Execute(s, steps) == Some(s')
    ensures var c := s.callers[i];
      s' == s.(links := s.links[s.conn := Shut(s.links[s.conn])] + [Fresh(confirms)], conn := |s.links|,
               generation := s.generation + 1, callers := s.callers[i := c.(pc := ReturnConn)],
               dials := s.dials + [Dial(MsgOf(s, i), !c.kind.Ungated?, c.gen)])
  {
    var s1 := Do(s, CloseOld(i));
    var s2 := Do(s1, DialOk(i, confirms));
    s' := Do(s2, BumpGeneration(i));
    assert Execute(s2, [BumpGeneration(i)]) == Some(s') by { assert Execute(s', []) == Some(s'); }
    assert Execute(s1, [DialOk(i, confirms), BumpGeneration(i)]) == Some(s');
    steps := [CloseOld(i), DialOk(i, confirms), BumpGeneration(i)];
  }

  /** A Reconnect that waits for the lock replaces the connection and returns. */
  lemma RunsToReplaced(s: State, i: nat, confirms: bool) returns (steps: seq<Step>, s': State)
    requires i < |s.callers| && s.callers[i].kind.Ungated? && s.callers[i].pc.AcquireMu?
    requires s.writer.None? && s.conn < |s.links|
    ensures Execute(s, steps) == Some(s')
    ensures var c, m := s.callers[i], MsgOf(s, i);
      s' == s.(links := s.links[s.conn := Shut(s.links[s.conn])] + [Fresh(confirms)], conn := |s.links|,
               generation := s.generation + 1, callers := s.callers[i := c.(pc := Idle)],
               dials := s.dials + [Dial(m, false, c.gen)],
               calls := s.calls + [Return(m, Ungated, Replaced, c.conn, c.gen, c.second, c.attempt, c.copies)])
  {
    var s1 := Do(s, LockMu(i));
    var bump, s2 := RunsToBumped(s1, i, confirms);
    var s3 := Do(s2, UnlockMu(i));
    s' := Do(s3, Finish(i));
    assert Execute(s, [LockMu(i)]) == Some(s1) by { assert Execute(s1, []) == Some(s1); }
    ExecuteConcat(s, [LockMu(i)], bump);
    Then(s, [LockMu(i)] + bump, s2, UnlockMu(i));
    Then(s, [LockMu(i)] + bump + [UnlockMu(i)], s3, Finish(i));
    steps := [LockMu(i)] + bump + [UnlockMu(i)] + [Finish(i)];
  }

  /** Both goroutines are inside Reconnect, waiting for the lock. */
  predicate BothReconnect(s: State) {
    |s.callers| == 2 && forall i :: 0 <= i < 2 ==> s.callers[i] == Caller(Ungated, 1, AcquireMu, 0, 0, false, 0, 0)
  }

  lemma RunsToBothWaiting() returns (steps: seq<Step>, s: State)
    ensures Reaches(2, true, steps, s) && BothReconnect(s)
    ensures s.writer.None? && s.conn == 0 && |s.links| == 1 && s.dials == [] && s.calls == []
  {
    var s0 := Initial(2, true);
    var s1 := Do(s0, Call(0, Ungated));
    s := Do(s1, Call(1, Ungated));
    assert Execute(s1, [Call(1, Ungated)]) == Some(s) by { assert Execute(s, []) == Some(s); }
    steps := [Call(0, Ungated), Call(1, Ungated)];
  }

  /**
   * Two goroutines call Reconnect before either has taken the lock.  Both dial, the
   * second one closing the connection that the first has only just dialled.
   */
  lemma BothReconnectsDial() returns (before: seq<Step>, waiting: State, after: seq<Step>, s: State)
    ensures Reaches(2, true, before, waiting) && BothReconnect(waiting) && waiting.dials == []
    ensures Reaches(2, true, before + after, s)
    ensures s.dials == [Dial(Msg(0, 1), false, 0), Dial(Msg(1, 1), false, 0)]
    ensures |s.calls| == 2 && forall r :: 0 <= r < 2 ==> s.calls[r].kind.Ungated? && s.calls[r].msg == Msg(r, 1)
    ensures |s.links| == 3 && !s.links[1].open && s.links[1].log == []
  {
    before, waiting := RunsToBothWaiting();
    var first, s1 := RunsToReplaced(waiting, 0, true);
    var second, s2 := RunsToReplaced(s1, 1, true);
    after, s := first + second, s2;
    ExecuteConcat(waiting, first, second);
    ExecuteConcat(Initial(2, true), before, after);
  }

  lemma RunsToStranding() returns (steps: seq<Step>, s: State)
    ensures Reaches(2, true, steps, s)
    ensures |s.callers| == 2 && s.callers[1].pc == Drain && s.callers[1].kind == Reliable(3)
    ensures s.callers[1].conn < |s.links| && !s.links[s.callers[1].conn].open
  {
    var s0 := Initial(2, true);
    var a, s1 := RunsToSnapshot(s0, 1, Reliable(3));
    var b, s2 := RunsToClosed(s1, 0);
    ExecuteConcat(s0, a, b);
    s := Do(s2, EnterAttempt(1));
    Then(s0, a + b, s2, EnterAttempt(1));
    steps := a + b + [EnterAttempt(1)];
  }

  /**
   * Reconnect closes the connection under a caller that still holds its copy: the
   * caller enters the drain loop of the closed channel and never returns.
   */
  lemma CloseStrandsPublisher() returns (steps: seq<Step>, s: State)
    ensures Reaches(2, true, steps, s)
    ensures |s.callers| == 2 && s.callers[1].kind == Reliable(3)
    ensures forall more | Execute(s, more).Some? ::
              1 < |Execute(s, more).value.callers| && Execute(s, more).value.callers[1].pc == Drain
  {
    steps, s := RunsToStranding();
    Reached(2, true, steps, s);
    forall more | Execute(s, more).Some?
      ensures 1 < |Execute(s, more).value.callers| && Execute(s, more).value.callers[1].pc == Drain
    {
      DrainHangs(s, more, 1);
    }
  }
}
