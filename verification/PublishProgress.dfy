/**
 * The manager's lock and the locks of the links never block each other: whoever holds
 * one can let go of it by its own steps, with a single exception.
 */
module PublishProgress {
  import opened Wrappers
  import opened ConfirmLink
  import opened PublishProtocol
  import opened PublishInvariants
  import opened PublishTheorems

  // ------------------------------------------------------------ nobody is stuck but behind a lock

  ghost predicate CanStep(s: State, i: nat) {
    exists step :: Actor(step) == Some(i) && Enabled(s, step)
  }

  /** Goroutine `i` waits for ConnManager.mu, or for the pubMu of its connection. */
  predicate WaitsForMu(s: State, i: nat) {
    i < |s.callers| && s.writer.Some? && (s.callers[i].pc.Snapshot? || s.callers[i].pc.AcquireMu?)
  }

  predicate WaitsForPubMu(s: State, i: nat) {
    OnLink(s, i) && s.callers[i].pc.Enter? && s.links[s.callers[i].conn].confirms
    && s.links[s.callers[i].conn].holder.Some?
  }

  /** The next step of a goroutine that waits for no lock. */
  function Next(s: State, i: nat): Step
    requires i < |s.callers|
  {
    match s.callers[i].pc
    case Idle => Call(i, Plain)
    case Snapshot => TakeSnapshot(i)
    case Enter => EnterAttempt(i)
    case Drain => DrainStep(i)
    case Send(_) => SendFail(i)
    case Wait(_, _) => TimeOut(i)
    case Release(_) => ReleasePubMu(i)
    case Judge(_) => JudgeAttempt(i)
    case AcquireMu => LockMu(i)
    case CheckGen => CheckGeneration(i)
    case Closing => CloseOld(i)
    case Dialing => DialOk(i, true)
    case Bump => BumpGeneration(i)
    case ReturnConn => UnlockMu(i)
    case Finished(_) => Finish(i)
  }

  lemma NextIsEnabled(s: State, i: nat)
    requires Inv(s) && i < |s.callers| && !WaitsForMu(s, i) && !WaitsForPubMu(s, i)
    ensures Actor(Next(s, i)) == Some(i) && Enabled(s, Next(s, i))
  {
    assert CallerOk(s.callers[i], s.generation);
  }

  /** Whoever holds a lock waits for none, so it can take a step. */
  lemma HoldersCanStep(s: State, i: nat)
    requires Inv(s) && i < |s.callers| && (s.writer == Some(i) || InPub(s, i))
    ensures CanStep(s, i)
  {
    NextIsEnabled(s, i);
  }

  /** A goroutine can take a step exactly if it waits for no lock; otherwise that lock's holder can. */
  lemma NoDeadlock(n: nat, confirms: bool, steps: seq<Step>, s: State, i: nat)
    requires Reaches(n, confirms, steps, s) && i < |s.callers|
    ensures CanStep(s, i) <==> !WaitsForMu(s, i) && !WaitsForPubMu(s, i)
    ensures WaitsForMu(s, i) ==> s.writer.value != i && CanStep(s, s.writer.value)
    ensures WaitsForPubMu(s, i) ==>
              var h := s.links[s.callers[i].conn].holder.value; h != i && CanStep(s, h)
  {
    Reached(n, confirms, steps, s);
    if WaitsForMu(s, i) {
      HoldersCanStep(s, s.writer.value);
    } else if WaitsForPubMu(s, i) {
      assert HeldBy(s, s.callers[i].conn, s.links[s.callers[i].conn].holder.value);
      HoldersCanStep(s, s.links[s.callers[i].conn].holder.value);
    } else {
      NextIsEnabled(s, i);
    }
  }

  // ------------------------------------------------------------ the manager's lock comes free

  ghost predicate OnlyBy(steps: seq<Step>, i: nat) {
    forall k :: 0 <= k < |steps| ==> Actor(steps[k]) == Some(i)
  }

  /** How many steps the holder of the manager's lock is away from unlocking it. */
  function MuDistance(pc: Pc): nat {
    match pc
    case CheckGen => 5
    case Closing => 4
    case Dialing => 3
    case Bump => 2
    case ReturnConn => 1
    case _ => 0
  }

  lemma MuStep(s: State, i: nat)
    requires Inv(s) && s.writer == Some(i) && i < |s.callers|
    ensures Actor(Next(s, i)) == Some(i) && Enabled(s, Next(s, i)) && InMu(s.callers[i].pc)
    ensures var s' := Do(s, Next(s, i));
      i < |s'.callers| &&
      (s'.writer.None? || (s'.writer == Some(i) && MuDistance(s'.callers[i].pc) < MuDistance(s.callers[i].pc)))
  {
    NextIsEnabled(s, i);
  }

  /** Once dialling succeeds, the holder of the manager's lock unlocks it by its own steps. */
  lemma {:induction false} MuComesFree(s: State, i: nat) returns (steps: seq<Step>)
    requires Inv(s) && s.writer == Some(i) && i < |s.callers|
    ensures OnlyBy(steps, i) && |steps| <= 5
    ensures |steps| <= MuDistance(s.callers[i].pc)
    ensures Execute(s, steps).Some? && Execute(s, steps).value.writer.None?
    decreases MuDistance(s.callers[i].pc)
  {
    var step := Next(s, i);
    MuStep(s, i);
    var s' := Do(s, step);
    if s'.writer.None? {
      steps := [step];
      assert Execute(s', []) == Some(s');
    } else {
      InvKept(s, step);
      var rest := MuComesFree(s', i);
      steps := [step] + rest;
      assert steps[1..] == rest;
    }
  }

  // ------------------------------------------------------------ pubMu comes free

  /** Whatever happens to the message, the holder of pubMu gets from the send to unlocking it. */
  lemma PubMuStep(s: State, i: nat)
    requires Inv(s) && i < |s.callers| && InPub(s, i) && !s.callers[i].pc.Drain? && !s.callers[i].pc.Release?
    ensures var step := Next(s, i);
      && Actor(step) == Some(i) && Enabled(s, step)
      && var s' := Do(s, step);
         i < |s'.callers| && s'.callers[i].pc.Release? && s'.callers[i].conn == s.callers[i].conn < |s'.links|
  {
  }

  lemma Releases(s: State, i: nat)
    requires OnLink(s, i) && s.callers[i].pc.Release?
    ensures Enabled(s, ReleasePubMu(i)) && s.callers[i].conn < |Do(s, ReleasePubMu(i)).links|
    ensures Do(s, ReleasePubMu(i)).links[s.callers[i].conn].holder.None?
  {
  }

  /** The lock of link `l` is free after the run. */
  predicate Frees(s: State, steps: seq<Step>, l: nat) {
    && Execute(s, steps).Some? && l < |Execute(s, steps).value.links|
    && Execute(s, steps).value.links[l].holder.None?
  }

  lemma FreesFromSend(s: State, i: nat) returns (steps: seq<Step>)
    requires Inv(s) && i < |s.callers| && InPub(s, i) && !s.callers[i].pc.Drain?
    ensures OnlyBy(steps, i) && Frees(s, steps, s.callers[i].conn)
  {
    if s.callers[i].pc.Release? {
      Releases(s, i);
      var s1 := Do(s, ReleasePubMu(i));
      steps := [ReleasePubMu(i)];
      assert Execute(s1, []) == Some(s1);
    } else {
      var step := Next(s, i);
      PubMuStep(s, i);
      var s1 := Do(s, step);
      Releases(s1, i);
      var s2 := Do(s1, ReleasePubMu(i));
      assert Execute(s1, [ReleasePubMu(i)]) == Some(s2) by { assert Execute(s2, []) == Some(s2); }
      steps := [step] + [ReleasePubMu(i)];
      assert steps[1..] == [ReleasePubMu(i)];
    }
  }

  /** A drainer of an open link drains it, goes on to the send, and from there to the end. */
  lemma FreesFromDrain(s: State, i: nat) returns (steps: seq<Step>)
    requires Inv(s) && i < |s.callers| && InPub(s, i) && s.callers[i].pc.Drain? && s.links[s.callers[i].conn].open
    ensures OnlyBy(steps, i) && Frees(s, steps, s.callers[i].conn)
  {
    var drain := DrainEnds(s, i);
    var s1 := Execute(s, drain).value;
    InvAlong(s, drain);
    DrainingStaysIn(s, drain, i);
    var rest := FreesFromSend(s1, i);
    ExecuteConcat(s, drain, rest);
    steps := drain + rest;
  }

  /** Draining changes neither the connection of the caller nor the holder of its lock. */
  lemma {:induction false} DrainingStaysIn(s: State, steps: seq<Step>, i: nat)
    requires OnLink(s, i) && s.links[s.callers[i].conn].confirms && Execute(s, steps).Some?
    requires forall k :: 0 <= k < |steps| ==> steps[k] == DrainStep(i)
    ensures var s' := Execute(s, steps).value;
      OnLink(s', i) && s'.callers[i].conn == s.callers[i].conn && s'.links[s.callers[i].conn].confirms
    decreases |steps|
  {
    if steps != [] { DrainingStaysIn(Do(s, steps[0]), steps[1..], i); }
  }

  /**
   * The pubMu of a link can come free if and only if its holder is not in the drain loop of a
   * closed channel; and then the holder frees it by its own steps.
   */
  lemma PubMuComesFreeIff(n: nat, confirms: bool, before: seq<Step>, s: State, l: nat)
    requires Reaches(n, confirms, before, s) && l < |s.links| && s.links[l].holder.Some?
    ensures var h := s.links[l].holder.value; h < |s.callers| && InPub(s, h) && s.callers[h].conn == l
    ensures var h := s.links[l].holder.value;
      && ((exists steps :: Frees(s, steps, l)) <==> !(s.callers[h].pc.Drain? && !s.links[l].open))
      && ((exists steps :: Frees(s, steps, l)) ==> exists steps :: OnlyBy(steps, h) && Frees(s, steps, l))
  {
    Reached(n, confirms, before, s);
    var h := s.links[l].holder.value;
    assert HeldBy(s, l, h);
    if s.callers[h].pc.Drain? && !s.links[l].open {
      forall steps | Execute(s, steps).Some? ensures !Frees(s, steps, l) {
        DrainHangs(s, steps, h);
      }
    } else if s.callers[h].pc.Drain? {
      var steps := FreesFromDrain(s, h);
      assert OnlyBy(steps, h) && Frees(s, steps, l);
    } else {
      var steps := FreesFromSend(s, h);
      assert OnlyBy(steps, h) && Frees(s, steps, l);
    }
  }
}
