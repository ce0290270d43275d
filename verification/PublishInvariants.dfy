/**
 * What every step of the protocol keeps.
 */
module PublishInvariants {
  import opened Wrappers
  import opened ConfirmLink
  import opened PublishProtocol

  // ------------------------------------------------------------ the manager

  /** Program points at which the caller holds ConnManager.mu for writing. */
  predicate InMu(pc: Pc) {
    pc.CheckGen? || pc.Closing? || pc.Dialing? || pc.Bump? || pc.ReturnConn?
  }

  ghost predicate MutexOk(s: State) {
    && (s.writer.Some? ==> s.writer.value < |s.callers|)
    && (forall i :: 0 <= i < |s.callers| ==> (InMu(s.callers[i].pc) <==> s.writer == Some(i)))
  }

  predicate WriterAt(s: State, pc: Pc) {
    s.writer.Some? && s.writer.value < |s.callers| && s.callers[s.writer.value].pc == pc
  }

  /**
   * The manager's connection is the newest link; the link of an earlier generation
   * is closed, and so is the newest while its successor is being dialled.
   */
  ghost predicate ManagerOk(s: State) {
    && |s.links| == s.generation + (if WriterAt(s, Bump) then 2 else 1)
    && s.conn == |s.links| - 1
    && (forall l :: 0 <= l < |s.links| - 1 ==> !s.links[l].open)
    && (WriterAt(s, Dialing) ==> !s.links[s.conn].open)
  }

  ghost predicate DialsOk(s: State) {
    && |s.dials| == s.generation
    && (forall g :: 0 <= g < |s.dials| && s.dials[g].gated ==> s.dials[g].oldGen == g)
    && (forall r :: 0 <= r < |s.refreshes| ==>
          s.refreshes[r].oldGen < s.refreshes[r].generation == s.refreshes[r].conn <= s.generation)
  }

  // ------------------------------------------------------------ the callers

  /** Which generations and how many copies go with a caller's program point. */
  predicate CallerOk(c: Caller, generation: nat) {
    if c.kind.Ungated?
    then c.pc.Idle? || c.pc.AcquireMu? || c.pc.Closing? || c.pc.Dialing? || c.pc.Bump? || c.pc.ReturnConn?
         || c.pc == Finished(Replaced)
    else if c.pc.Idle? then true
    else if c.pc.Snapshot? then c.copies == 0 && !c.second
    else
      && 1 <= c.attempt <= MaxAttempts(c.kind)
      && c.gen <= generation
      && c.conn <= generation
      && (if c.second then c.gen < c.conn else c.conn == c.gen)
      && c.copies <= (if c.second then MaxAttempts(c.kind) else 0) + c.attempt
                     - (if c.pc.Enter? || c.pc.Drain? || c.pc.Send? then 1 else 0)
      && (c.pc.AcquireMu? || InMu(c.pc) ==> !c.second && c.attempt == MaxAttempts(c.kind))
      && (c.pc.Closing? || c.pc.Dialing? || c.pc.Bump? ==> c.gen == generation)
      && (c.pc.ReturnConn? ==> c.gen < generation)
      && (c.pc.Finished? && !Succeeds(c.kind, c.pc.o) ==> c.second && c.attempt == MaxAttempts(c.kind))
  }

  ghost predicate CallersOk(s: State) {
    forall i :: 0 <= i < |s.callers| ==> CallerOk(s.callers[i], s.generation)
  }

  // ------------------------------------------------------------ the links

  /** Program points at which the caller holds its link's pubMu. */
  predicate InPub(s: State, i: nat)
    requires i < |s.callers|
  {
    var c := s.callers[i];
    && c.conn < |s.links|
    && (c.pc.Drain? || c.pc.Wait? || c.pc.Release? || (c.pc.Send? && s.links[c.conn].confirms))
  }

  ghost predicate HolderOk(s: State) {
    && (forall i :: 0 <= i < |s.callers| && InPub(s, i) ==> s.links[s.callers[i].conn].holder == Some(i))
    && (forall l :: 0 <= l < |s.links| && s.links[l].holder.Some? ==> HeldBy(s, l, s.links[l].holder.value))
  }

  predicate HeldBy(s: State, l: nat, i: nat) {
    i < |s.callers| && InPub(s, i) && s.callers[i].conn == l
  }

  ghost predicate LinkOk(k: Link) {
    && Fifo(k)
    && (k.holder.None? ==> Balanced(k, 0))
    && (k.holder.Some? ==> k.confirms)
  }

  ghost predicate LinksOk(s: State) {
    forall l :: 0 <= l < |s.links| ==> LinkOk(s.links[l])
  }

  /** What the holder of pubMu knows about its link. */
  ghost predicate PubOk(c: Caller, m: Msg, k: Link) {
    match c.pc
    case Drain => Balanced(k, 0) && c.kind.Reliable?
    case Release(_) => Balanced(k, 0)
    case Send(ahead) =>
      k.confirms ==>
        && Balanced(k, 0)
        && k.received + k.drained + ahead == |k.log|
        && (c.kind.Reliable? ==> ahead <= k.timeouts)
    case Wait(tag, ahead) =>
      && Balanced(k, 1)
      && k.received + k.drained + ahead + 1 == tag == |k.log|
      && k.log[tag - 1] == m
      && (c.kind.Reliable? ==> ahead <= k.timeouts)
    case _ => true
  }

  ghost predicate PubsOk(s: State) {
    forall i :: 0 <= i < |s.callers| && InPub(s, i) ==>
      PubOk(s.callers[i], MsgOf(s, i), s.links[s.callers[i].conn])
  }

  // ------------------------------------------------------------ the outcomes

  /**
   * A confirmation received under tag `tag` is either the closed channel's zero
   * value or the broker's verdict on the publish `ahead` places before.
   */
  ghost predicate OutcomeOk(kind: Kind, m: Msg, o: Outcome, k: Link) {
    o.Confirmed? ==>
      && 1 <= o.tag <= |k.log|
      && k.log[o.tag - 1] == m
      && (kind.Reliable? ==> o.ahead <= k.timeouts)
      && (if o.c.tag == 0 then !o.c.ack
          else o.c.tag + o.ahead == o.tag && o.c.tag <= |k.verdicts| && k.verdicts[o.c.tag - 1] == o.c.ack)
  }

  ghost predicate CallerOutcomeOk(s: State, i: nat)
    requires i < |s.callers|
  {
    var c := s.callers[i];
    c.pc.Release? || c.pc.Judge? || c.pc.Finished? ==>
      && (c.pc.o.Replaced? <==> c.kind.Ungated?)
      && (c.kind.Ungated? || (c.conn < |s.links| && OutcomeOk(c.kind, MsgOf(s, i), c.pc.o, s.links[c.conn])))
  }

  ghost predicate OutcomesOk(s: State) {
    forall i :: 0 <= i < |s.callers| ==> CallerOutcomeOk(s, i)
  }

  /** What the record of a completed publishing call says. */
  ghost predicate ReturnOk(r: Return, links: seq<Link>) {
    !r.kind.Ungated? ==>
      && r.conn < |links|
      && OutcomeOk(r.kind, r.msg, r.last, links[r.conn])
      && (!Succeeds(r.kind, r.last) ==> r.second && r.attempt == MaxAttempts(r.kind))
      && 1 <= r.attempt <= MaxAttempts(r.kind)
      && r.copies <= (if r.second then MaxAttempts(r.kind) else 0) + r.attempt
      && (if r.second then r.gen < r.conn else r.conn == r.gen)
  }

  ghost predicate ReturnsOk(s: State) {
    forall r :: 0 <= r < |s.calls| ==> ReturnOk(s.calls[r], s.links)
  }

  ghost predicate SerialsOk(s: State) {
    forall m | m in s.sent :: m.caller < |s.callers| && m.serial <= s.callers[m.caller].serial
  }

  /** `sent` counts the copies of the message each running call is about. */
  ghost predicate CopiesOk(s: State) {
    forall i :: 0 <= i < |s.callers| && !s.callers[i].pc.Idle? ==> s.sent[MsgOf(s, i)] == s.callers[i].copies
  }

  /** ... and the copies of the message each completed call was about. */
  ghost predicate RecordOk(s: State, r: Return) {
    && s.sent[r.msg] == r.copies
    && r.msg.caller < |s.callers|
    && Past(r.msg, s.callers[r.msg.caller])
  }

  ghost predicate SentOk(s: State) {
    SerialsOk(s) && CopiesOk(s) && (forall r :: 0 <= r < |s.calls| ==> RecordOk(s, s.calls[r]))
  }

  /** Each call is recorded once. */
  ghost predicate CallsDistinct(s: State) {
    forall q, r :: 0 <= q < r < |s.calls| ==> s.calls[q].msg != s.calls[r].msg
  }

  /** The call is over: its goroutine has moved on to a later one or is idle. */
  predicate Past(m: Msg, c: Caller) {
    m.serial <= c.serial && (m.serial == c.serial ==> c.pc.Idle?)
  }

  /** A call goes through reconnectIfStale at most once. */
  ghost predicate RefreshesOk(s: State) {
    && (forall r :: 0 <= r < |s.refreshes| ==> Refreshed(s, s.refreshes[r].msg))
    && (forall q, r :: 0 <= q < r < |s.refreshes| ==> s.refreshes[q].msg != s.refreshes[r].msg)
  }

  predicate Refreshed(s: State, m: Msg) {
    && m.caller < |s.callers|
    && (Past(m, s.callers[m.caller]) || (m.serial == s.callers[m.caller].serial && s.callers[m.caller].second))
  }

  /** Reconnect is not gated: every call of it that is past the lock has dialled. */
  ghost predicate UngatedOk(s: State) {
    && (forall i :: 0 <= i < |s.callers| && s.callers[i].kind.Ungated?
                    && (s.callers[i].pc.ReturnConn? || s.callers[i].pc.Finished?)
                    ==> Dial(MsgOf(s, i), false, s.callers[i].gen) in s.dials)
    && (forall r :: 0 <= r < |s.calls| && s.calls[r].kind.Ungated?
                    ==> Dial(s.calls[r].msg, false, s.calls[r].gen) in s.dials)
  }

  ghost predicate Inv(s: State) {
    && MutexOk(s) && ManagerOk(s) && DialsOk(s) && CallersOk(s)
    && HolderOk(s) && LinksOk(s) && PubsOk(s) && OutcomesOk(s) && ReturnsOk(s) && SentOk(s)
    && CallsDistinct(s) && RefreshesOk(s) && UngatedOk(s)
  }

  // ------------------------------------------------------------ what a step touches

  /** The goroutine that takes the step; the broker and the network are none. */
  function Actor(step: Step): Option<nat> {
    match step
    case BrokerConfirms(_, _) => None
    case LinkDrops(_) => None
    case Call(i, _) => Some(i)
    case DialOk(i, _) => Some(i)
    case TakeSnapshot(i) => Some(i)
    case EnterAttempt(i) => Some(i)
    case DrainStep(i) => Some(i)
    case SendOk(i) => Some(i)
    case SendFail(i) => Some(i)
    case Receive(i) => Some(i)
    case TimeOut(i) => Some(i)
    case ReleasePubMu(i) => Some(i)
    case JudgeAttempt(i) => Some(i)
    case LockMu(i) => Some(i)
    case CheckGeneration(i) => Some(i)
    case CloseOld(i) => Some(i)
    case DialFail(i) => Some(i)
    case BumpGeneration(i) => Some(i)
    case UnlockMu(i) => Some(i)
    case Finish(i) => Some(i)
  }

  predicate Acts(s: State, step: Step, i: nat) {
    Enabled(s, step) && Actor(step) == Some(i) && i < |s.callers|
  }

  // The steps in five groups.
  predicate IsCalling(step: Step) {
    step.Call? || step.TakeSnapshot? || step.JudgeAttempt? || step.Finish?
  }

  predicate IsSending(step: Step) {
    step.EnterAttempt? || step.DrainStep? || step.SendOk? || step.SendFail?
  }

  predicate IsAwaiting(step: Step) {
    step.Receive? || step.TimeOut? || step.ReleasePubMu?
  }

  predicate IsUnderMu(step: Step) {
    step.LockMu? || step.CheckGeneration? || step.CloseOld? || step.DialFail? || step.DialOk?
    || step.BumpGeneration? || step.UnlockMu?
  }

  /** The only link the step may change. */
  function Touched(s: State, step: Step): nat
    requires Enabled(s, step)
  {
    match step
    case BrokerConfirms(l, _) => l
    case LinkDrops(l) => l
    case CloseOld(_) => s.conn
    case _ => s.callers[Actor(step).value].conn
  }

  lemma CallersFrame(s: State, step: Step)
    requires Enabled(s, step)
    ensures |Do(s, step).callers| == |s.callers|
    ensures Actor(step).Some? ==> Actor(step).value < |s.callers|
    ensures forall j :: 0 <= j < |s.callers| && Actor(step) != Some(j) ==> Do(s, step).callers[j] == s.callers[j]
  {
  }

  lemma LinksFrame(s: State, step: Step)
    requires Enabled(s, step)
    ensures |s.links| <= |Do(s, step).links|
    ensures forall l :: 0 <= l < |s.links| && l != Touched(s, step) ==> Do(s, step).links[l] == s.links[l]
    ensures if step.DialOk? then Do(s, step).links == s.links + [Fresh(step.confirms)]
            else |Do(s, step).links| == |s.links|
  {
  }

  // ------------------------------------------------------------ the manager is kept

  // Each part below splits into what the actor's own step does to its own facts
  // and why the facts of the others survive.

  lemma ActorMutex(s: State, step: Step, i: nat)
    requires Acts(s, step, i)
    requires InMu(s.callers[i].pc) <==> s.writer == Some(i)
    requires CallerOk(s.callers[i], s.generation)
    ensures InMu(Do(s, step).callers[i].pc) <==> Do(s, step).writer == Some(i)
    ensures Do(s, step).writer == s.writer
         || (s.writer.None? && Do(s, step).writer == Some(i))
         || (s.writer == Some(i) && Do(s, step).writer.None?)
  {
    if IsUnderMu(step) {
      UnderMuMutex(s, step, i);
    } else {
      ElsewhereFrame(s, step);
      ElsewhereOutside(s, step);
    }
  }

  lemma UnderMuMutex(s: State, step: Step, i: nat)
    requires Acts(s, step, i) && IsUnderMu(step)
    requires InMu(s.callers[i].pc) <==> s.writer == Some(i)
    requires CallerOk(s.callers[i], s.generation)
    ensures InMu(Do(s, step).callers[i].pc) <==> Do(s, step).writer == Some(i)
    ensures Do(s, step).writer == s.writer
         || (s.writer.None? && Do(s, step).writer == Some(i))
         || (s.writer == Some(i) && Do(s, step).writer.None?)
  {
  }

  lemma KeepsMutex(s: State, step: Step)
    requires MutexOk(s) && CallersOk(s) && Enabled(s, step)
    ensures MutexOk(Do(s, step))
  {
    CallersFrame(s, step);
    if Actor(step).Some? {
      ActorMutex(s, step, Actor(step).value);
    }
  }

  lemma ManagerUnderMu(s: State, step: Step)
    requires MutexOk(s) && ManagerOk(s) && Enabled(s, step) && IsUnderMu(step)
    ensures ManagerOk(Do(s, step))
  {
  }

  lemma ElsewhereFrame(s: State, step: Step)
    requires Enabled(s, step) && !IsUnderMu(step)
    ensures Do(s, step).conn == s.conn && Do(s, step).generation == s.generation && Do(s, step).writer == s.writer
    ensures Do(s, step).dials == s.dials && Do(s, step).refreshes == s.refreshes
  {
  }

  lemma ElsewhereOutside(s: State, step: Step)
    requires Enabled(s, step) && !IsUnderMu(step) && Actor(step).Some?
    ensures !InMu(s.callers[Actor(step).value].pc) && !InMu(Do(s, step).callers[Actor(step).value].pc)
  {
    if IsCalling(step) { CallingOutside(s, step); }
  }

  lemma CallingOutside(s: State, step: Step)
    requires Enabled(s, step) && IsCalling(step)
    ensures !InMu(s.callers[step.i].pc) && !InMu(Do(s, step).callers[step.i].pc)
  {
  }

  lemma NoneReopens(s: State, step: Step, l: nat)
    requires Enabled(s, step) && l < |s.links| && l < |Do(s, step).links|
    ensures Do(s, step).links[l].open ==> s.links[l].open
  {
  }

  lemma ManagerElsewhere(s: State, step: Step)
    requires MutexOk(s) && ManagerOk(s) && Enabled(s, step) && !IsUnderMu(step)
    ensures ManagerOk(Do(s, step))
  {
    CallersFrame(s, step);
    LinksFrame(s, step);
    ElsewhereFrame(s, step);
    if Actor(step).Some? { ElsewhereOutside(s, step); }
    forall l | 0 <= l < |s.links| ensures Do(s, step).links[l].open ==> s.links[l].open {
      NoneReopens(s, step, l);
    }
  }

  lemma KeepsManager(s: State, step: Step)
    requires MutexOk(s) && ManagerOk(s) && Enabled(s, step)
    ensures ManagerOk(Do(s, step))
  {
    if IsUnderMu(step) { ManagerUnderMu(s, step); } else { ManagerElsewhere(s, step); }
  }

  lemma KeepsDials(s: State, step: Step)
    requires MutexOk(s) && ManagerOk(s) && DialsOk(s) && CallersOk(s) && Enabled(s, step)
    ensures DialsOk(Do(s, step))
  {
    GenerationMoves(s, step);
    RecordsMove(s, step);
    if step.BumpGeneration? || step.UnlockMu? {
      assert InMu(s.callers[step.i].pc) && CallerOk(s.callers[step.i], s.generation);
      assert s.writer == Some(step.i);
    }
  }

  /** Only BumpGeneration records a dial, and only UnlockMu a return of reconnectIfStale. */
  lemma RecordsMove(s: State, step: Step)
    requires Enabled(s, step)
    ensures Do(s, step).dials == s.dials +
              (if step.BumpGeneration?
               then [Dial(MsgOf(s, step.i), !s.callers[step.i].kind.Ungated?, s.callers[step.i].gen)] else [])
    ensures Do(s, step).refreshes == s.refreshes +
              (if step.UnlockMu? && !s.callers[step.i].kind.Ungated?
               then [Refresh(MsgOf(s, step.i), s.callers[step.i].gen, s.conn, s.generation)] else [])
  {
  }

  // ------------------------------------------------------------ the callers are kept

  lemma CallerCalling(s: State, step: Step, i: nat)
    requires Acts(s, step, i) && IsCalling(step) && CallerOk(s.callers[i], s.generation)
    requires s.writer.None? ==> s.conn == s.generation
    requires s.callers[i].pc.Judge? ==> (s.callers[i].pc.o.Replaced? <==> s.callers[i].kind.Ungated?)
    ensures CallerOk(Do(s, step).callers[i], Do(s, step).generation)
  {
  }

  lemma CallerSending(s: State, step: Step, i: nat)
    requires Acts(s, step, i) && IsSending(step) && CallerOk(s.callers[i], s.generation)
    ensures CallerOk(Do(s, step).callers[i], Do(s, step).generation)
  {
    if step.SendOk? { CallerSends(s, i); }
  }

  lemma CallerSends(s: State, i: nat)
    requires Enabled(s, SendOk(i)) && i < |s.callers| && CallerOk(s.callers[i], s.generation)
    ensures CallerOk(Do(s, SendOk(i)).callers[i], s.generation)
    ensures Do(s, SendOk(i)).generation == s.generation
  {
  }

  lemma CallerAwaiting(s: State, step: Step, i: nat)
    requires Acts(s, step, i) && IsAwaiting(step) && CallerOk(s.callers[i], s.generation)
    ensures CallerOk(Do(s, step).callers[i], Do(s, step).generation)
  {
  }

  lemma CallerUnderMu(s: State, step: Step, i: nat)
    requires MutexOk(s) && ManagerOk(s) && Acts(s, step, i) && IsUnderMu(step)
    requires CallerOk(s.callers[i], s.generation)
    ensures CallerOk(Do(s, step).callers[i], Do(s, step).generation)
  {
  }

  /** The generation moves only under the lock, and only upwards. */
  lemma GenerationMoves(s: State, step: Step)
    requires MutexOk(s) && Enabled(s, step)
    ensures Do(s, step).generation ==
            if step.BumpGeneration? then s.generation + 1 else s.generation
    ensures step.BumpGeneration? ==> s.writer == Some(step.i)
  {
  }

  lemma KeepsCallers(s: State, step: Step)
    requires MutexOk(s) && ManagerOk(s) && CallersOk(s) && OutcomesOk(s) && Enabled(s, step)
    ensures CallersOk(Do(s, step))
  {
    CallersFrame(s, step);
    GenerationMoves(s, step);
    var s' := Do(s, step);
    forall j | 0 <= j < |s'.callers| ensures CallerOk(s'.callers[j], s'.generation) {
      if Actor(step) == Some(j) {
        assert CallerOutcomeOk(s, j);
        if IsCalling(step) { CallerCalling(s, step, j); }
        else if IsSending(step) { CallerSending(s, step, j); }
        else if IsAwaiting(step) { CallerAwaiting(s, step, j); }
        else { CallerUnderMu(s, step, j); }
      } else {
        OthersCaller(s, s'.generation, j);
      }
    }
  }

  lemma OthersCaller(s: State, generation: nat, j: nat)
    requires MutexOk(s) && CallersOk(s) && j < |s.callers|
    requires s.generation <= generation
    requires generation == s.generation || s.writer != Some(j)
    ensures CallerOk(s.callers[j], generation)
  {
  }

  // ------------------------------------------------------------ pubMu is kept

  /** Only entering and leaving the critical section change who holds pubMu. */
  lemma HolderMoves(s: State, step: Step, l: nat)
    requires Enabled(s, step) && l < |s.links| && l < |Do(s, step).links|
    ensures Do(s, step).links[l].holder ==
            if step.EnterAttempt? && s.callers[step.i].conn == l && s.links[l].confirms then Some(step.i)
            else if step.ReleasePubMu? && s.callers[step.i].conn == l then None
            else s.links[l].holder
    ensures Do(s, step).links[l].confirms == s.links[l].confirms
  {
  }

  /** What a step of its own does to a caller's place in the critical section. */
  predicate SectionMoved(s: State, step: Step, i: nat)
    requires Acts(s, step, i)
  {
    var s' := Do(s, step);
    && i < |s'.callers|
    && (InPub(s', i) <==>
          (step.EnterAttempt? && s.links[s.callers[i].conn].confirms) || (InPub(s, i) && !step.ReleasePubMu?))
    && (InPub(s, i) || step.EnterAttempt? ==> s'.callers[i].conn == s.callers[i].conn)
  }

  lemma SectionSending(s: State, step: Step, i: nat)
    requires Acts(s, step, i) && (IsSending(step) || IsAwaiting(step)) && s.callers[i].conn < |s.links|
    requires InPub(s, i) ==> s.links[s.callers[i].conn].confirms
    ensures SectionMoved(s, step, i)
  {
  }

  lemma SectionOutside(s: State, step: Step, i: nat)
    requires Acts(s, step, i) && !IsSending(step) && !IsAwaiting(step)
    requires CallerOk(s.callers[i], s.generation) && |s.links| > s.generation
    ensures SectionMoved(s, step, i)
  {
  }

  /** The critical section is entered and left only together with the lock. */
  lemma SectionMoves(s: State, step: Step, i: nat)
    requires Acts(s, step, i) && CallerOk(s.callers[i], s.generation) && |s.links| > s.generation
    requires InPub(s, i) ==> s.links[s.callers[i].conn].confirms
    ensures i < |Do(s, step).callers|
    ensures InPub(Do(s, step), i) <==>
            (step.EnterAttempt? && s.links[s.callers[i].conn].confirms) || (InPub(s, i) && !step.ReleasePubMu?)
    ensures InPub(s, i) || step.EnterAttempt? ==> Do(s, step).callers[i].conn == s.callers[i].conn
  {
    if IsSending(step) || IsAwaiting(step) { SectionSending(s, step, i); } else { SectionOutside(s, step, i); }
  }

  lemma OthersSection(s: State, step: Step, j: nat)
    requires Enabled(s, step) && j < |s.callers| && Actor(step) != Some(j)
    requires CallerOk(s.callers[j], s.generation) && |s.links| > s.generation
    ensures j < |Do(s, step).callers| && Do(s, step).callers[j] == s.callers[j]
    ensures InPub(Do(s, step), j) <==> InPub(s, j)
  {
    CallersFrame(s, step);
    LinksFrame(s, step);
    if s.callers[j].conn < |s.links| {
      HolderMoves(s, step, s.callers[j].conn);
    }
  }

  lemma SectionHasLock(s: State, step: Step, j: nat)
    requires ManagerOk(s) && HolderOk(s) && LinksOk(s) && CallersOk(s) && Enabled(s, step)
    requires j < |Do(s, step).callers| && InPub(Do(s, step), j)
    ensures Do(s, step).links[Do(s, step).callers[j].conn].holder == Some(j)
  {
    CallersFrame(s, step);
    LinksFrame(s, step);
    if Actor(step) == Some(j) {
      SectionMoves(s, step, j);
    } else {
      OthersSection(s, step, j);
    }
    assert s.callers[j].conn < |s.links|;
    HolderMoves(s, step, s.callers[j].conn);
  }

  lemma LockHasSection(s: State, step: Step, l: nat)
    requires ManagerOk(s) && HolderOk(s) && LinksOk(s) && CallersOk(s) && Enabled(s, step)
    requires l < |Do(s, step).links| && Do(s, step).links[l].holder.Some?
    ensures HeldBy(Do(s, step), l, Do(s, step).links[l].holder.value)
  {
    LinksFrame(s, step);
    assert l < |s.links|;
    HolderMoves(s, step, l);
    var j := Do(s, step).links[l].holder.value;
    if Actor(step) == Some(j) {
      SectionMoves(s, step, j);
    } else {
      OthersSection(s, step, j);
    }
  }

  lemma KeepsHolder(s: State, step: Step)
    requires ManagerOk(s) && HolderOk(s) && LinksOk(s) && CallersOk(s) && Enabled(s, step)
    ensures HolderOk(Do(s, step))
  {
    var s' := Do(s, step);
    forall j | 0 <= j < |s'.callers| && InPub(s', j) ensures s'.links[s'.callers[j].conn].holder == Some(j) {
      SectionHasLock(s, step, j);
    }
    forall l | 0 <= l < |s'.links| && s'.links[l].holder.Some? ensures HeldBy(s', l, s'.links[l].holder.value) {
      LockHasSection(s, step, l);
    }
  }

  // ------------------------------------------------------------ the links are kept

  lemma LinkSending(s: State, step: Step, i: nat)
    requires Acts(s, step, i) && IsSending(step)
    requires LinkOk(s.links[s.callers[i].conn])
    requires InPub(s, i) ==> s.links[s.callers[i].conn].holder == Some(i)
    ensures LinkOk(Do(s, step).links[s.callers[i].conn])
  {
    var k := s.links[s.callers[i].conn];
    PublishKeepsFifo(k, MsgOf(s, i));
    if k.buffer != [] { DrainKeepsFifo(k); }
  }

  lemma LinkAwaiting(s: State, step: Step, i: nat)
    requires Acts(s, step, i) && IsAwaiting(step) && InPub(s, i)
    requires LinkOk(s.links[s.callers[i].conn]) && s.links[s.callers[i].conn].holder == Some(i)
    requires PubOk(s.callers[i], MsgOf(s, i), s.links[s.callers[i].conn])
    ensures LinkOk(Do(s, step).links[s.callers[i].conn])
  {
    var k := s.links[s.callers[i].conn];
    if CanTake(k) { TakeKeepsFifo(k); }
  }

  lemma KeepsLinks(s: State, step: Step)
    requires HolderOk(s) && LinksOk(s) && PubsOk(s) && Enabled(s, step)
    ensures LinksOk(Do(s, step))
  {
    LinksFrame(s, step);
    var s' := Do(s, step);
    forall l | 0 <= l < |s'.links| ensures LinkOk(s'.links[l]) {
      if l < |s.links| && l == Touched(s, step) { TouchedLink(s, step); }
    }
  }

  lemma TouchedLink(s: State, step: Step)
    requires HolderOk(s) && LinksOk(s) && PubsOk(s) && Enabled(s, step) && Touched(s, step) < |s.links|
    ensures Touched(s, step) < |Do(s, step).links| && LinkOk(Do(s, step).links[Touched(s, step)])
  {
    var l := Touched(s, step);
    LinksFrame(s, step);
    if IsSending(step) {
      LinkSending(s, step, step.i);
    } else if IsAwaiting(step) {
      assert InPub(s, step.i);
      LinkAwaiting(s, step, step.i);
    } else if step.BrokerConfirms? {
      DeliverKeepsFifo(s.links[l], step.ack);
    } else {
      OtherwiseShut(s, step);
    }
  }

  lemma OtherwiseShut(s: State, step: Step)
    requires Enabled(s, step) && !IsSending(step) && !IsAwaiting(step) && !step.BrokerConfirms?
    requires Touched(s, step) < |s.links|
    ensures var l := Touched(s, step);
            l < |Do(s, step).links| &&
            (Do(s, step).links[l] == s.links[l] || Do(s, step).links[l] == Shut(s.links[l]))
  {
  }

  // ------------------------------------------------------------ what the holder knows is kept

  lemma PubSending(s: State, step: Step, i: nat)
    requires Acts(s, step, i) && IsSending(step)
    requires LinkOk(s.links[s.callers[i].conn])
    requires InPub(s, i) ==> PubOk(s.callers[i], MsgOf(s, i), s.links[s.callers[i].conn])
    ensures Do(s, step).callers[i].conn == s.callers[i].conn
    ensures InPub(Do(s, step), i) ==>
            PubOk(Do(s, step).callers[i], MsgOf(Do(s, step), i), Do(s, step).links[s.callers[i].conn])
  {
  }

  lemma PubAwaiting(s: State, step: Step, i: nat)
    requires Acts(s, step, i) && IsAwaiting(step) && InPub(s, i)
    requires PubOk(s.callers[i], MsgOf(s, i), s.links[s.callers[i].conn])
    ensures Do(s, step).callers[i].conn == s.callers[i].conn
    ensures InPub(Do(s, step), i) ==>
            PubOk(Do(s, step).callers[i], MsgOf(Do(s, step), i), Do(s, step).links[s.callers[i].conn])
  {
  }

  /** The part of a link that PubOk speaks of. */
  predicate SameLedger(k: Link, k': Link) {
    && k.log == k'.log && k.received == k'.received && k.drained == k'.drained
    && k.timeouts == k'.timeouts && k.zeros == k'.zeros && k.confirms == k'.confirms
  }

  /** The broker and callers outside the critical section leave the ledger alone. */
  lemma LedgerMoves(s: State, step: Step, l: nat)
    requires Enabled(s, step) && l < |s.links| && l < |Do(s, step).links|
    ensures SameLedger(s.links[l], Do(s, step).links[l])
         || (Actor(step).Some? && Actor(step).value < |s.callers|
             && InPub(s, Actor(step).value) && s.callers[Actor(step).value].conn == l)
  {
  }

  lemma PubOthers(s: State, step: Step, j: nat)
    requires ManagerOk(s) && HolderOk(s) && CallersOk(s) && PubsOk(s) && Enabled(s, step)
    requires j < |s.callers| && Actor(step) != Some(j) && j < |Do(s, step).callers| && InPub(Do(s, step), j)
    ensures PubOk(Do(s, step).callers[j], MsgOf(Do(s, step), j), Do(s, step).links[Do(s, step).callers[j].conn])
  {
    OthersSection(s, step, j);
    LinksFrame(s, step);
    LedgerMoves(s, step, s.callers[j].conn);
  }

  lemma KeepsPubs(s: State, step: Step)
    requires ManagerOk(s) && HolderOk(s) && LinksOk(s) && CallersOk(s) && PubsOk(s) && Enabled(s, step)
    ensures PubsOk(Do(s, step))
  {
    CallersFrame(s, step);
    var s' := Do(s, step);
    forall j | 0 <= j < |s'.callers| && InPub(s', j)
      ensures PubOk(s'.callers[j], MsgOf(s', j), s'.links[s'.callers[j].conn])
    {
      if Actor(step) != Some(j) {
        PubOthers(s, step, j);
      } else {
        SectionMoves(s, step, j);
        if IsSending(step) { PubSending(s, step, j); }
        else { assert IsAwaiting(step); PubAwaiting(s, step, j); }
      }
    }
  }

  // ------------------------------------------------------------ outcomes and records are kept

  /** What one step can make of a link; `m` is the message a sender is about. */
  predicate Becomes(k: Link, k': Link, m: Msg) {
    || k' == k.(holder := k'.holder)
    || k' == Publish(k, m)
    || (k.buffer != [] && k' == DrainOne(k))
    || (CanTake(k) && k' == Take(k))
    || k' == GiveUp(k)
    || k' == Shut(k)
    || (k.atBroker != [] && (k' == Deliver(k, true) || k' == Deliver(k, false)))
  }

  lemma BecomesExtends(k: Link, k': Link, m: Msg)
    requires Becomes(k, k', m)
    ensures Extends(k, k')
  {
  }

  lemma SenderMovesLink(s: State, step: Step, i: nat)
    requires Acts(s, step, i) && (IsSending(step) || IsAwaiting(step))
    ensures s.callers[i].conn < |s.links| && s.callers[i].conn < |Do(s, step).links|
    ensures Becomes(s.links[s.callers[i].conn], Do(s, step).links[s.callers[i].conn], MsgOf(s, i))
  {
  }

  lemma LinkExtends(s: State, step: Step, l: nat)
    requires Enabled(s, step) && l < |s.links| && l < |Do(s, step).links|
    ensures Extends(s.links[l], Do(s, step).links[l])
  {
    LinksFrame(s, step);
    if l == Touched(s, step) {
      if IsSending(step) || IsAwaiting(step) {
        SenderMovesLink(s, step, step.i);
        BecomesExtends(s.links[l], Do(s, step).links[l], MsgOf(s, step.i));
      } else if !step.BrokerConfirms? {
        OtherwiseShut(s, step);
      }
    }
  }

  lemma OutcomeSurvives(kind: Kind, m: Msg, o: Outcome, k: Link, k': Link)
    requires OutcomeOk(kind, m, o, k) && Extends(k, k')
    ensures OutcomeOk(kind, m, o, k')
  {
    if o.Confirmed? {
      assert k'.log[o.tag - 1] == k.log[o.tag - 1];
      if o.c.tag != 0 { assert k'.verdicts[o.c.tag - 1] == k.verdicts[o.c.tag - 1]; }
    }
  }

  /** The head of the buffer carries the tag `ahead` places before the waiter's own. */
  lemma ReceivedOutcome(s: State, step: Step)
    requires step.Receive? && Enabled(s, step) && CallerOk(s.callers[step.i], s.generation)
    requires InPub(s, step.i) && PubOk(s.callers[step.i], MsgOf(s, step.i), s.links[s.callers[step.i].conn])
    requires LinkOk(s.links[s.callers[step.i].conn])
    ensures CallerOutcomeOk(Do(s, step), step.i)
  {
  }

  /** A caller that has an outcome but took none from the channel kept it or has one without a confirmation. */
  predicate OutcomeKept(s: State, s': State, i: nat)
    requires i < |s.callers| && i < |s'.callers|
  {
    var b, c := s.callers[i], s'.callers[i];
    c.pc.Release? || c.pc.Judge? || c.pc.Finished? ==>
      && (c.pc.o.Replaced? <==> c.kind.Ungated?)
      && (b.pc.Release? || b.pc.Judge? || !c.pc.o.Confirmed?)
      && (c.pc.o.Confirmed? ==> c.pc.o == b.pc.o)
      && MsgOf(s', i) == MsgOf(s, i) && c.kind == b.kind
      && c.conn == b.conn && (c.kind.Ungated? || c.conn < |s.links|)
  }

  lemma OutcomeCalling(s: State, step: Step, i: nat)
    requires Acts(s, step, i) && IsCalling(step) && CallerOk(s.callers[i], s.generation)
    requires CallerOutcomeOk(s, i) && |s.links| > s.generation && i < |Do(s, step).callers|
    ensures OutcomeKept(s, Do(s, step), i)
  {
  }

  lemma OutcomeSending(s: State, step: Step, i: nat)
    requires Acts(s, step, i) && IsSending(step) && CallerOk(s.callers[i], s.generation)
    requires |s.links| > s.generation && i < |Do(s, step).callers|
    ensures OutcomeKept(s, Do(s, step), i)
  {
  }

  lemma OutcomeElsewhere(s: State, step: Step, i: nat)
    requires Acts(s, step, i) && (IsAwaiting(step) || IsUnderMu(step)) && !step.Receive?
    requires CallerOk(s.callers[i], s.generation) && CallerOutcomeOk(s, i) && |s.links| > s.generation
    requires i < |Do(s, step).callers|
    ensures OutcomeKept(s, Do(s, step), i)
  {
  }

  lemma PlainOutcome(s: State, step: Step, i: nat)
    requires Acts(s, step, i) && !step.Receive? && CallerOk(s.callers[i], s.generation)
    requires CallerOutcomeOk(s, i) && |s.links| > s.generation
    requires i < |Do(s, step).callers|
    ensures OutcomeKept(s, Do(s, step), i)
  {
    if IsCalling(step) { OutcomeCalling(s, step, i); }
    else if IsSending(step) { OutcomeSending(s, step, i); }
    else { OutcomeElsewhere(s, step, i); }
  }

  lemma KeepsOutcomes(s: State, step: Step)
    requires ManagerOk(s) && HolderOk(s) && LinksOk(s) && CallersOk(s) && PubsOk(s) && OutcomesOk(s)
    requires Enabled(s, step)
    ensures OutcomesOk(Do(s, step))
  {
    CallersFrame(s, step);
    LinksFrame(s, step);
    var s' := Do(s, step);
    forall j | 0 <= j < |s'.callers| ensures CallerOutcomeOk(s', j) {
      assert CallerOutcomeOk(s, j);
      if step.Receive? && step.i == j {
        ReceivedOutcome(s, step);
      } else {
        if Actor(step) == Some(j) { PlainOutcome(s, step, j); }
        var c := s.callers[j];
        if c.conn < |s.links| && (c.pc.Release? || c.pc.Judge? || c.pc.Finished?) {
          LinkExtends(s, step, c.conn);
          if !c.kind.Ungated? {
            OutcomeSurvives(c.kind, MsgOf(s, j), c.pc.o, s.links[c.conn], s'.links[c.conn]);
          }
        }
      }
    }
  }

  lemma RecordSurvives(s: State, step: Step, r: Return)
    requires Enabled(s, step) && ReturnOk(r, s.links)
    ensures ReturnOk(r, Do(s, step).links)
  {
    LinksFrame(s, step);
    if !r.kind.Ungated? {
      LinkExtends(s, step, r.conn);
      OutcomeSurvives(r.kind, r.msg, r.last, s.links[r.conn], Do(s, step).links[r.conn]);
    }
  }

  lemma RecordsGrow(s: State, step: Step)
    requires Enabled(s, step)
    ensures !step.Finish? ==> Do(s, step).calls == s.calls
    ensures step.Finish? ==> Do(s, step).links == s.links
    ensures step.Finish? ==> |Do(s, step).calls| == |s.calls| + 1 && Do(s, step).calls[..|s.calls|] == s.calls
  {
  }

  lemma KeepsReturns(s: State, step: Step)
    requires CallersOk(s) && OutcomesOk(s) && ReturnsOk(s) && Enabled(s, step)
    ensures ReturnsOk(Do(s, step))
  {
    var s' := Do(s, step);
    RecordsGrow(s, step);
    forall r | 0 <= r < |s'.calls| ensures ReturnOk(s'.calls[r], s'.links) {
      if r < |s.calls| {
        assert s'.calls[r] == s.calls[r];
        RecordSurvives(s, step, s.calls[r]);
      } else {
        assert CallerOutcomeOk(s, step.i);
      }
    }
  }

  /** Only SendOk makes a copy, and only Call starts a new message. */
  lemma CopiesMove(s: State, step: Step, i: nat)
    requires Acts(s, step, i)
    ensures i < |Do(s, step).callers|
    ensures var c, c' := s.callers[i], Do(s, step).callers[i];
            && c'.serial == c.serial + (if step.Call? then 1 else 0)
            && c'.copies == (if step.Call? then 0 else c.copies + (if step.SendOk? then 1 else 0))
            && (c.pc.Idle? <==> step.Call?)
            && (c'.pc.Idle? <==> step.Finish?)
  {
  }

  lemma SentMoves(s: State, step: Step)
    requires Enabled(s, step)
    ensures Do(s, step).sent == if step.SendOk? then s.sent + multiset{MsgOf(s, step.i)} else s.sent
    ensures step.Finish? ==> var r := Do(s, step).calls[|s.calls|];
                             r.msg == MsgOf(s, step.i) && r.copies == s.callers[step.i].copies
  {
  }

  lemma KeepsSerials(s: State, step: Step)
    requires SerialsOk(s) && Enabled(s, step)
    ensures SerialsOk(Do(s, step))
  {
    CallersFrame(s, step);
    SentMoves(s, step);
    if Actor(step).Some? { CopiesMove(s, step, Actor(step).value); }
  }

  lemma KeepsCopies(s: State, step: Step)
    requires SerialsOk(s) && CopiesOk(s) && Enabled(s, step)
    ensures CopiesOk(Do(s, step))
  {
    CallersFrame(s, step);
    SentMoves(s, step);
    if Actor(step).Some? { CopiesMove(s, step, Actor(step).value); }
  }

  lemma KeepsRecord(s: State, step: Step, r: Return)
    requires Enabled(s, step) && RecordOk(s, r)
    ensures RecordOk(Do(s, step), r)
  {
    CallersFrame(s, step);
    SentMoves(s, step);
    if Actor(step).Some? { CopiesMove(s, step, Actor(step).value); }
  }

  lemma NewRecord(s: State, step: Step)
    requires step.Finish? && Enabled(s, step) && CopiesOk(s) && |Do(s, step).calls| == |s.calls| + 1
    ensures RecordOk(Do(s, step), Do(s, step).calls[|s.calls|])
  {
  }

  lemma KeepsSent(s: State, step: Step)
    requires SentOk(s) && Enabled(s, step)
    ensures SentOk(Do(s, step))
  {
    KeepsSerials(s, step);
    KeepsCopies(s, step);
    RecordsGrow(s, step);
    var s' := Do(s, step);
    forall r | 0 <= r < |s'.calls| ensures RecordOk(s', s'.calls[r]) {
      if r < |s.calls| {
        assert s'.calls[r] == s.calls[r];
        KeepsRecord(s, step, s.calls[r]);
      } else {
        NewRecord(s, step);
      }
    }
  }

  /** A call that finishes now is none of the recorded ones: those are over. */
  lemma KeepsCallsDistinct(s: State, step: Step)
    requires SentOk(s) && CallsDistinct(s) && Enabled(s, step)
    ensures CallsDistinct(Do(s, step))
  {
    RecordsGrow(s, step);
    SentMoves(s, step);
    var s' := Do(s, step);
    forall q, r | 0 <= q < r < |s'.calls| ensures s'.calls[q].msg != s'.calls[r].msg {
      assert s'.calls[q] == s.calls[q];
      if r < |s.calls| {
        assert s'.calls[r] == s.calls[r];
      } else {
        assert RecordOk(s, s.calls[q]);
      }
    }
  }

  lemma RefreshesMove(s: State, step: Step, i: nat)
    requires Acts(s, step, i) && CallerOk(s.callers[i], s.generation)
    ensures if step.UnlockMu? && !s.callers[i].kind.Ungated?
            then |Do(s, step).refreshes| == |s.refreshes| + 1 && Do(s, step).refreshes[..|s.refreshes|] == s.refreshes
                 && Do(s, step).refreshes[|s.refreshes|].msg == MsgOf(s, i)
                 && !s.callers[i].second && !s.callers[i].pc.Idle? && Do(s, step).callers[i].second
            else Do(s, step).refreshes == s.refreshes
    ensures s.callers[i].second && !step.Call? && !s.callers[i].pc.Idle? && !s.callers[i].kind.Ungated?
            ==> Do(s, step).callers[i].second
  {
  }

  lemma KeepsRefreshed(s: State, step: Step, m: Msg)
    requires Enabled(s, step) && Refreshed(s, m) && CallersOk(s)
    ensures Refreshed(Do(s, step), m)
  {
    CallersFrame(s, step);
    if Actor(step).Some? {
      CopiesMove(s, step, Actor(step).value);
      RefreshesMove(s, step, Actor(step).value);
    }
  }

  lemma KeepsRefreshes(s: State, step: Step)
    requires CallersOk(s) && RefreshesOk(s) && Enabled(s, step)
    ensures RefreshesOk(Do(s, step))
  {
    var s' := Do(s, step);
    CallersFrame(s, step);
    if Actor(step).Some? {
      CopiesMove(s, step, Actor(step).value);
      RefreshesMove(s, step, Actor(step).value);
    }
    forall r | 0 <= r < |s'.refreshes| ensures Refreshed(s', s'.refreshes[r].msg) {
      if r < |s.refreshes| {
        assert s'.refreshes[r] == s.refreshes[r];
        KeepsRefreshed(s, step, s.refreshes[r].msg);
      }
    }
    forall q, r | 0 <= q < r < |s'.refreshes| ensures s'.refreshes[q].msg != s'.refreshes[r].msg {
      assert s'.refreshes[q] == s.refreshes[q];
      assert Refreshed(s, s.refreshes[q].msg);
      if r < |s.refreshes| { assert s'.refreshes[r] == s.refreshes[r]; }
    }
  }

  lemma UngatedMoves(s: State, step: Step, i: nat)
    requires Acts(s, step, i) && CallerOk(s.callers[i], s.generation)
    requires i < |Do(s, step).callers| && Do(s, step).callers[i].kind.Ungated?
    requires Do(s, step).callers[i].pc.ReturnConn? || Do(s, step).callers[i].pc.Finished? || step.Finish?
    ensures step.BumpGeneration? || s.callers[i].pc.ReturnConn? || s.callers[i].pc.Finished?
    ensures MsgOf(Do(s, step), i) == MsgOf(s, i) && Do(s, step).callers[i].gen == s.callers[i].gen
    ensures s.callers[i].kind.Ungated?
    ensures step.Finish? ==> var r := Do(s, step).calls[|s.calls|];
                             r.kind.Ungated? && r.msg == MsgOf(s, i) && r.gen == s.callers[i].gen
  {
  }

  lemma KeepsUngated(s: State, step: Step)
    requires CallersOk(s) && UngatedOk(s) && Enabled(s, step)
    ensures UngatedOk(Do(s, step))
  {
    var s' := Do(s, step);
    CallersFrame(s, step);
    RecordsMove(s, step);
    RecordsGrow(s, step);
    if Actor(step).Some? && s'.callers[Actor(step).value].kind.Ungated? {
      var c := s'.callers[Actor(step).value];
      if c.pc.ReturnConn? || c.pc.Finished? || step.Finish? { UngatedMoves(s, step, Actor(step).value); }
    }
    SentMoves(s, step);
    forall r | 0 <= r < |s'.calls| && s'.calls[r].kind.Ungated?
      ensures Dial(s'.calls[r].msg, false, s'.calls[r].gen) in s'.dials
    {
      if r < |s.calls| {
        assert s'.calls[r] == s.calls[r];
      } else {
        assert s'.calls[r].kind == s.callers[step.i].kind == s'.callers[step.i].kind;
      }
    }
  }

  // ------------------------------------------------------------ every run

  /** One fresh link, nobody in a call, and no history. */
  ghost predicate AtRest(s: State, confirms: bool) {
    && s.links == [Fresh(confirms)] && s.conn == 0 && s.generation == 0 && s.writer.None?
    && (forall i :: 0 <= i < |s.callers| ==> s.callers[i] == Caller(Plain, 0, Idle, 0, 0, false, 0, 0))
    && s.dials == [] && s.refreshes == [] && s.calls == [] && s.sent == multiset{}
  }

  lemma RestingManager(s: State, confirms: bool)
    requires AtRest(s, confirms)
    ensures MutexOk(s) && ManagerOk(s) && DialsOk(s)
  {
  }

  lemma RestingLocks(s: State, confirms: bool)
    requires AtRest(s, confirms)
    ensures HolderOk(s)
  {
    assert s.links[0].holder.None?;
  }

  lemma FreshLinkOk(confirms: bool)
    ensures LinkOk(Fresh(confirms))
  {
    FreshIsSound(confirms);
  }

  lemma RestingLinks(s: State, confirms: bool)
    requires AtRest(s, confirms)
    ensures LinksOk(s)
  {
    forall l | 0 <= l < |s.links| ensures LinkOk(s.links[l]) {
      assert s.links[l] == Fresh(confirms);
      FreshLinkOk(confirms);
    }
  }

  lemma RestingCallers(s: State, confirms: bool)
    requires AtRest(s, confirms)
    ensures CallersOk(s) && PubsOk(s) && OutcomesOk(s)
  {
  }

  lemma RestingRecords(s: State, confirms: bool)
    requires AtRest(s, confirms)
    ensures ReturnsOk(s) && SentOk(s) && CallsDistinct(s) && RefreshesOk(s) && UngatedOk(s)
  {
  }

  lemma InvInitially(n: nat, confirms: bool)
    ensures Inv(Initial(n, confirms))
  {
    var s := Initial(n, confirms);
    RestingManager(s, confirms);
    RestingLocks(s, confirms);
    RestingLinks(s, confirms);
    RestingCallers(s, confirms);
    RestingRecords(s, confirms);
  }

  lemma InvKept(s: State, step: Step)
    requires Inv(s) && Enabled(s, step)
    ensures Inv(Do(s, step))
  {
    KeepsMutex(s, step);
    KeepsManager(s, step);
    KeepsDials(s, step);
    KeepsCallers(s, step);
    KeepsHolder(s, step);
    KeepsLinks(s, step);
    KeepsPubs(s, step);
    KeepsOutcomes(s, step);
    KeepsReturns(s, step);
    KeepsSent(s, step);
    KeepsCallsDistinct(s, step);
    KeepsRefreshes(s, step);
    KeepsUngated(s, step);
  }

  lemma {:induction false} InvAlong(s: State, steps: seq<Step>)
    requires Inv(s) && Execute(s, steps).Some?
    ensures Inv(Execute(s, steps).value)
    decreases |steps|
  {
    if steps != [] {
      InvKept(s, steps[0]);
      InvAlong(Do(s, steps[0]), steps[1..]);
    }
  }
}
