/**
 * Any number of goroutines share one ConnManager.  Each runs a small program with
 * a program counter; the manager's RWMutex, every channel's pubMu, the broker and
 * the network are interleaved with them one step at a time.
 *
 * Links are numbered in the order they were dialled, so link 0 is the one made by
 * NewConnManager.
 */
module PublishProtocol {
  import opened Wrappers
  import opened ConfirmLink

  /** The three entry points of the manager. */
  datatype Kind =
    | Reliable(maxRetries: int)   // PublishReliable
    | Plain                       // PublishMessage
    | Ungated                     // Reconnect

  /** How one publish attempt ended. */
  datatype Outcome =
    | Disabled                    // confirms are not enabled on this channel
    | PublishError
    | NoConfirm                   // the wait timed out
    | Unconfirmed                 // published on a channel without confirms
    | Confirmed(c: Confirmation, tag: nat, ahead: nat)
    | Replaced                    // an ungated reconnect has finished

  /**
   * `ahead` is how many confirmations of earlier publishes were still on their way
   * when the caller stopped draining (Reliable) or took pubMu (Plain).
   */
  datatype Pc =
    | Idle
    | Snapshot
    | Enter
    | Drain
    | Send(ahead: nat)
    | Wait(tag: nat, ahead: nat)
    | Release(o: Outcome)
    | Judge(o: Outcome)
    | AcquireMu
    | CheckGen
    | Closing
    | Dialing
    | Bump
    | ReturnConn
    | Finished(o: Outcome)

  datatype Caller = Caller(
    kind: Kind,
    serial: nat,      // number of calls this goroutine has made
    pc: Pc,
    conn: nat,        // its copy of the manager's Conn
    gen: nat,         // generation seen in the snapshot
    second: bool,     // reconnectIfStale has returned
    attempt: nat,
    copies: nat       // successful sends of this call
  )

  /** One completed dial: which call made it, and whether through reconnectIfStale. */
  datatype Dial = Dial(msg: Msg, gated: bool, oldGen: nat)

  /** One completed reconnectIfStale(oldGen), with the connection it returned. */
  datatype Refresh = Refresh(msg: Msg, oldGen: nat, conn: nat, generation: nat)

  /** One completed call. */
  datatype Return = Return(msg: Msg, kind: Kind, last: Outcome, conn: nat, gen: nat,
                           second: bool, attempt: nat, copies: nat)

  datatype State = State(
    links: seq<Link>,
    conn: nat,                // ConnManager.conn
    generation: nat,          // ConnManager.generation
    writer: Option<nat>,      // holder of ConnManager.mu for writing
    callers: seq<Caller>,
    // history
    dials: seq<Dial>,
    refreshes: seq<Refresh>,
    calls: seq<Return>,
    sent: multiset<Msg>
  )

  datatype Step =
    | Call(i: nat, kind: Kind)
    | TakeSnapshot(i: nat)
    | EnterAttempt(i: nat)
    | DrainStep(i: nat)
    | SendOk(i: nat)
    | SendFail(i: nat)
    | Receive(i: nat)
    | TimeOut(i: nat)
    | ReleasePubMu(i: nat)
    | JudgeAttempt(i: nat)
    | LockMu(i: nat)
    | CheckGeneration(i: nat)
    | CloseOld(i: nat)
    | DialFail(i: nat)
    | DialOk(i: nat, confirms: bool)
    | BumpGeneration(i: nat)
    | UnlockMu(i: nat)
    | Finish(i: nat)
    | BrokerConfirms(l: nat, ack: bool)
    | LinkDrops(l: nat)

  /** A non-positive retry count means three attempts; PublishMessage makes one. */
  function MaxAttempts(kind: Kind): (n: nat)
    ensures n >= 1
  {
    match kind
    case Reliable(m) => if m <= 0 then 3 else m
    case Plain => 1
    case Ungated => 1
  }

  /** The attempt makes the entry point return nil. */
  predicate Succeeds(kind: Kind, o: Outcome) {
    match kind
    case Reliable(_) => o.Confirmed? && o.c.ack
    case Plain => o.NoConfirm? || o.Confirmed? || o.Unconfirmed?
    case Ungated => true
  }

  function MsgOf(s: State, i: nat): Msg
    requires i < |s.callers|
  {
    Msg(i, s.callers[i].serial)
  }

  // ---------------------------------------------------------------- the steps

  function Initial(n: nat, confirms: bool): State {
    State([Fresh(confirms)], 0, 0, None,
          seq(n, _ => Caller(Plain, 0, Idle, 0, 0, false, 0, 0)),
          [], [], [], multiset{})
  }

  predicate OnLink(s: State, i: nat) {
    i < |s.callers| && s.callers[i].conn < |s.links|
  }

  predicate Enabled(s: State, step: Step) {
    match step
    case Call(i, _) => i < |s.callers| && s.callers[i].pc.Idle?
    case TakeSnapshot(i) => i < |s.callers| && s.callers[i].pc.Snapshot? && s.writer.None?
    case EnterAttempt(i) =>
      && OnLink(s, i) && s.callers[i].pc.Enter?
      && (s.links[s.callers[i].conn].confirms ==> s.links[s.callers[i].conn].holder.None?)
    case DrainStep(i) => OnLink(s, i) && s.callers[i].pc.Drain?
    case SendOk(i) => OnLink(s, i) && s.callers[i].pc.Send? && s.links[s.callers[i].conn].open
    case SendFail(i) => OnLink(s, i) && s.callers[i].pc.Send?
    case Receive(i) => OnLink(s, i) && s.callers[i].pc.Wait? && CanTake(s.links[s.callers[i].conn])
    case TimeOut(i) => OnLink(s, i) && s.callers[i].pc.Wait?
    case ReleasePubMu(i) => OnLink(s, i) && s.callers[i].pc.Release?
    case JudgeAttempt(i) => i < |s.callers| && s.callers[i].pc.Judge?
    case LockMu(i) => i < |s.callers| && s.callers[i].pc.AcquireMu? && s.writer.None?
    case CheckGeneration(i) => i < |s.callers| && s.callers[i].pc.CheckGen?
    case CloseOld(i) => i < |s.callers| && s.callers[i].pc.Closing? && s.conn < |s.links|
    case DialFail(i) => i < |s.callers| && s.callers[i].pc.Dialing?
    case DialOk(i, _) => i < |s.callers| && s.callers[i].pc.Dialing?
    case BumpGeneration(i) => i < |s.callers| && s.callers[i].pc.Bump?
    case UnlockMu(i) => i < |s.callers| && s.callers[i].pc.ReturnConn?
    case Finish(i) => i < |s.callers| && s.callers[i].pc.Finished?
    case BrokerConfirms(l, _) =>
      && l < |s.links| && s.links[l].open
      && s.links[l].atBroker != [] && |s.links[l].buffer| < CONFIRM_BUFFER
    case LinkDrops(l) => l < |s.links|
  }

  function WithCaller(s: State, i: nat, c: Caller): State
    requires i < |s.callers|
  {
    s.(callers := s.callers[i := c])
  }

  function Goto(s: State, i: nat, pc: Pc): State
    requires i < |s.callers|
  {
    WithCaller(s, i, s.callers[i].(pc := pc))
  }

  function WithLink(s: State, l: nat, k: Link): State
    requires l < |s.links|
  {
    s.(links := s.links[l := k])
  }

  function Do(s: State, step: Step): State
    requires Enabled(s, step)
  {
    match step
    case Call(i, kind) =>
      WithCaller(s, i, Caller(kind, s.callers[i].serial + 1,
                              if kind.Ungated? then AcquireMu else Snapshot, 0, 0, false, 0, 0))
    case TakeSnapshot(i) =>
      WithCaller(s, i, s.callers[i].(pc := Enter, conn := s.conn, gen := s.generation, attempt := 1))
    case EnterAttempt(i) => DoEnter(s, i)
    case DrainStep(i) => DoDrain(s, i)
    case SendOk(i) => DoSend(s, i)
    case SendFail(i) =>
      Goto(s, i, if s.links[s.callers[i].conn].confirms then Release(PublishError) else Judge(PublishError))
    case Receive(i) => DoReceive(s, i)
    case TimeOut(i) =>
      Goto(WithLink(s, s.callers[i].conn, GiveUp(s.links[s.callers[i].conn])), i, Release(NoConfirm))
    case ReleasePubMu(i) =>
      Goto(WithLink(s, s.callers[i].conn, s.links[s.callers[i].conn].(holder := None)), i, Judge(s.callers[i].pc.o))
    case JudgeAttempt(i) => DoJudge(s, i)
    case LockMu(i) =>
      Goto(s.(writer := Some(i)), i, if s.callers[i].kind.Ungated? then Closing else CheckGen)
    case CheckGeneration(i) =>
      Goto(s, i, if s.generation != s.callers[i].gen then ReturnConn else Closing)
    case CloseOld(i) => Goto(WithLink(s, s.conn, Shut(s.links[s.conn])), i, Dialing)
    case DialFail(i) => s
    case DialOk(i, confirms) =>
      Goto(s.(links := s.links + [Fresh(confirms)], conn := |s.links|), i, Bump)
    case BumpGeneration(i) =>
      Goto(s.(generation := s.generation + 1,
              dials := s.dials + [Dial(MsgOf(s, i), !s.callers[i].kind.Ungated?, s.callers[i].gen)]),
           i, ReturnConn)
    case UnlockMu(i) => DoUnlock(s, i)
    case Finish(i) => DoFinish(s, i)
    case BrokerConfirms(l, ack) => WithLink(s, l, Deliver(s.links[l], ack))
    case LinkDrops(l) => WithLink(s, l, Shut(s.links[l]))
  }

  /** Top of an attempt: refuse without confirms, otherwise lock pubMu. */
  function DoEnter(s: State, i: nat): State
    requires Enabled(s, EnterAttempt(i))
  {
    var c := s.callers[i];
    var k := s.links[c.conn];
    if !k.confirms then Goto(s, i, if c.kind.Reliable? then Judge(Disabled) else Send(0))
    else Goto(WithLink(s, c.conn, k.(holder := Some(i))), i,
              if c.kind.Reliable? then Drain else Send(Outstanding(k)))
  }

  /**
   * One turn of the drain loop.  A closed, empty channel keeps yielding zero
   * confirmations, so the loop turns without getting anywhere.
   */
  function DoDrain(s: State, i: nat): State
    requires Enabled(s, DrainStep(i))
  {
    var k := s.links[s.callers[i].conn];
    if k.buffer != [] then WithLink(s, s.callers[i].conn, DrainOne(k))
    else if k.open then Goto(s, i, Send(|k.atBroker|))
    else s
  }

  function DoSend(s: State, i: nat): State
    requires Enabled(s, SendOk(i))
  {
    var c := s.callers[i];
    var k := s.links[c.conn];
    var pc := if k.confirms then Wait(|k.log| + 1, c.pc.ahead) else Judge(Unconfirmed);
    WithCaller(WithLink(s, c.conn, Publish(k, MsgOf(s, i))), i, c.(pc := pc, copies := c.copies + 1))
      .(sent := s.sent + multiset{MsgOf(s, i)})
  }

  function DoReceive(s: State, i: nat): State
    requires Enabled(s, Receive(i))
  {
    var c := s.callers[i];
    var k := s.links[c.conn];
    Goto(WithLink(s, c.conn, Take(k)), i, Release(Confirmed(Taken(k), c.pc.tag, c.pc.ahead)))
  }

  /** After an attempt: done, next attempt, reconnect once, or give up. */
  function DoJudge(s: State, i: nat): State
    requires Enabled(s, JudgeAttempt(i))
  {
    var c := s.callers[i];
    if Succeeds(c.kind, c.pc.o) then Goto(s, i, Finished(c.pc.o))
    else if c.attempt < MaxAttempts(c.kind) then WithCaller(s, i, c.(pc := Enter, attempt := c.attempt + 1))
    else if !c.second then Goto(s, i, AcquireMu)
    else Goto(s, i, Finished(c.pc.o))
  }

  function DoUnlock(s: State, i: nat): State
    requires Enabled(s, UnlockMu(i))
  {
    var c := s.callers[i];
    if c.kind.Ungated? then Goto(s.(writer := None), i, Finished(Replaced))
    else WithCaller(s, i, c.(pc := Enter, conn := s.conn, second := true, attempt := 1))
         .(writer := None, refreshes := s.refreshes + [Refresh(MsgOf(s, i), c.gen, s.conn, s.generation)])
  }

  function DoFinish(s: State, i: nat): State
    requires Enabled(s, Finish(i))
  {
    var c := s.callers[i];
    Goto(s, i, Idle).(calls := s.calls +
      [Return(MsgOf(s, i), c.kind, c.pc.o, c.conn, c.gen, c.second, c.attempt, c.copies)])
  }

  /** A run: the state after performing the steps, if each was enabled in turn. */
  function Execute(s: State, steps: seq<Step>): Option<State>
    decreases |steps|
  {
    if steps == [] then Some(s)
    else if Enabled(s, steps[0]) then Execute(Do(s, steps[0]), steps[1..])
    else None
  }
}
