/**
 * One AMQP channel in confirm mode: the broker's queue of unconfirmed publishes,
 * the shared listener channel `confirmCh`, and the mutex `pubMu` that serialises
 * publish-and-wait.  Delivery tags count from 1 on every channel.
 *
 * `log`, `verdicts` and the four counters are history: they record what happened
 * on the channel and never influence what it does next.
 */
module ConfirmLink {
  import opened Wrappers

  // Capacity of the listener channel made by GetConn.
  const CONFIRM_BUFFER: nat := 256

  /** A message is one call of a publishing entry point, however often it is sent. */
  datatype Msg = Msg(caller: nat, serial: nat)

  datatype Confirmation = Confirmation(tag: nat, ack: bool)

  // What a receive from a closed Go channel yields.
  const ZERO_CONFIRMATION := Confirmation(0, false)

  datatype Link = Link(
    open: bool,
    confirms: bool,               // confirmCh and pubMu are non-nil
    holder: Option<nat>,          // the caller that has locked pubMu
    buffer: seq<Confirmation>,    // confirmations waiting in confirmCh
    atBroker: seq<nat>,           // tags published and not yet confirmed
    log: seq<Msg>,                // log[t - 1] was published under tag t
    verdicts: seq<bool>,          // verdicts[t - 1]: the broker acked tag t
    received: nat,                // confirmations handed to a waiting publisher
    drained: nat,                 // confirmations discarded by the drain loop
    timeouts: nat,                // waits that timed out
    zeros: nat                    // waits answered by the closed channel
  )

  function Fresh(confirms: bool): Link {
    Link(true, confirms, None, [], [], [], [], 0, 0, 0, 0)
  }

  function Publish(k: Link, m: Msg): Link {
    if k.confirms
    then k.(log := k.log + [m], atBroker := k.atBroker + [|k.log| + 1])
    else k
  }

  /** The broker answers its oldest unconfirmed publish. */
  function Deliver(k: Link, ack: bool): Link
    requires k.atBroker != []
  {
    k.(atBroker := k.atBroker[1..],
       buffer := k.buffer + [Confirmation(k.atBroker[0], ack)],
       verdicts := k.verdicts + [ack])
  }

  function DrainOne(k: Link): Link
    requires k.buffer != []
  {
    k.(buffer := k.buffer[1..], drained := k.drained + 1)
  }

  predicate CanTake(k: Link) {
    k.buffer != [] || !k.open
  }

  /** What a receive yields: the oldest buffered confirmation, or zero once closed. */
  function Taken(k: Link): Confirmation
    requires CanTake(k)
  {
    if k.buffer != [] then k.buffer[0] else ZERO_CONFIRMATION
  }

  function Take(k: Link): Link
    requires CanTake(k)
  {
    if k.buffer != []
    then k.(buffer := k.buffer[1..], received := k.received + 1)
    else k.(zeros := k.zeros + 1)
  }

  function GiveUp(k: Link): Link {
    k.(timeouts := k.timeouts + 1)
  }

  function Shut(k: Link): Link {
    k.(open := false)
  }

  /** Confirmations that some earlier publish still owes to the channel. */
  function Outstanding(k: Link): nat {
    |k.buffer| + |k.atBroker|
  }

  /**
   * Tags leave the channel in order: 1 .. received + drained are gone, the next
   * ones sit in the buffer with the verdict the broker gave, and the rest are
   * still at the broker.
   */
  ghost predicate Fifo(k: Link) {
    && |k.buffer| <= CONFIRM_BUFFER
    && k.received + k.drained + |k.buffer| == |k.verdicts|
    && |k.verdicts| + |k.atBroker| == |k.log|
    && (forall j :: 0 <= j < |k.buffer| ==>
          k.buffer[j] == Confirmation(k.received + k.drained + 1 + j, k.verdicts[k.received + k.drained + j]))
    && (forall j :: 0 <= j < |k.atBroker| ==> k.atBroker[j] == |k.verdicts| + 1 + j)
    && (k.open ==> k.zeros == 0)
  }

  /** How every publish of the channel was answered, `waiting` of them not yet. */
  predicate Balanced(k: Link, waiting: nat) {
    |k.log| == k.received + k.timeouts + k.zeros + waiting
  }

  /** The two links record the same past as far as `k` goes. */
  ghost predicate Extends(k: Link, k': Link) {
    && k.log <= k'.log
    && k.verdicts <= k'.verdicts
    && k.timeouts <= k'.timeouts
    && k.confirms == k'.confirms
    && (k'.open ==> k.open)
  }

  lemma FreshIsSound(confirms: bool)
    ensures Fifo(Fresh(confirms)) && Balanced(Fresh(confirms), 0)
  {
  }

  lemma PublishKeepsFifo(k: Link, m: Msg)
    requires Fifo(k)
    ensures Fifo(Publish(k, m)) && Extends(k, Publish(k, m))
  {
  }

  lemma DeliverKeepsFifo(k: Link, ack: bool)
    requires Fifo(k) && k.atBroker != [] && |k.buffer| < CONFIRM_BUFFER
    ensures Fifo(Deliver(k, ack)) && Extends(k, Deliver(k, ack))
  {
    var k' := Deliver(k, ack);
    assert forall j :: 0 <= j < |k.buffer| ==> k'.buffer[j] == k.buffer[j];
    assert k'.buffer[|k.buffer|] == Confirmation(|k.verdicts| + 1, ack);
  }

  lemma DrainKeepsFifo(k: Link)
    requires Fifo(k) && k.buffer != []
    ensures Fifo(DrainOne(k))
  {
  }

  lemma TakeKeepsFifo(k: Link)
    requires Fifo(k) && CanTake(k)
    ensures Fifo(Take(k)) && Extends(k, Take(k))
  {
  }
}
