/**
 * One caller of Conn.PublishReliable: the attempt, the retry loop and its backoff.
 * The library and the broker are an environment: `Weather` says what they do to one
 * attempt.
 */
module Publisher {
  import opened Wrappers
  import opened ConfirmLink
  import opened PublishProtocol

  const FIRST_BACKOFF: nat := 500      // milliseconds
  const MAX_BACKOFF: nat := 10_000

  /** What can happen to the channel: the broker answers its oldest publish, or the channel is lost. */
  datatype Event = Answers(ack: bool) | Drops

  /**
   * The world around one attempt: `before` happens until it has locked pubMu, `during`
   * while it waits, and `late` means the timer fires before a confirmation is taken.
   */
  datatype Weather = Weather(before: seq<Event>, sendOk: bool, during: seq<Event>, late: bool)

  datatype Attempt = Ended(o: Outcome) | Hung

  // ------------------------------------------------------------ one attempt

  function DrainAll(k: Link): Link {
    k.(buffer := [], drained := k.drained + |k.buffer|)
  }

  /** An answer needs something to answer, an open channel and room in the buffer. */
  function Happens(k: Link, e: Event): Link {
    match e
    case Answers(ack) => if k.atBroker != [] && k.open && |k.buffer| < CONFIRM_BUFFER then Deliver(k, ack) else k
    case Drops => Shut(k)
  }

  function Play(k: Link, events: seq<Event>): Link
    decreases |events|
  {
    if events == [] then k else Play(Happens(k, events[0]), events[1..])
  }

  /** What publishAndWaitConfirm does to an unlocked link, and how it ends. */
  function TryOnce(k: Link, m: Msg, w: Weather): (Link, Attempt) {
    LockedTry(Play(k, w.before), m, w)
  }

  /** The attempt from locking pubMu to unlocking it. */
  function LockedTry(k: Link, m: Msg, w: Weather): (Link, Attempt) {
    if !k.confirms then (k, Ended(Disabled))
    else
      var d := DrainAll(k);
      if !d.open then (d, Hung)
      else if !w.sendOk then (d, Ended(PublishError))
      else
        var a := Play(Publish(d, m), w.during);
        if w.late || !CanTake(a) then (GiveUp(a), Ended(NoConfirm))
        else (Take(a), Ended(Confirmed(Taken(a), |d.log| + 1, |d.atBroker|)))
  }

  /** What PublishMessage does to an unlocked link, and whether it returns nil. */
  function SendOnce(k: Link, m: Msg, w: Weather): (Link, bool) {
    LockedSend(Play(k, w.before), m, w)
  }

  function LockedSend(k: Link, m: Msg, w: Weather): (Link, bool) {
    if !k.open || !w.sendOk then (k, false)
    else if !k.confirms then (Publish(k, m), true)
    else
      var a := Play(Publish(k, m), w.during);
      if w.late || !CanTake(a) then (GiveUp(a), true) else (Take(a), true)
  }

  // ------------------------------------------------------------ what a channel keeps

  lemma HappensKeeps(k: Link, e: Event)
    ensures var k' := Happens(k, e);
      && Outstanding(k') == Outstanding(k) && k'.log == k.log && k'.confirms == k.confirms && k'.holder == k.holder
      && k'.received == k.received && k'.drained == k.drained && k'.timeouts == k.timeouts && k'.zeros == k.zeros
      && (Fifo(k) ==> Fifo(k') && Extends(k, k'))
  {
    if e.Answers? && k.atBroker != [] && k.open && |k.buffer| < CONFIRM_BUFFER && Fifo(k) {
      DeliverKeepsFifo(k, e.ack);
    }
  }

  /** Whatever happens to a channel moves confirmations along but creates and loses none. */
  lemma {:induction false} PlayKeeps(k: Link, events: seq<Event>)
    ensures var k' := Play(k, events);
      && Outstanding(k') == Outstanding(k) && k'.log == k.log && k'.confirms == k.confirms && k'.holder == k.holder
      && k'.received == k.received && k'.drained == k.drained && k'.timeouts == k.timeouts && k'.zeros == k.zeros
      && (Fifo(k) ==> Fifo(k'))
    decreases |events|
  {
    if events != [] {
      HappensKeeps(k, events[0]);
      PlayKeeps(Happens(k, events[0]), events[1..]);
    }
  }

  /**
   * PublishMessage keeps the order of confirmations and the balance of the channel, and
   * leaves it owing one confirmation more exactly if its wait was not answered by one.
   */
  lemma SendOnceKeeps(k: Link, m: Msg, w: Weather)
    requires Fifo(k) && Balanced(k, 0)
    ensures SendKept(k, SendOnce(k, m, w).0, m, SendOnce(k, m, w).1)
  {
    PlayKeeps(k, w.before);
    LockedSendKeeps(Play(k, w.before), m, w);
  }

  lemma LockedSendKeeps(k: Link, m: Msg, w: Weather)
    requires Fifo(k) && Balanced(k, 0)
    ensures SendKept(k, LockedSend(k, m, w).0, m, LockedSend(k, m, w).1)
  {
    var p := Publish(k, m);
    PublishKeepsFifo(k, m);
    PlayKeeps(p, w.during);
    var a := Play(p, w.during);
    if CanTake(a) { TakeKeepsFifo(a); }
  }

  /** The ledger around one PublishMessage on an unlocked link. */
  ghost predicate SendKept(k: Link, k': Link, m: Msg, ok: bool) {
    && Fifo(k') && Balanced(k', 0) && k'.confirms == k.confirms && k'.drained == k.drained
    && k'.log == (if ok && k.confirms then k.log + [m] else k.log)
    && Outstanding(k') == Outstanding(k) + (k'.timeouts - k.timeouts) + (k'.zeros - k.zeros)
    && k'.timeouts + k'.zeros - k.timeouts - k.zeros <= 1
    && (!ok ==> Outstanding(k') == Outstanding(k))
  }

  // ------------------------------------------------------------ the retry loop

  predicate Acked(a: Attempt) {
    a.Ended? && a.o.Confirmed? && a.o.c.ack
  }

  /** The attempt ends the loop whatever its number. */
  predicate Decisive(a: Attempt) {
    Acked(a) || a.Hung?
  }

  /** How a PublishReliable ended: with which attempt, and how that one ended. */
  datatype Delivery = Delivery(link: Link, attempts: nat, last: Attempt)

  /** What attempt number `j` does to the link it finds. */
  type Trial = (Link, nat) -> (Link, Attempt)

  function Trials(m: Msg, weather: nat -> Weather): Trial {
    (k: Link, j: nat) => TryOnce(k, m, weather(j))
  }

  /** The attempts from number `attempt` on. */
  function Retry(k: Link, trial: Trial, attempt: nat, max: nat): Delivery
    requires 1 <= attempt <= max
    decreases max - attempt
  {
    var (k', a) := trial(k, attempt);
    if Decisive(a) || attempt == max then Delivery(k', attempt, a)
    else Retry(k', trial, attempt + 1, max)
  }

  function Pow2(n: nat): (p: nat)
    ensures p >= 1
  {
    if n == 0 then 1 else 2 * Pow2(n - 1)
  }

  /** The pause after failed attempt `k`. */
  function PauseAfter(k: nat): nat
    requires k >= 1
  {
    Min(FIRST_BACKOFF * Pow2(k - 1), MAX_BACKOFF)
  }

  function Total(pauses: seq<nat>): nat {
    if pauses == [] then 0 else Total(pauses[..|pauses| - 1]) + pauses[|pauses| - 1]
  }

  class Conn {
    var link: Link

    constructor (confirms: bool)
      ensures link == Fresh(confirms)
    {
      link := Fresh(confirms);
    }

    /** The world's side of a pause or a wait. */
    method Meanwhile(events: seq<Event>)
      modifies this
      ensures link == Play(old(link), events)
    {
      var i := 0;
      while i < |events|
        invariant i <= |events|
        invariant Play(link, events[i..]) == Play(old(link), events)
      {
        link := Happens(link, events[i]);
        i := i + 1;
      }
    }

    method PublishMessage(m: Msg, w: Weather) returns (ok: bool)
      modifies this
      ensures (link, ok) == SendOnce(old(link), m, w)
      ensures Fifo(old(link)) && Balanced(old(link), 0) ==> SendKept(old(link), link, m, ok)
    {
      if Fifo(link) && Balanced(link, 0) { SendOnceKeeps(link, m, w); }
      Meanwhile(w.before);
      if !link.open || !w.sendOk {
        return false;
      }
      link := Publish(link, m);
      if link.confirms {
        Meanwhile(w.during);
        if w.late || !CanTake(link) {
          link := GiveUp(link);
        } else {
          link := Take(link);
        }
      }
      return true;
    }

    method PublishAndWaitConfirm(m: Msg, w: Weather) returns (a: Attempt)
      modifies this
      ensures (link, a) == TryOnce(old(link), m, w)
    {
      Meanwhile(w.before);
      ghost var locked := link;
      if !link.confirms {
        return Ended(Disabled);
      }
      while link.buffer != []
        invariant DrainAll(link) == DrainAll(locked)
        decreases |link.buffer|
      {
        link := DrainOne(link);
      }
      if !link.open {
        return Hung;
      }
      if !w.sendOk {
        return Ended(PublishError);
      }
      var tag, ahead := |link.log| + 1, |link.atBroker|;
      link := Publish(link, m);
      Meanwhile(w.during);
      if w.late || !CanTake(link) {
        link := GiveUp(link);
        return Ended(NoConfirm);
      }
      a := Ended(Confirmed(Taken(link), tag, ahead));
      link := Take(link);
    }

    /** `pauses` are the sleeps between the attempts, in milliseconds. */
    method PublishReliable(m: Msg, weather: nat -> Weather, maxRetries: int)
        returns (ok: bool, attempts: nat, last: Attempt, pauses: seq<nat>)
      modifies this
      ensures Delivery(link, attempts, last) ==
              Retry(old(link), Trials(m, weather), 1, MaxAttempts(Reliable(maxRetries)))
      ensures ok <==> Acked(last)
      ensures 1 <= attempts <= (if maxRetries <= 0 then 3 else maxRetries)
      ensures !ok && last.Ended? ==> attempts == (if maxRetries <= 0 then 3 else maxRetries)
      ensures |pauses| == attempts - 1
      ensures forall k :: 0 <= k < |pauses| ==> pauses[k] == PauseAfter(k + 1)
    {
      var max: nat := if maxRetries <= 0 then 3 else maxRetries;
      var backoff := FIRST_BACKOFF;
      attempts, pauses := 1, [];
      while true
        invariant 1 <= attempts <= max
        invariant Retry(link, Trials(m, weather), attempts, max) == Retry(old(link), Trials(m, weather), 1, max)
        invariant backoff == PauseAfter(attempts)
        invariant |pauses| == attempts - 1
        invariant forall k :: 0 <= k < |pauses| ==> pauses[k] == PauseAfter(k + 1)
        decreases max - attempts
      {
        last := PublishAndWaitConfirm(m, weather(attempts));
        if last.Hung? {
          return false, attempts, last, pauses;
        }
        if Acked(last) {
          return true, attempts, last, pauses;
        }
        if attempts == max {
          return false, attempts, last, pauses;
        }
        pauses := pauses + [backoff];
        backoff := backoff * 2;
        if backoff > MAX_BACKOFF {
          backoff := MAX_BACKOFF;
        }
        attempts := attempts + 1;
      }
    }
  }
}
