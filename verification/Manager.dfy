/**
 * The manager as one goroutine drives it: dialling, the generation gate, and
 * publish - reconnect - publish.  The interleaved form is in PublishProtocol.
 */
module Manager {
  import opened ConfirmLink
  import opened PublishProtocol
  import opened Publisher

  // ------------------------------------------------------------ dialling

  datatype Config = Config(queues: seq<string>, routingKeys: seq<string>, dlxExchange: string, dlqKey: string)

  datatype DialResult =
    | Connected(id: nat, confirms: bool)
    | Failed      // an error is returned
    | Panicked    // an index is out of range
    | Exited      // log.Fatalf ends the process

  /** The broker's side: which connections are open. */
  class Dialer {
    var open: set<nat>
    var next: nat

    ghost predicate Valid()
      reads this
    {
      forall id :: id in open ==> id < next
    }

    constructor ()
      ensures Valid() && open == {}
    {
      open, next := {}, 0;
    }

    /** `ok(n)` says whether the n-th library call of this GetConn succeeds. */
    method GetConn(conf: Config, ok: nat -> bool) returns (r: DialResult)
      requires Valid()
      modifies this
      ensures Valid()
      ensures r.Failed? ==> open == old(open) && exists n :: !ok(n)
      ensures !r.Failed? ==> open == old(open) + {old(next)} && old(next) !in old(open)
      ensures r.Connected? <==>
              && 1 <= |conf.queues| <= |conf.routingKeys|
              && (conf.dlxExchange != "" && conf.dlqKey != "" ==> |conf.queues| >= 2)
              && forall n :: 0 <= n < (if conf.dlxExchange != "" then 6 else 3) + 2 * |conf.queues| ==> ok(n)
      ensures r.Connected? ==>
                r.id == old(next) && r.confirms == ok((if conf.dlxExchange != "" then 6 else 3) + 2 * |conf.queues|)
      ensures r.Exited? <==> ok(0) && ok(1) && (conf.queues == [] || conf.routingKeys == [])
    {
      if !ok(0) {
        return Failed;
      }
      var id := next;
      open, next := open + {id}, next + 1;
      if !ok(1) {
        open := open - {id};
        return Failed;
      }
      if conf.queues == [] || conf.routingKeys == [] {
        return Exited;
      }
      if !ok(2) {
        open := open - {id};
        return Failed;
      }
      var n := 3;
      if conf.dlxExchange != "" {
        // exchange, queue and binding of the dead-letter route
        var calls := 0;
        while calls < 3
          invariant calls <= 3 && n == 3 + calls
          invariant forall k :: 0 <= k < n ==> ok(k)
        {
          if !ok(n) {
            open := open - {id};
            return Failed;
          }
          calls, n := calls + 1, n + 1;
        }
      }
      var deadLetters := conf.dlxExchange != "" && conf.dlqKey != "";
      var i := 0;
      while i < |conf.queues|
        invariant i <= |conf.queues| && n == (if conf.dlxExchange != "" then 6 else 3) + 2 * i
        invariant forall k :: 0 <= k < n ==> ok(k)
        invariant i > 0 ==> i <= |conf.routingKeys| && (deadLetters ==> |conf.queues| >= 2)
      {
        if deadLetters && |conf.queues| <= 1 {
          return Panicked;
        }
        if !ok(n) {
          open := open - {id};
          return Failed;
        }
        if |conf.routingKeys| <= i {
          return Panicked;
        }
        if !ok(n + 1) {
          open := open - {id};
          return Failed;
        }
        i, n := i + 1, n + 2;
      }
      return Connected(id, ok(n));
    }
  }

  // ------------------------------------------------------------ the manager

  /** How a manager's PublishReliable goes: in one half, or in two on two connections. */
  datatype CallEnd = OneHalf(d: Delivery) | TwoHalves(first: Delivery, second: Delivery)

  /** `next` is the connection that is current for the second half. */
  function CallReliable(k: Link, next: Link, m: Msg, first: nat -> Weather, second: nat -> Weather, max: nat): CallEnd
    requires max >= 1
  {
    var d := Retry(k, Trials(m, first), 1, max);
    if Decisive(d.last) then OneHalf(d) else TwoHalves(d, Retry(next, Trials(m, second), 1, max))
  }

  class ConnManager {
    var conn: Conn
    var generation: nat

    constructor (first: Conn)
      ensures conn == first && generation == 0
    {
      conn, generation := first, 0;
    }

    /** `dialled` is what the dial loop comes back with. */
    method ReconnectLocked(dialled: Conn)
      requires dialled != conn
      modifies this, conn
      ensures conn == dialled && generation == old(generation) + 1
      ensures old(conn).link == Shut(old(conn.link))
    {
      conn.link := Shut(conn.link);
      conn := dialled;
      generation := generation + 1;
    }

    method ReconnectIfStale(oldGen: nat, dialled: Conn) returns (c: Conn)
      requires dialled != conn
      modifies this, conn
      ensures c == conn && (oldGen <= old(generation) ==> generation > oldGen)
      ensures if old(generation) != oldGen
              then conn == old(conn) && generation == old(generation) && conn.link == old(conn.link)
              else conn == dialled && generation == old(generation) + 1 && old(conn).link == Shut(old(conn.link))
    {
      if generation != oldGen {
        return conn;
      }
      ReconnectLocked(dialled);
      return conn;
    }

    /** Other goroutines replace the connection, each by a newly dialled one. */
    method OthersReconnect(others: seq<Conn>)
      requires conn !in others && forall a, b :: 0 <= a < b < |others| ==> others[a] != others[b]
      modifies this, conn, others
      ensures generation == old(generation) + |others|
      ensures conn == if others == [] then old(conn) else others[|others| - 1]
      ensures old(conn).link == if others == [] then old(conn.link) else Shut(old(conn.link))
      ensures forall a :: 0 <= a < |others| ==>
                others[a].link == if a < |others| - 1 then Shut(old(others[a].link)) else old(others[a].link)
    {
      var c, gen := conn, generation;
      var i := 0;
      while i < |others|
        invariant i <= |others| && generation == gen + i
        invariant conn == (if i == 0 then c else others[i - 1])
        invariant c.link == (if i == 0 then old(conn.link) else Shut(old(conn.link)))
        invariant forall a :: 0 <= a < |others| ==>
                    others[a].link == (if a < i - 1 then Shut(old(others[a].link)) else old(others[a].link))
      {
        ReconnectLocked(others[i]);
        i := i + 1;
      }
    }

    method PublishMessage(m: Msg, first: Weather, second: Weather, others: seq<Conn>, dialled: Conn) returns (ok: bool)
      requires dialled != conn && dialled !in others && conn !in others
      requires forall a, b :: 0 <= a < b < |others| ==> others[a] != others[b]
      modifies this, conn, dialled, others
      ensures var (k, sent) := SendOnce(old(conn.link), m, first);
        if sent
        then ok && conn == old(conn) && generation == old(generation) && conn.link == k
        else
          && generation == old(generation) + (if others == [] then 1 else |others|)
          && conn == (if others == [] then dialled else others[|others| - 1])
          && old(conn).link == Shut(k)
          && (conn.link, ok) ==
             SendOnce(if others == [] then old(dialled.link) else old(others[|others| - 1].link), m, second)
    {
      var c, gen := conn, generation;
      ok := c.PublishMessage(m, first);
      if ok {
        return;
      }
      OthersReconnect(others);
      c := ReconnectIfStale(gen, dialled);
      ok := c.PublishMessage(m, second);
    }

    /**
     * `others` are the connections that other goroutines install while the first half
     * of the call is failing; the call itself dials only if there are none.
     */
    method PublishReliable(m: Msg, first: nat -> Weather, second: nat -> Weather, maxRetries: int,
                           others: seq<Conn>, dialled: Conn)
        returns (ok: bool, attempts: nat, last: Attempt)
      requires dialled != conn && dialled !in others && conn !in others
      requires forall a, b :: 0 <= a < b < |others| ==> others[a] != others[b]
      modifies this, conn, dialled, others
      ensures ok <==> Acked(last)
      ensures 1 <= attempts <= 2 * (if maxRetries <= 0 then 3 else maxRetries)
      ensures !ok && last.Ended? ==> attempts == 2 * (if maxRetries <= 0 then 3 else maxRetries)
      ensures var max := MaxAttempts(Reliable(maxRetries));
        var next := if others == [] then old(dialled.link) else old(others[|others| - 1].link);
        match CallReliable(old(conn.link), next, m, first, second, max)
        case OneHalf(d) =>
          conn == old(conn) && generation == old(generation) && Delivery(conn.link, attempts, last) == d
        case TwoHalves(d, again) =>
          && generation == old(generation) + (if others == [] then 1 else |others|)
          && conn == (if others == [] then dialled else others[|others| - 1])
          && old(conn).link == Shut(d.link)
          && (forall a :: 0 <= a < |others| - 1 ==> others[a].link == Shut(old(others[a].link)))
          && attempts > max && Delivery(conn.link, attempts - max, last) == again
    {
      var c, gen := conn, generation;
      var pauses;
      ok, attempts, last, pauses := c.PublishReliable(m, first, maxRetries);
      if ok || last.Hung? {
        return;
      }
      OthersReconnect(others);
      c := ReconnectIfStale(gen, dialled);
      var again;
      ok, again, last, pauses := c.PublishReliable(m, second, maxRetries);
      var max := MaxAttempts(Reliable(maxRetries));
      attempts := max + again;
    }
  }
}
