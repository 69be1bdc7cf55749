/**
  The client listener's registry of live connections: admission against the
  configured maximum, removal when a client disconnects, and stopping everything.
  The sockets, the accepting thread and the UI are not modelled; the
  connections the accept call returns are given as a sequence.
*/
module Listener {
  import opened Numerals

  /** A client session, as far as the listener drives it. */
  class Connection {
    /** Its read loop runs. */
    var running: bool
    /** It was told that the bank is full. */
    var refused: bool

    constructor ()
      ensures !running && !refused
    {
      running := false;
      refused := false;
    }

    method Start()
      modifies this
      ensures running && refused == old(refused)
    {
      running := true;
    }

    method Stop()
      modifies this
      ensures !running && refused == old(refused)
    {
      running := false;
    }

    method SendMessageCapacityFull()
      modifies this
      ensures refused && running == old(running)
    {
      refused := true;
    }
  }

  /** No connection is listed twice. */
  predicate Distinct(s: seq<Connection>)
  {
    forall i, j | 0 <= i < j < |s| :: s[i] != s[j]
  }

  /** List.Remove: the list without the first occurrence of x, if any. */
  function Without(s: seq<Connection>, x: Connection): (r: seq<Connection>)
  {
    if |s| == 0 then []
    else if s[0] == x then s[1..]
    else [s[0]] + Without(s[1..], x)
  }

  /** Removing a connection that is not listed changes nothing. */
  lemma {:induction false} WithoutAbsent(s: seq<Connection>, x: Connection)
    requires x !in s
    ensures Without(s, x) == s
  {
    if |s| > 0 {
      WithoutAbsent(s[1..], x);
    }
  }

  /** The position of the first occurrence of x. */
  function Position(s: seq<Connection>, x: Connection): (k: nat)
    requires x in s
    ensures k < |s| && s[k] == x && forall j | 0 <= j < k :: s[j] != x
  {
    if s[0] == x then 0 else 1 + Position(s[1..], x)
  }

  lemma {:induction false} WithoutAt(s: seq<Connection>, x: Connection, k: nat)
    requires k < |s| && s[k] == x && forall j | 0 <= j < k :: s[j] != x
    ensures Without(s, x) == s[..k] + s[k + 1..]
  {
    if k > 0 {
      WithoutAt(s[1..], x, k - 1);
      assert s[..k] == [s[0]] + s[1..][..k - 1];
      assert s[k + 1..] == s[1..][k..];
    }
  }

  /** Removing a listed connection takes out exactly its first occurrence and keeps the
      order of the others. */
  lemma WithoutPresent(s: seq<Connection>, x: Connection)
    requires x in s
    ensures exists k | 0 <= k < |s| && s[k] == x :: Without(s, x) == s[..k] + s[k + 1..]
    ensures |Without(s, x)| == |s| - 1
    ensures multiset(Without(s, x)) == multiset(s) - multiset{x}
  {
    var k := Position(s, x);
    WithoutAt(s, x, k);
    assert s == s[..k] + [x] + s[k + 1..];
  }

  /** In a list without repetitions the removed connection is gone, and there are still
      no repetitions. */
  lemma WithoutDistinct(s: seq<Connection>, x: Connection)
    requires Distinct(s) && x in s
    ensures x !in Without(s, x) && Distinct(Without(s, x))
  {
    var k := Position(s, x);
    WithoutAt(s, x, k);
    var r := Without(s, x);
    assert forall i | 0 <= i < |r| :: r[i] == (if i < k then s[i] else s[i + 1]);
  }

  /** A disconnection reported twice has the effect of one, in a list without repetitions. */
  lemma WithoutIdempotent(s: seq<Connection>, x: Connection)
    requires Distinct(s)
    ensures Without(Without(s, x), x) == Without(s, x)
  {
    if x in s {
      WithoutDistinct(s, x);
      WithoutAbsent(Without(s, x), x);
    } else {
      WithoutAbsent(s, x);
    }
  }

  /** How many of n arriving connections a registry holding count of at most max admits. */
  function Admitted(count: int, n: nat, max: int): (k: nat)
    ensures k <= n
    ensures count <= max ==> count + k <= max
    ensures k < n ==> count + k >= max
  {
    if count >= max then 0 else if n <= max - count then n else max - count
  }

  /** ConfigureKeepAlive: the idle time before probing in seconds (the configured timeout
      is in milliseconds, divided with truncation), the probe interval, half of that, and
      the number of probes. */
  function KeepAlive(timeoutTime: int): (r: (int, int, int))
    ensures timeoutTime >= 0 ==> 1000 * r.0 <= timeoutTime < 1000 * (r.0 + 1)
    ensures timeoutTime >= 0 ==> 2 * r.1 <= r.0 < 2 * r.1 + 2
    ensures timeoutTime < 0 ==> r.0 <= 0 && r.1 <= 0
    ensures r.2 == 3
  {
    var time := TruncDiv(timeoutTime, 1000);
    (time, TruncDiv(time, 2), 3)
  }

  class ClientListener {
    var isRunning: bool
    var clients: seq<Connection>
    /** MaxConnectionCount and TimeoutTime of the configuration. */
    const maxConnections: int
    const timeoutTime: int

    ghost predicate Valid()
      reads this
    {
      Distinct(clients)
    }

    constructor (maxConnections: int, timeoutTime: int)
      ensures Valid() && !isRunning && clients == []
      ensures this.maxConnections == maxConnections && this.timeoutTime == timeoutTime
    {
      isRunning := false;
      clients := [];
      this.maxConnections := maxConnections;
      this.timeoutTime := timeoutTime;
    }

    method Start()
      modifies this
      ensures isRunning && clients == old(clients)
    {
      isRunning := true;
    }

    /** One pass of the accept loop for a newly accepted connection: refused at capacity,
        otherwise registered and started. */
    method Accept(connection: Connection) returns (admitted: bool)
      requires Valid() && connection !in clients
      modifies this, connection
      ensures Valid() && isRunning == old(isRunning)
      ensures admitted <==> |old(clients)| < maxConnections
      ensures admitted ==> clients == old(clients) + [connection] && connection.running
      ensures !admitted ==> clients == old(clients) && connection.refused && !connection.running
    {
      if |clients| >= maxConnections {
        connection.SendMessageCapacityFull();
        // The delayed stop of the refused connection happens here at once.
        connection.Stop();
        return false;
      }
      clients := clients + [connection];
      connection.Start();
      admitted := true;
    }

    /** The accept loop over the connections that arrive, in order, while the listener runs:
        the first ones that fit are registered, every later one is refused, and a registry
        that was within the maximum stays within it. */
    method AcceptClients(incoming: seq<Connection>)
      requires Valid() && isRunning && Distinct(incoming)
      requires forall k | 0 <= k < |incoming| :: incoming[k] !in clients
      modifies this, incoming
      ensures Valid() && isRunning
      ensures clients == old(clients) + incoming[..Admitted(|old(clients)|, |incoming|, maxConnections)]
      ensures |old(clients)| <= maxConnections ==> |clients| <= maxConnections
      ensures forall k | 0 <= k < |incoming| ::
        incoming[k].running <==> |old(clients)| + k < maxConnections
      ensures forall k | 0 <= k < |incoming| :: |old(clients)| + k >= maxConnections ==> incoming[k].refused
    {
      var t := 0;
      while t < |incoming|
        invariant 0 <= t <= |incoming| && Valid() && isRunning
        invariant clients == old(clients) + incoming[..Admitted(|old(clients)|, t, maxConnections)]
        invariant forall k | 0 <= k < t :: incoming[k].running <==> |old(clients)| + k < maxConnections
        invariant forall k | 0 <= k < t :: |old(clients)| + k >= maxConnections ==> incoming[k].refused
      {
        var connection := incoming[t];
        assert connection !in clients by {
          assert forall k | 0 <= k < Admitted(|old(clients)|, t, maxConnections) :: incoming[k] != connection;
        }
        var admitted := Accept(connection);
        assert forall k | 0 <= k < t :: incoming[k] != connection;
        assert incoming[..t + 1] == incoming[..t] + [connection];
        t := t + 1;
      }
      assert incoming[..|incoming|] == incoming;
    }

    /** ClientDisconected: the connection leaves the registry; an unknown one is ignored. */
    method ClientDisconnected(client: Connection)
      requires Valid()
      modifies this
      ensures Valid() && isRunning == old(isRunning)
      ensures clients == Without(old(clients), client)
      ensures client !in clients
    {
      if client !in clients {
        WithoutAbsent(clients, client);
        return;
      }
      WithoutDistinct(clients, client);
      clients := Without(clients, client);
    }

    /** Stop: the listener stops running and every registered connection is stopped. */
    method Stop()
      modifies this, clients
      ensures !isRunning && clients == old(clients)
      ensures forall k | 0 <= k < |clients| :: !clients[k].running
    {
      isRunning := false;
      var t := 0;
      while t < |clients|
        invariant 0 <= t <= |clients| && !isRunning && clients == old(clients)
        invariant forall k | 0 <= k < t :: !clients[k].running
      {
        clients[t].Stop();
        t := t + 1;
      }
    }
  }
}
