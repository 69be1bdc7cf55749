/**
  The robbery planner.  It gathers the total (BA) and client count (BN) of every
  other node the scan found, then runs a sparse 0/1 knapsack over the nodes:
  the table maps a number of affected clients to the most money reachable with
  exactly that many, and the plan is the smallest client count whose money
  reaches the goal.  The table is proved optimal over every selection of
  nodes, so the plan affects as few clients as any plan that reaches the goal.
*/
module Robbery {
  import opened Wrappers
  import opened Text
  import opened Numerals
  import opened Scanner
  import opened Proxy

  /** BankNodeData: a node's address text, its total and its client count (-1 when unknown). */
  datatype BankNode = BankNode(ip: string, amount: int, clients: int)

  /** One table entry: the money of a combination and the addresses it robs, in node order. */
  datatype Haul = Haul(money: int, ips: seq<string>)

  const NoNodes: string := "ER " + "no other bank nodes were found"
  const Insufficient: string := "RP " + "Plan will fail: Insufficient funds in the network"

  /** A choice of nodes among the first n: ascending positions, none chosen twice. */
  predicate Selection(sel: seq<nat>, n: nat)
  {
    && (forall k | 0 <= k < |sel| :: sel[k] < n)
    && (forall j, k | 0 <= j < k < |sel| :: sel[j] < sel[k])
  }

  function ClientSum(nodes: seq<BankNode>, sel: seq<nat>): int
    requires forall k | 0 <= k < |sel| :: sel[k] < |nodes|
  {
    if |sel| == 0 then 0 else ClientSum(nodes, sel[..|sel| - 1]) + nodes[sel[|sel| - 1]].clients
  }

  function MoneySum(nodes: seq<BankNode>, sel: seq<nat>): int
    requires forall k | 0 <= k < |sel| :: sel[k] < |nodes|
  {
    if |sel| == 0 then 0 else MoneySum(nodes, sel[..|sel| - 1]) + nodes[sel[|sel| - 1]].amount
  }

  function IpsOf(nodes: seq<BankNode>, sel: seq<nat>): seq<string>
    requires forall k | 0 <= k < |sel| :: sel[k] < |nodes|
  {
    if |sel| == 0 then [] else IpsOf(nodes, sel[..|sel| - 1]) + [nodes[sel[|sel| - 1]].ip]
  }

  /** Every entry of the table is the result of the selection picks records for it. */
  ghost predicate Witnessed(nodes: seq<BankNode>, states: map<int, Haul>, picks: map<int, seq<nat>>, n: nat)
    requires n <= |nodes|
  {
    forall c | c in states ::
      && c in picks && Selection(picks[c], n)
      && ClientSum(nodes, picks[c]) == c
      && MoneySum(nodes, picks[c]) == states[c].money
      && IpsOf(nodes, picks[c]) == states[c].ips
  }

  /** Every selection among the first n nodes is matched or beaten by the table entry of
      its client count. */
  ghost predicate Dominates(nodes: seq<BankNode>, states: map<int, Haul>, n: nat)
    requires n <= |nodes|
  {
    forall sel | Selection(sel, n) ::
      ClientSum(nodes, sel) in states && states[ClientSum(nodes, sel)].money >= MoneySum(nodes, sel)
  }

  /** The keys of the table, listed in order, each once. */
  predicate Listed(states: map<int, Haul>, order: seq<int>)
  {
    && (forall c | c in states :: c in order)
    && (forall c | c in order :: c in states)
    && (forall j, k | 0 <= j < k < |order| :: order[j] != order[k])
  }

  /** The k-th chosen position is at least k. */
  lemma {:induction false} SelectionAscends(sel: seq<nat>, n: nat, k: nat)
    requires Selection(sel, n) && k < |sel|
    ensures sel[k] >= k
  {
    if k > 0 {
      SelectionAscends(sel, n, k - 1);
    }
  }

  /** A selection among n nodes chooses at most n of them. */
  lemma SelectionSize(sel: seq<nat>, n: nat)
    requires Selection(sel, n)
    ensures |sel| <= n
  {
    if |sel| > 0 {
      SelectionAscends(sel, n, |sel| - 1);
    }
  }

  /** Adding node i to a selection of earlier nodes. */
  lemma Extend(nodes: seq<BankNode>, p: seq<nat>, i: nat)
    requires i < |nodes| && Selection(p, i)
    ensures Selection(p + [i], i + 1)
    ensures ClientSum(nodes, p + [i]) == ClientSum(nodes, p) + nodes[i].clients
    ensures MoneySum(nodes, p + [i]) == MoneySum(nodes, p) + nodes[i].amount
    ensures IpsOf(nodes, p + [i]) == IpsOf(nodes, p) + [nodes[i].ip]
  {
    assert (p + [i])[..|p|] == p;
  }

  /** A selection among the first i + 1 nodes either leaves node i out, or is a selection
      among the first i nodes with node i added. */
  lemma Unextend(sel: seq<nat>, i: nat)
    requires Selection(sel, i + 1)
    ensures |sel| > 0 && sel[|sel| - 1] == i ==> Selection(sel[..|sel| - 1], i)
    ensures !(|sel| > 0 && sel[|sel| - 1] == i) ==> Selection(sel, i)
  {
    if |sel| > 0 && sel[|sel| - 1] != i {
      assert forall k | 0 <= k < |sel| - 1 :: sel[k] < sel[|sel| - 1];
    }
  }

  /** After the pass for node i the table dominates every selection among the first i + 1
      nodes, given that it dominated those among the first i, that no entry lost money, and
      that every old entry was extended by node i. */
  lemma PassDominates(nodes: seq<BankNode>, i: nat, before: map<int, Haul>, after: map<int, Haul>)
    requires i < |nodes| && Dominates(nodes, before, i)
    requires Raises(before, after)
    requires forall c | c in before ::
      c + nodes[i].clients in after && after[c + nodes[i].clients].money >= before[c].money + nodes[i].amount
    ensures Dominates(nodes, after, i + 1)
  {
    forall sel | Selection(sel, i + 1)
      ensures ClientSum(nodes, sel) in after && after[ClientSum(nodes, sel)].money >= MoneySum(nodes, sel)
    {
      Unextend(sel, i);
      if |sel| > 0 && sel[|sel| - 1] == i {
        var p := sel[..|sel| - 1];
        assert ClientSum(nodes, p) in before;
      } else {
        assert ClientSum(nodes, sel) in before;
      }
    }
  }

  /** The first t snapshot entries, each extended by node, are matched or beaten in next. */
  predicate Covers(snap: seq<(int, Haul)>, t: nat, next: map<int, Haul>, node: BankNode)
    requires t <= |snap|
  {
    forall u | 0 <= u < t ::
      snap[u].0 + node.clients in next && next[snap[u].0 + node.clients].money >= snap[u].1.money + node.amount
  }

  /** Raising entries keeps what was covered, and covering entry t extends the prefix. */
  lemma CoversStep(snap: seq<(int, Haul)>, t: nat, prev: map<int, Haul>, next: map<int, Haul>, node: BankNode)
    requires t < |snap| && Covers(snap, t, prev, node)
    requires Raises(prev, next)
    requires snap[t].0 + node.clients in next && next[snap[t].0 + node.clients].money >= snap[t].1.money + node.amount
    ensures Covers(snap, t + 1, next, node)
  {
  }

  /** No entry of before is missing from after or holds less money there. */
  predicate Raises(before: map<int, Haul>, after: map<int, Haul>)
  {
    forall c | c in before :: c in after && after[c].money >= before[c].money
  }

  /** Raising one entry of the middle table keeps the raise over the first. */
  lemma RaisesTrans(first: map<int, Haul>, middle: map<int, Haul>, last: map<int, Haul>, c: int, h: Haul)
    requires Raises(first, middle)
    requires last == middle[c := h] && (c !in middle || middle[c].money < h.money)
    ensures Raises(first, last)
  {
  }

  /** Raising one entry of a table raises the table. */
  lemma RaisesUpdate(prev: map<int, Haul>, c: int, h: Haul)
    requires c !in prev || prev[c].money < h.money
    ensures Raises(prev, prev[c := h])
  {
  }

  /** Recording a new best combination keeps the table listed and witnessed. */
  lemma Adopt(nodes: seq<BankNode>, n: nat, states: map<int, Haul>, order: seq<int>, picks: map<int, seq<nat>>,
              c: int, h: Haul, p: seq<nat>)
    requires n <= |nodes| && Listed(states, order) && Witnessed(nodes, states, picks, n)
    requires Selection(p, n) && ClientSum(nodes, p) == c && MoneySum(nodes, p) == h.money && IpsOf(nodes, p) == h.ips
    ensures Listed(states[c := h], if c in states then order else order + [c])
    ensures Witnessed(nodes, states[c := h], picks[c := p], n)
  {
  }

  /** One pass of the outer loop: every combination already in the table, as it stood when
      the pass began, is tried with node i added; a combination is kept when its client
      count is new or it carries more money than the entry there. */
  method Pass(nodes: seq<BankNode>, i: nat, states: map<int, Haul>, order: seq<int>, ghost picks: map<int, seq<nat>>)
    returns (next: map<int, Haul>, nextOrder: seq<int>, ghost nextPicks: map<int, seq<nat>>)
    requires i < |nodes| && Listed(states, order)
    requires Witnessed(nodes, states, picks, i) && Dominates(nodes, states, i)
    ensures Listed(next, nextOrder)
    ensures Witnessed(nodes, next, nextPicks, i + 1) && Dominates(nodes, next, i + 1)
    ensures Raises(states, next)
  {
    ListedInOrder(states, order);
    var snap := seq(|order|, u requires 0 <= u < |order| && order[u] in states => (order[u], states[order[u]]));
    Snapshot(nodes, i, states, order, picks, snap);
    ghost var winners;
    next, nextOrder, nextPicks, winners := Sweep(nodes, i, snap, states, order, picks);
    PassEnd(nodes, i, states, order, snap, next);
  }

  lemma ListedInOrder(states: map<int, Haul>, order: seq<int>)
    requires Listed(states, order)
    ensures forall u | 0 <= u < |order| :: order[u] in states
  {
    forall u | 0 <= u < |order|
      ensures order[u] in states
    {
      assert order[u] in order;
    }
  }

  /** The snapshot a pass starts from: the table's entries in key order. */
  predicate SnapshotOf(states: map<int, Haul>, order: seq<int>, snap: seq<(int, Haul)>)
  {
    |snap| == |order| && forall u | 0 <= u < |order| :: order[u] in states && snap[u] == (order[u], states[order[u]])
  }

  /** At the start of a pass every snapshot entry is backed by its recorded selection, and the
      table already satisfies the inner loop's invariant. */
  lemma Snapshot(nodes: seq<BankNode>, i: nat, states: map<int, Haul>, order: seq<int>, picks: map<int, seq<nat>>,
                 snap: seq<(int, Haul)>)
    requires i < |nodes| && Listed(states, order) && Witnessed(nodes, states, picks, i)
    requires SnapshotOf(states, order, snap)
    ensures Backed(nodes, i, snap, picks)
    ensures SweepInvariant(nodes, i, snap, 0, states, states, order, picks)
  {
    forall c | c in states
      ensures Selection(picks[c], i + 1)
    {
    }
  }

  /** After the sweep, every entry of the old table has been extended by node i, so the
      table dominates the selections among the first i + 1 nodes. */
  lemma PassEnd(nodes: seq<BankNode>, i: nat, states: map<int, Haul>, order: seq<int>, snap: seq<(int, Haul)>,
                next: map<int, Haul>)
    requires i < |nodes| && Listed(states, order) && Dominates(nodes, states, i)
    requires SnapshotOf(states, order, snap)
    requires Raises(states, next) && Covers(snap, |snap|, next, nodes[i])
    ensures Dominates(nodes, next, i + 1)
  {
    forall c | c in states
      ensures c + nodes[i].clients in next && next[c + nodes[i].clients].money >= states[c].money + nodes[i].amount
    {
      var u :| 0 <= u < |order| && order[u] == c;
      assert snap[u].0 == c;
    }
    PassDominates(nodes, i, states, next);
  }

  /** The selection behind each snapshot entry, recorded in base, among the first i nodes. */
  ghost predicate Backed(nodes: seq<BankNode>, i: nat, snap: seq<(int, Haul)>, base: map<int, seq<nat>>)
    requires i <= |nodes|
  {
    forall u | 0 <= u < |snap| ::
      && snap[u].0 in base && Selection(base[snap[u].0], i)
      && ClientSum(nodes, base[snap[u].0]) == snap[u].0
      && MoneySum(nodes, base[snap[u].0]) == snap[u].1.money
      && IpsOf(nodes, base[snap[u].0]) == snap[u].1.ips
  }

  /** What the inner loop keeps after t snapshot entries. */
  ghost predicate SweepInvariant(nodes: seq<BankNode>, i: nat, snap: seq<(int, Haul)>, t: nat, states: map<int, Haul>,
                                 next: map<int, Haul>, nextOrder: seq<int>, nextPicks: map<int, seq<nat>>)
    requires i < |nodes| && t <= |snap|
  {
    && Listed(next, nextOrder) && Witnessed(nodes, next, nextPicks, i + 1)
    && Raises(states, next) && Covers(snap, t, next, nodes[i])
  }

  /** Recording entry t with node i added, when it beats the table, keeps the inner loop's
      invariant. */
  lemma SweepTake(nodes: seq<BankNode>, i: nat, snap: seq<(int, Haul)>, t: nat, states: map<int, Haul>,
                  base: map<int, seq<nat>>, prev: map<int, Haul>, prevOrder: seq<int>, prevPicks: map<int, seq<nat>>,
                  c: int, h: Haul)
    requires i < |nodes| && t < |snap| && Backed(nodes, i, snap, base)
    requires SweepInvariant(nodes, i, snap, t, states, prev, prevOrder, prevPicks)
    requires c == snap[t].0 + nodes[i].clients
    requires h == Haul(snap[t].1.money + nodes[i].amount, snap[t].1.ips + [nodes[i].ip])
    requires c !in prev || prev[c].money < h.money
    ensures SweepInvariant(nodes, i, snap, t + 1, states, prev[c := h],
      if c in prev then prevOrder else prevOrder + [c], prevPicks[c := base[snap[t].0] + [i]])
  {
    Extend(nodes, base[snap[t].0], i);
    Adopt(nodes, i + 1, prev, prevOrder, prevPicks, c, h, base[snap[t].0] + [i]);
    RaisesTrans(states, prev, prev[c := h], c, h);
    RaisesUpdate(prev, c, h);
    CoversStep(snap, t, prev, prev[c := h], nodes[i]);
  }

  /** Passing over entry t, when the table already holds as much, keeps the invariant. */
  lemma SweepSkip(nodes: seq<BankNode>, i: nat, snap: seq<(int, Haul)>, t: nat, states: map<int, Haul>,
                  prev: map<int, Haul>, prevOrder: seq<int>, prevPicks: map<int, seq<nat>>, c: int)
    requires i < |nodes| && t < |snap|
    requires SweepInvariant(nodes, i, snap, t, states, prev, prevOrder, prevPicks)
    requires c == snap[t].0 + nodes[i].clients && c in prev
    requires prev[c].money >= snap[t].1.money + nodes[i].amount
    ensures SweepInvariant(nodes, i, snap, t + 1, states, prev, prevOrder, prevPicks)
  {
    CoversStep(snap, t, prev, prev, nodes[i]);
  }

  /** The client count of snapshot entry u with node added. */
  function KeyOf(snap: seq<(int, Haul)>, u: nat, node: BankNode): int
    requires u < |snap|
  {
    snap[u].0 + node.clients
  }

  /** Snapshot entry u with node added. */
  function Offer(snap: seq<(int, Haul)>, u: nat, node: BankNode): Haul
    requires u < |snap|
  {
    Haul(snap[u].1.money + node.amount, snap[u].1.ips + [node.ip])
  }

  /** Snapshot entry u, extended by node, is what next holds at key c: it beat the entry
      the table had there when the pass began, and every earlier snapshot entry with the
      same extended key carried strictly less money. */
  ghost predicate Wins(snap: seq<(int, Haul)>, u: nat, c: int, node: BankNode, states: map<int, Haul>,
                       next: map<int, Haul>)
    requires u < |snap| && c in next
  {
    && c == KeyOf(snap, u, node)
    && next[c] == Offer(snap, u, node)
    && (c in states ==> states[c].money < next[c].money)
    && (forall v | 0 <= v < u && KeyOf(snap, v, node) == c :: Offer(snap, v, node).money < next[c].money)
  }

  /** Every entry of next is either the table's entry as the pass found it, or the entry
      winners names among the first t snapshot entries: the first with the most money for
      its extended key, written because it was new or strictly richer. */
  ghost predicate Settled(snap: seq<(int, Haul)>, t: nat, states: map<int, Haul>, next: map<int, Haul>, node: BankNode,
                          winners: map<int, nat>)
    requires t <= |snap|
  {
    forall c | c in next ::
      || (c in states && next[c] == states[c])
      || (c in winners && winners[c] < t && Wins(snap, winners[c], c, node, states, next))
  }

  /** Entry t, written because it is new or strictly richer, wins its key. */
  lemma WinsWritten(snap: seq<(int, Haul)>, t: nat, states: map<int, Haul>, prev: map<int, Haul>, node: BankNode,
                    c: int, h: Haul)
    requires t < |snap| && Covers(snap, t, prev, node) && Raises(states, prev)
    requires c == snap[t].0 + node.clients
    requires h == Haul(snap[t].1.money + node.amount, snap[t].1.ips + [node.ip])
    requires c !in prev || prev[c].money < h.money
    ensures Wins(snap, t, c, node, states, prev[c := h])
  {
    forall v | 0 <= v < t && KeyOf(snap, v, node) == c
      ensures Offer(snap, v, node).money < h.money
    {
      assert c in prev;
    }
  }

  /** A win is kept while its entry is not overwritten. */
  lemma WinsKept(snap: seq<(int, Haul)>, u: nat, d: int, node: BankNode, states: map<int, Haul>,
                 prev: map<int, Haul>, next: map<int, Haul>)
    requires u < |snap| && d in prev && Wins(snap, u, d, node, states, prev)
    requires d in next && next[d] == prev[d]
    ensures Wins(snap, u, d, node, states, next)
  {
  }

  /** Writing entry t, when it is new or strictly richer, keeps every entry settled. */
  lemma SettledTake(snap: seq<(int, Haul)>, t: nat, states: map<int, Haul>, prev: map<int, Haul>, node: BankNode,
                    winners: map<int, nat>, c: int, h: Haul)
    requires t < |snap| && Settled(snap, t, states, prev, node, winners)
    requires Wins(snap, t, c, node, states, prev[c := h])
    ensures Settled(snap, t + 1, states, prev[c := h], node, winners[c := t])
  {
    var next := prev[c := h];
    forall d | d in next && d != c && !(d in states && next[d] == states[d])
      ensures Wins(snap, winners[d], d, node, states, next)
    {
      WinsKept(snap, winners[d], d, node, states, prev, next);
    }
  }

  /** Passing over entry t keeps every entry settled. */
  lemma SettledSkip(snap: seq<(int, Haul)>, t: nat, states: map<int, Haul>, next: map<int, Haul>, node: BankNode,
                    winners: map<int, nat>)
    requires t < |snap| && Settled(snap, t, states, next, node, winners)
    ensures Settled(snap, t + 1, states, next, node, winners)
  {
  }

  /** One step of the inner loop: snapshot entry t with node i added is written when its
      client count is new or it carries more money than the entry there. */
  method SweepStep(nodes: seq<BankNode>, i: nat, snap: seq<(int, Haul)>, t: nat, states: map<int, Haul>,
                   ghost base: map<int, seq<nat>>, prev: map<int, Haul>, prevOrder: seq<int>,
                   ghost prevPicks: map<int, seq<nat>>, ghost prevWinners: map<int, nat>)
    returns (next: map<int, Haul>, nextOrder: seq<int>, ghost nextPicks: map<int, seq<nat>>, ghost winners: map<int, nat>)
    requires i < |nodes| && t < |snap| && Backed(nodes, i, snap, base)
    requires SweepInvariant(nodes, i, snap, t, states, prev, prevOrder, prevPicks)
    requires Settled(snap, t, states, prev, nodes[i], prevWinners)
    ensures SweepInvariant(nodes, i, snap, t + 1, states, next, nextOrder, nextPicks)
    ensures Settled(snap, t + 1, states, next, nodes[i], winners)
  {
    var node := nodes[i];
    var k, h := snap[t].0, snap[t].1;
    var c := k + node.clients;
    var m := h.money + node.amount;
    if c !in prev || prev[c].money < m {
      var offer := Haul(m, h.ips + [node.ip]);
      SweepTake(nodes, i, snap, t, states, base, prev, prevOrder, prevPicks, c, offer);
      WinsWritten(snap, t, states, prev, node, c, offer);
      SettledTake(snap, t, states, prev, node, prevWinners, c, offer);
      nextOrder := if c !in prev then prevOrder + [c] else prevOrder;
      next := prev[c := offer];
      nextPicks := prevPicks[c := base[k] + [i]];
      winners := prevWinners[c := t];
    } else {
      SweepSkip(nodes, i, snap, t, states, prev, prevOrder, prevPicks, c);
      SettledSkip(snap, t, states, prev, node, prevWinners);
      next, nextOrder, nextPicks, winners := prev, prevOrder, prevPicks, prevWinners;
    }
  }

  /** The inner loop of a pass, over the snapshot of the table taken when the pass began;
      base records the selection behind each snapshot entry. */
  method Sweep(nodes: seq<BankNode>, i: nat, snap: seq<(int, Haul)>, states: map<int, Haul>, order: seq<int>,
               ghost base: map<int, seq<nat>>)
    returns (next: map<int, Haul>, nextOrder: seq<int>, ghost nextPicks: map<int, seq<nat>>, ghost winners: map<int, nat>)
    requires i < |nodes| && Backed(nodes, i, snap, base)
    requires SweepInvariant(nodes, i, snap, 0, states, states, order, base)
    ensures SweepInvariant(nodes, i, snap, |snap|, states, next, nextOrder, nextPicks)
    ensures Settled(snap, |snap|, states, next, nodes[i], winners)
  {
    next, nextOrder, nextPicks, winners := states, order, base, map[];
    var t := 0;
    while t < |snap|
      invariant 0 <= t <= |snap|
      invariant SweepInvariant(nodes, i, snap, t, states, next, nextOrder, nextPicks)
      invariant Settled(snap, t, states, next, nodes[i], winners)
    {
      next, nextOrder, nextPicks, winners := SweepStep(nodes, i, snap, t, states, base, next, nextOrder, nextPicks, winners);
      t := t + 1;
    }
  }

  /** The table after every node has had its pass, with its keys in insertion order. */
  method BuildStates(nodes: seq<BankNode>) returns (states: map<int, Haul>, order: seq<int>, ghost picks: map<int, seq<nat>>)
    ensures Listed(states, order)
    ensures Witnessed(nodes, states, picks, |nodes|)
    ensures Dominates(nodes, states, |nodes|)
  {
    states := map[0 := Haul(0, [])];
    order := [0];
    picks := map[0 := []];
    forall sel | Selection(sel, 0)
      ensures ClientSum(nodes, sel) in states && states[ClientSum(nodes, sel)].money >= MoneySum(nodes, sel)
    {
      SelectionSize(sel, 0);
    }
    var i := 0;
    while i < |nodes|
      invariant 0 <= i <= |nodes|
      invariant Listed(states, order)
      invariant Witnessed(nodes, states, picks, i) && Dominates(nodes, states, i)
    {
      states, order, picks := Pass(nodes, i, states, order, picks);
      i := i + 1;
    }
  }

  /** The Where/OrderBy/FirstOrDefault query: the smallest listed client count whose money
      reaches the goal. */
  function Cheapest(keys: seq<int>, states: map<int, Haul>, goal: int): (r: Option<int>)
    requires forall c | c in keys :: c in states
    ensures r.None? <==> forall c | c in keys :: states[c].money < goal
    ensures r.Some? ==> r.value in keys && r.value in states
    ensures r.Some? ==> states[r.value].money >= goal
    ensures r.Some? ==> forall c | c in keys && states[c].money >= goal :: r.value <= c
  {
    if |keys| == 0 then None
    else
      var rest := Cheapest(keys[1..], states, goal);
      var k := keys[0];
      assert forall c | c in keys :: c == k || c in keys[1..];
      if states[k].money < goal then rest
      else if rest.Some? && rest.value < k then rest
      else Some(k)
  }

  /** The success line of a plan. */
  function PlanReply(goal: int, ips: seq<string>, clients: int): (r: string)
    ensures |r| >= 3 && r[..3] == "RP "
  {
    "RP " + ("K dosazeni " + IntToString(goal) + " je treba vyloupit banky " + Join(", ", ips)
      + " a bude poskozeno jen " + IntToString(clients) + " klientu.")
  }

  /** CalculateOptimalKnapsackPlan: when no selection of the nodes reaches the goal, the
      plan fails; otherwise the plan names the nodes of a selection that reaches it, no
      selection that reaches it affects fewer clients, and no selection affecting as many
      clients carries more money. */
  method CalculateOptimalKnapsackPlan(nodes: seq<BankNode>, goal: int) returns (reply: string)
    ensures PlanFor(nodes, goal, reply)
  {
    var states, order, picks := BuildStates(nodes);
    var best := Cheapest(order, states, goal);
    if best.None? {
      NothingReaches(nodes, goal, states, order);
      return Insufficient;
    }
    var c := best.value;
    reply := PlanReply(goal, states[c].ips, c);
    CheapestIsPlan(nodes, goal, states, order, c, picks[c]);
  }

  /** When no listed entry reaches the goal, no selection does. */
  lemma NothingReaches(nodes: seq<BankNode>, goal: int, states: map<int, Haul>, order: seq<int>)
    requires Listed(states, order) && Dominates(nodes, states, |nodes|)
    requires forall c | c in order :: states[c].money < goal
    ensures PlanFor(nodes, goal, Insufficient)
  {
    forall sel | Selection(sel, |nodes|)
      ensures MoneySum(nodes, sel) < goal
    {
      assert ClientSum(nodes, sel) in order;
    }
  }

  /** The entry Cheapest picks is the plan: it is a selection reaching the goal, no selection
      reaching the goal affects fewer clients, and none affecting as many carries more money. */
  lemma CheapestIsPlan(nodes: seq<BankNode>, goal: int, states: map<int, Haul>, order: seq<int>, c: int, sel: seq<nat>)
    requires Listed(states, order) && Dominates(nodes, states, |nodes|)
    requires c in states && states[c].money >= goal
    requires forall k | k in order && states[k].money >= goal :: c <= k
    requires Selection(sel, |nodes|) && ClientSum(nodes, sel) == c
    requires MoneySum(nodes, sel) == states[c].money && IpsOf(nodes, sel) == states[c].ips
    ensures PlanFor(nodes, goal, PlanReply(goal, states[c].ips, c))
  {
    forall other | Selection(other, |nodes|) && MoneySum(nodes, other) >= goal
      ensures ClientSum(nodes, sel) <= ClientSum(nodes, other)
    {
      assert ClientSum(nodes, other) in order;
    }
    forall other | Selection(other, |nodes|) && ClientSum(nodes, other) == ClientSum(nodes, sel)
      ensures MoneySum(nodes, other) <= MoneySum(nodes, sel)
    {
      assert ClientSum(nodes, other) in states;
    }
    assert PlanReply(goal, states[c].ips, c) == PlanReply(goal, IpsOf(nodes, sel), ClientSum(nodes, sel));
  }

  /** ExtractValueFromResponse: the number in a two-piece reply "<prefix> <n>", or -1 for an
      empty reply, an error reply or anything else. */
  function ExtractValueFromResponse(response: string, prefix: string): (v: int)
    ensures v != -1 ==> !StartsWith(response, "ER")
    ensures v != -1 ==> exists text | ParseInt64(text) == Some(v) :: response == prefix + " " + text
  {
    if response == "" || StartsWith(response, "ER") then -1
    else
      var parts := Split(response, ' ');
      if |parts| == 2 && parts[0] == prefix then
        match ParseInt64(parts[1])
        case Some(v) =>
          JoinSplit(response, ' ');
          assert response == prefix + " " + parts[1];
          v
        case None => -1
      else -1
  }

  /** The value a node reports in its BA or BN reply is read back exactly. */
  lemma ExtractRoundTrip(prefix: string, n: int)
    requires |prefix| >= 2 && ' ' !in prefix && !StartsWith(prefix, "ER")
    requires Int64Min <= n <= Int64Max
    ensures ExtractValueFromResponse(prefix + " " + IntToString(n), prefix) == n
  {
    var response := prefix + " " + IntToString(n);
    assert response[..2] == prefix[..2];
    assert forall i | 0 <= i < |IntToString(n)| :: IntToString(n)[i] != ' ';
    SplitJoin([prefix, IntToString(n)], ' ');
    assert [' '] == " ";
    ParseInt64RoundTrip(n);
  }

  /** An error line never yields a value. */
  lemma ErrorLineHasNoValue(line: string, prefix: string)
    requires StartsWith(line, "ER")
    ensures ExtractValueFromResponse(line, prefix) == -1
  {
  }

  /** GetRemoteBankStats for a node reached on port: BA and BN are forwarded in turn; an
      address that does not parse, or an exception while forwarding, gives -1 for both. */
  function RemoteStats(ip: string, port: int, net: Network): BankNode
  {
    match ParseAddress(ip)
    case None => BankNode(ip, -1, -1)
    case Some(addr) =>
      var amount := Forward(addr, port, "BA", net);
      var clients := Forward(addr, port, "BN", net);
      if amount.Thrown? || clients.Thrown? then BankNode(ip, -1, -1)
      else BankNode(ip, ExtractValueFromResponse(amount.text, "BA"), ExtractValueFromResponse(clients.text, "BN"))
  }

  /** The stats a node must report to take part in a plan. */
  predicate Usable(node: BankNode)
  {
    node.amount > 0 && node.clients >= 0
  }

  /** The nodes CollectNetworkData keeps: the scanned addresses other than this node's own,
      with the stats fetched on the given ports, when those stats are usable. */
  function Admitted(ips: seq<string>, ports: seq<int>, ownIp: string, net: Network): (nodes: seq<BankNode>)
    requires |ports| == |ips|
    ensures forall k | 0 <= k < |nodes| :: Usable(nodes[k]) && nodes[k].ip in ips && nodes[k].ip != ownIp
  {
    if |ips| == 0 then []
    else
      var last := |ips| - 1;
      var earlier := Admitted(ips[..last], ports[..last], ownIp, net);
      var stats := RemoteStats(ips[last], ports[last], net);
      if ips[last] == ownIp || !Usable(stats) then earlier else earlier + [stats]
  }

  /** A prefix one longer is the prefix with the next element. */
  lemma PrefixSnoc(s: seq<string>, t: nat)
    requires t < |s|
    ensures s[..t + 1] == s[..t] + [s[t]]
  {
  }

  /** One more scanned address: it is kept when it is not this node and its stats are usable. */
  lemma AdmittedSnoc(ips: seq<string>, ports: seq<int>, ownIp: string, net: Network, ip: string, port: int)
    requires |ports| == |ips|
    ensures Admitted(ips + [ip], ports + [port], ownIp, net) ==
      if ip == ownIp || !Usable(RemoteStats(ip, port, net)) then Admitted(ips, ports, ownIp, net)
      else Admitted(ips, ports, ownIp, net) + [RemoteStats(ip, port, net)]
  {
    assert (ips + [ip])[..|ips|] == ips;
    assert (ports + [port])[..|ports|] == ports;
  }

  /** A port that FindPort could report for the address text ip (0 when it is no address). */
  predicate Discovered(ip: string, port: int, ranges: seq<(int, int)>, net: Network)
  {
    match ParseAddress(ip)
    case None => port == 0
    case Some(addr) =>
      && (port == 0 <==> forall p | p in PortsOf(ranges) :: CheckPort(addr, p, net) == 0)
      && (port != 0 ==> port in PortsOf(ranges) && CheckPort(addr, port, net) == port)
  }

  /** Every address of ips other than this node's own has a port FindPort could report. */
  ghost predicate AllDiscovered(ips: seq<string>, ports: seq<int>, ownIp: string, ranges: seq<(int, int)>, net: Network)
    requires |ports| == |ips|
  {
    forall k | 0 <= k < |ips| && ips[k] != ownIp :: Discovered(ips[k], ports[k], ranges, net)
  }

  lemma DiscoveredSnoc(ips: seq<string>, ports: seq<int>, ownIp: string, ranges: seq<(int, int)>, net: Network,
                       ip: string, port: int)
    requires |ports| == |ips| && AllDiscovered(ips, ports, ownIp, ranges, net)
    requires ip != ownIp ==> Discovered(ip, port, ranges, net)
    ensures AllDiscovered(ips + [ip], ports + [port], ownIp, ranges, net)
  {
    forall k | 0 <= k < |ips| + 1 && (ips + [ip])[k] != ownIp
      ensures Discovered((ips + [ip])[k], (ports + [port])[k], ranges, net)
    {
      if k < |ips| {
        assert (ips + [ip])[k] == ips[k] && (ports + [port])[k] == ports[k];
      }
    }
  }

  /** GetRemoteBankStats as written: the proxy comes from the bare constructor, so its port
      is 0 and no request is ever sent. */
  method GetRemoteBankStatsAsWritten(ip: string, net: Network) returns (node: BankNode)
    ensures node == RemoteStats(ip, 0, net)
  {
    var address := ParseAddress(ip);
    if address.None? {
      return BankNode(ip, -1, -1);
    }
    var proxy := new ProxyClient(address.value);
    var amount := proxy.ForwardRequest("BA", net);
    var clients := proxy.ForwardRequest("BN", net);
    if amount.Thrown? || clients.Thrown? {
      return BankNode(ip, -1, -1);
    }
    node := BankNode(ip, ExtractValueFromResponse(amount.text, "BA"), ExtractValueFromResponse(clients.text, "BN"));
  }

  /** GetRemoteBankStats with the proxy built by CreateClient, which looks for the port first. */
  method GetRemoteBankStats(ip: string, ranges: seq<(int, int)>, net: Network) returns (node: BankNode, port: int)
    ensures Discovered(ip, port, ranges, net)
    ensures node == RemoteStats(ip, port, net)
  {
    var address := ParseAddress(ip);
    if address.None? {
      return BankNode(ip, -1, -1), 0;
    }
    var proxy := ProxyClient.CreateClient(address.value, ranges, net);
    port := proxy.port;
    var amount := proxy.ForwardRequest("BA", net);
    var clients := proxy.ForwardRequest("BN", net);
    if amount.Thrown? || clients.Thrown? {
      return BankNode(ip, -1, -1), port;
    }
    node := BankNode(ip, ExtractValueFromResponse(amount.text, "BA"), ExtractValueFromResponse(clients.text, "BN"));
  }

  /** CollectNetworkData as written: the loop over the scanned addresses with the port-0 proxy. */
  method CollectNetworkDataAsWritten(scanned: seq<string>, ownIp: string, net: Network) returns (nodes: seq<BankNode>)
    ensures nodes == Admitted(scanned, seq(|scanned|, k => 0), ownIp, net)
  {
    nodes := [];
    var t := 0;
    while t < |scanned|
      invariant 0 <= t <= |scanned|
      invariant nodes == Admitted(scanned[..t], seq(t, k => 0), ownIp, net)
    {
      PrefixSnoc(scanned, t);
      assert seq(t + 1, k => 0) == seq(t, k => 0) + [0];
      AdmittedSnoc(scanned[..t], seq(t, k => 0), ownIp, net, scanned[t], 0);
      if scanned[t] != ownIp {
        var stats := GetRemoteBankStatsAsWritten(scanned[t], net);
        if Usable(stats) {
          nodes := nodes + [stats];
        }
      }
      t := t + 1;
    }
    assert scanned[..t] == scanned;
  }

  /** Without a port every forwarded request comes back as an error line, so no node is ever
      admitted and every robbery plan ends with "no other bank nodes were found". */
  lemma {:induction false} AsWrittenAdmitsNone(scanned: seq<string>, ownIp: string, net: Network)
    ensures Admitted(scanned, seq(|scanned|, k => 0), ownIp, net) == []
  {
    if |scanned| > 0 {
      var last := |scanned| - 1;
      assert seq(|scanned|, k => 0)[..last] == seq(last, k => 0);
      AsWrittenAdmitsNone(scanned[..last], ownIp, net);
      match ParseAddress(scanned[last])
      case None =>
      case Some(addr) =>
        var line := "ER " + "Unable to connect to " + FormatAddress(addr) + ". No open port found";
        assert StartsWith(line, "ER");
        ErrorLineHasNoValue(line, "BA");
    }
  }

  /** CollectNetworkData, corrected: each scanned node other than this one is reached through
      CreateClient, on the port it answers the handshake on. */
  method CollectNetworkData(scanned: seq<string>, ownIp: string, ranges: seq<(int, int)>, net: Network)
    returns (nodes: seq<BankNode>, ports: seq<int>)
    ensures |ports| == |scanned| && nodes == Admitted(scanned, ports, ownIp, net)
    ensures forall k | 0 <= k < |scanned| && scanned[k] != ownIp :: Discovered(scanned[k], ports[k], ranges, net)
  {
    nodes, ports := [], [];
    var t := 0;
    while t < |scanned|
      invariant 0 <= t <= |scanned| && |ports| == t
      invariant nodes == Admitted(scanned[..t], ports, ownIp, net)
      invariant AllDiscovered(scanned[..t], ports, ownIp, ranges, net)
    {
      PrefixSnoc(scanned, t);
      var port := 0;
      if scanned[t] != ownIp {
        var stats;
        stats, port := GetRemoteBankStats(scanned[t], ranges, net);
        if Usable(stats) {
          nodes := nodes + [stats];
        }
      }
      AdmittedSnoc(scanned[..t], ports, ownIp, net, scanned[t], port);
      DiscoveredSnoc(scanned[..t], ports, ownIp, ranges, net, scanned[t], port);
      ports := ports + [port];
      t := t + 1;
    }
    assert scanned[..t] == scanned;
  }

  /** A usable node among the scanned addresses, other than this node, is collected. */
  lemma {:induction false} AdmittedContains(ips: seq<string>, ports: seq<int>, ownIp: string, net: Network, k: nat)
    requires |ports| == |ips| && k < |ips| && ips[k] != ownIp
    requires Usable(RemoteStats(ips[k], ports[k], net))
    ensures RemoteStats(ips[k], ports[k], net) in Admitted(ips, ports, ownIp, net)
  {
    var last := |ips| - 1;
    var stats := RemoteStats(ips[k], ports[k], net);
    assert ips == ips[..last] + [ips[last]] && ports == ports[..last] + [ports[last]];
    AdmittedSnoc(ips[..last], ports[..last], ownIp, net, ips[last], ports[last]);
    if k < last {
      assert ips[..last][k] == ips[k] && ports[..last][k] == ports[k];
      AdmittedContains(ips[..last], ports[..last], ownIp, net, k);
      assert stats in Admitted(ips[..last], ports[..last], ownIp, net);
    }
  }

  /** A node reached on a port where it answers BA and BN with its figures reports them. */
  lemma StatsOfLiveNode(ip: string, addr: IPv4, port: int, net: Network, total: int, count: int)
    requires ParseAddress(ip) == Some(addr) && port != 0
    requires Int64Min <= total <= Int64Max && Int64Min <= count <= Int64Max
    requires net.exchange(addr, port, "BA") == Replied("BA " + IntToString(total))
    requires net.exchange(addr, port, "BN") == Replied("BN " + IntToString(count))
    ensures RemoteStats(ip, port, net) == BankNode(ip, total, count)
  {
    assert "BA" == ['B', 'A'] && "BN" == ['B', 'N'];
    assert "BA"[..2][0] == 'B' && "BN"[..2][0] == 'B' && "ER"[0] == 'E';
    assert "BA" + " " == "BA " && "BN" + " " == "BN ";
    assert "BA" + " " + IntToString(total) == "BA " + IntToString(total);
    assert "BN" + " " + IntToString(count) == "BN " + IntToString(count);
    ExtractRoundTrip("BA", total);
    ExtractRoundTrip("BN", count);
    assert Forward(addr, port, "BA", net) == Line("BA " + IntToString(total));
    assert Forward(addr, port, "BN", net) == Line("BN " + IntToString(count));
  }

  /** A live peer, one that answers the handshake on a candidate port and reports a
      positive total and a client count on any port, is among the collected nodes. */
  lemma LivePeerAdmitted(scanned: seq<string>, ports: seq<int>, ownIp: string, ranges: seq<(int, int)>,
                         net: Network, k: nat, addr: IPv4, p: int, total: int, count: int)
    requires |ports| == |scanned| && k < |scanned|
    requires forall j | 0 <= j < |scanned| && scanned[j] != ownIp :: Discovered(scanned[j], ports[j], ranges, net)
    requires scanned[k] != ownIp && ParseAddress(scanned[k]) == Some(addr)
    requires p != 0 && p in PortsOf(ranges) && net.handshake(addr, p) == Some("BC " + FormatAddress(addr))
    requires 0 < total <= Int64Max && 0 <= count <= Int64Max
    requires forall q :: net.exchange(addr, q, "BA") == Replied("BA " + IntToString(total))
    requires forall q :: net.exchange(addr, q, "BN") == Replied("BN " + IntToString(count))
    ensures BankNode(scanned[k], total, count) in Admitted(scanned, ports, ownIp, net)
  {
    assert Discovered(scanned[k], ports[k], ranges, net);
    CheckPortFindsNode(addr, p, net);
    assert ports[k] != 0;
    StatsOfLiveNode(scanned[k], addr, ports[k], net, total, count);
    AdmittedContains(scanned, ports, ownIp, net, k);
  }

  /** What CalculateOptimalKnapsackPlan promises about its reply for a set of nodes: the
      failure line when no selection reaches the goal; otherwise the reply for a selection
      that reaches it, affects no more clients than any selection that does, and carries as
      much money as any selection affecting the same number of clients. */
  ghost predicate PlanFor(nodes: seq<BankNode>, goal: int, reply: string)
  {
    && ((forall sel | Selection(sel, |nodes|) :: MoneySum(nodes, sel) < goal) ==> reply == Insufficient)
    && ((exists sel | Selection(sel, |nodes|) :: MoneySum(nodes, sel) >= goal) ==>
        exists best | Selection(best, |nodes|) ::
          && MoneySum(nodes, best) >= goal
          && (forall sel | Selection(sel, |nodes|) && MoneySum(nodes, sel) >= goal :: ClientSum(nodes, best) <= ClientSum(nodes, sel))
          && (forall sel | Selection(sel, |nodes|) && ClientSum(nodes, sel) == ClientSum(nodes, best) ::
                MoneySum(nodes, sel) <= MoneySum(nodes, best))
          && reply == PlanReply(goal, IpsOf(nodes, best), ClientSum(nodes, best)))
  }

  /** Both replies of a plan start with "RP ", so neither is the "no nodes" error line. */
  lemma PlanForIsPlanLine(nodes: seq<BankNode>, goal: int, reply: string)
    requires PlanFor(nodes, goal, reply)
    ensures |reply| >= 3 && reply[..3] == "RP "
    ensures reply != NoNodes
  {
    if exists sel | Selection(sel, |nodes|) :: MoneySum(nodes, sel) >= goal {
      var best :| Selection(best, |nodes|) && reply == PlanReply(goal, IpsOf(nodes, best), ClientSum(nodes, best));
    } else {
      assert reply == Insufficient;
    }
    assert NoNodes[..3] == "ER ";
  }

  /** ExecuteRobberyPlan as written: scan, collect the other nodes' stats through port-0
      proxies, and plan over them.  None: the scan failed on a range bound that is not an
      address (the exception reaches the RP handler).  Every node is dropped, so the reply
      is always "ER no other bank nodes were found" and the planner is never reached. */
  method ExecuteRobberyPlan(goal: int, ipRanges: seq<(string, string)>, alive: string -> bool, ownIp: string,
                            net: Network)
    returns (r: Option<string>)
    ensures r.None? <==> Probes(ipRanges).None?
    ensures r.Some? ==> r.value == NoNodes
  {
    var scanned := ScanNetwork(ipRanges, alive);
    if scanned.None? {
      return None;
    }
    var collected := CollectNetworkDataAsWritten(scanned.value, ownIp, net);
    AsWrittenAdmitsNone(scanned.value, ownIp, net);
    if |collected| != 0 {
      // CalculateOptimalKnapsackPlan would run here.
      assert false;
    }
    r := Some(NoNodes);
  }

  /** ExecuteRobberyPlan, corrected: the nodes are collected with CollectNetworkData, each on
      a port FindPort could report, and the optimal plan is made over the nodes admitted. */
  method ExecuteRobberyPlanCorrected(goal: int, ipRanges: seq<(string, string)>, alive: string -> bool, ownIp: string,
                                     portRanges: seq<(int, int)>, net: Network)
    returns (r: Option<string>, ghost nodes: seq<BankNode>)
    ensures r.None? <==> Probes(ipRanges).None?
    ensures r.Some? ==> CorrectedPlan(goal, Answered(Probes(ipRanges).value, alive), ownIp, portRanges, net, nodes, r.value)
  {
    var scanned := ScanNetwork(ipRanges, alive);
    if scanned.None? {
      return None, [];
    }
    var collected, ports := CollectNetworkData(scanned.value, ownIp, portRanges, net);
    assert AllDiscovered(scanned.value, ports, ownIp, portRanges, net);
    nodes := collected;
    if |collected| == 0 {
      return Some(NoNodes), nodes;
    }
    var reply := CalculateOptimalKnapsackPlan(collected, goal);
    r := Some(reply);
  }

  /** The corrected plan over the scanned addresses: the nodes are those admitted on ports
      FindPort could report for each other address; none gives the "no nodes" line, and
      otherwise the reply is the optimal plan over them. */
  ghost predicate CorrectedPlan(goal: int, scanned: seq<string>, ownIp: string, portRanges: seq<(int, int)>,
                                net: Network, nodes: seq<BankNode>, reply: string)
  {
    && (exists ports | |ports| == |scanned| && AllDiscovered(scanned, ports, ownIp, portRanges, net) ::
          nodes == Admitted(scanned, ports, ownIp, net))
    && (nodes == [] ==> reply == NoNodes)
    && (nodes != [] ==> PlanFor(nodes, goal, reply))
  }

  /** With the correction, a scanned live peer (one that identifies itself on a candidate
      port and reports a positive total) is planned over, so the reply is a plan line and
      not "ER no other bank nodes were found". */
  lemma CorrectedPlanSeesLivePeer(goal: int, scanned: seq<string>, ownIp: string, portRanges: seq<(int, int)>,
                                  net: Network, nodes: seq<BankNode>, reply: string,
                                  k: nat, addr: IPv4, p: int, total: int, count: int)
    requires CorrectedPlan(goal, scanned, ownIp, portRanges, net, nodes, reply)
    requires k < |scanned| && scanned[k] != ownIp && ParseAddress(scanned[k]) == Some(addr)
    requires p != 0 && p in PortsOf(portRanges) && net.handshake(addr, p) == Some("BC " + FormatAddress(addr))
    requires 0 < total <= Int64Max && 0 <= count <= Int64Max
    requires forall q :: net.exchange(addr, q, "BA") == Replied("BA " + IntToString(total))
    requires forall q :: net.exchange(addr, q, "BN") == Replied("BN " + IntToString(count))
    ensures BankNode(scanned[k], total, count) in nodes
    ensures reply != NoNodes
  {
    var ports :| |ports| == |scanned| && AllDiscovered(scanned, ports, ownIp, portRanges, net)
      && nodes == Admitted(scanned, ports, ownIp, net);
    LivePeerAdmitted(scanned, ports, ownIp, portRanges, net, k, addr, p, total, count);
    PlanForIsPlanLine(nodes, goal, reply);
  }
}
