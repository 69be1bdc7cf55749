/**
  The ledger as a value: the list of (account number, balance) pairs that the
  repository's account objects hold, in list order.  The repository's methods
  are specified by the functions here, and the lemmas say what those functions
  preserve (distinct numbers in range, non-negative balances) and how they move
  the bank's total and its client count.
*/
module Ledger {
  import opened Wrappers
  import opened Accounts

  datatype Entry = Entry(number: int, balance: int)

  /** The maximum number of accounts: every number in 10000..99999 taken. */
  const Capacity: int := MaxAccountNumber - MinAccountNumber + 1

  function Numbers(s: seq<Entry>): set<int>
  {
    set i | 0 <= i < |s| :: s[i].number
  }

  predicate DistinctNumbers(s: seq<Entry>)
  {
    forall i, j | 0 <= i < j < |s| :: s[i].number != s[j].number
  }

  /** The repository's invariant: unique numbers, each in range, no negative balance. */
  predicate WellFormed(s: seq<Entry>)
  {
    && DistinctNumbers(s)
    && forall i | 0 <= i < |s| :: ValidNumber(s[i].number) && s[i].balance >= 0
  }

  /** FirstOrDefault(a => a.AccountNumber == n), as a position. */
  function Find(s: seq<Entry>, n: int): (r: Option<nat>)
    ensures r.Some? ==> r.value < |s| && s[r.value].number == n
    ensures r.Some? ==> forall j | 0 <= j < r.value :: s[j].number != n
    ensures r.None? <==> n !in Numbers(s)
  {
    if |s| == 0 then None
    else if s[0].number == n then Some(0)
    else match Find(s[1..], n)
      case Some(i) => Some(i + 1)
      case None => None
  }

  /** Adds delta to the balance of account n; every other entry is left as it is. */
  function Credit(s: seq<Entry>, n: int, delta: int): seq<Entry>
  {
    seq(|s|, i requires 0 <= i < |s| => if s[i].number == n then Entry(n, s[i].balance + delta) else s[i])
  }

  /** A withdrawal is a credit of the negated amount, whichever way the negation is written. */
  lemma CreditNegated(s: seq<Entry>, n: int, delta: int, amount: int)
    requires delta == -amount
    ensures Credit(s, n, delta) == Credit(s, n, -amount)
  {
  }

  /** List.Remove of the first account numbered n; no change when there is none. */
  function Remove(s: seq<Entry>, n: int): seq<Entry>
  {
    match Find(s, n)
    case Some(i) => s[..i] + s[i + 1..]
    case None => s
  }

  /** The sum of all balances (the BA figure). */
  function Total(s: seq<Entry>): int
  {
    if |s| == 0 then 0 else s[0].balance + Total(s[1..])
  }

  lemma {:induction false} TotalAppend(a: seq<Entry>, b: seq<Entry>)
    ensures Total(a + b) == Total(a) + Total(b)
  {
    if |a| > 0 {
      assert (a + b)[1..] == a[1..] + b;
      TotalAppend(a[1..], b);
    } else {
      assert a + b == b;
    }
  }

  lemma {:induction false} TotalNonNegative(s: seq<Entry>)
    requires forall i | 0 <= i < |s| :: s[i].balance >= 0
    ensures Total(s) >= 0
  {
    if |s| > 0 {
      TotalNonNegative(s[1..]);
    }
  }

  /** Crediting one account moves the bank's total by exactly delta. */
  lemma {:induction false} TotalCredit(s: seq<Entry>, n: int, delta: int)
    requires DistinctNumbers(s) && n in Numbers(s)
    ensures Total(Credit(s, n, delta)) == Total(s) + delta
  {
    var c := Credit(s, n, delta);
    assert c[1..] == Credit(s[1..], n, delta);
    if s[0].number == n {
      forall i | 0 <= i < |s[1..]| ensures s[1..][i].number != n {
        assert s[1..][i] == s[i + 1];
      }
      assert Credit(s[1..], n, delta) == s[1..];
    } else {
      var k :| 0 <= k < |s| && s[k].number == n;
      assert s[1..][k - 1].number == n;
      TotalCredit(s[1..], n, delta);
    }
  }

  /** Removing an account takes its balance out of the total and one client out of the count. */
  lemma TotalRemove(s: seq<Entry>, n: int, i: nat)
    requires Find(s, n) == Some(i)
    ensures Total(Remove(s, n)) == Total(s) - s[i].balance
    ensures |Remove(s, n)| == |s| - 1
  {
    assert s == s[..i] + [s[i]] + s[i + 1..];
    TotalAppend(s[..i] + [s[i]], s[i + 1..]);
    TotalAppend(s[..i], [s[i]]);
    TotalAppend(s[..i], s[i + 1..]);
  }

  /** A deposit followed by a withdrawal of the same amount leaves the ledger as it was. */
  lemma CreditUndo(s: seq<Entry>, n: int, delta: int)
    ensures Credit(Credit(s, n, delta), n, -delta) == s
  {
  }

  /** Crediting keeps the numbers, and keeps the invariant when the new balance is not negative. */
  lemma CreditWellFormed(s: seq<Entry>, n: int, delta: int, i: nat)
    requires WellFormed(s) && Find(s, n) == Some(i) && s[i].balance + delta >= 0
    ensures WellFormed(Credit(s, n, delta))
    ensures Numbers(Credit(s, n, delta)) == Numbers(s)
  {
    var c := Credit(s, n, delta);
    forall x | x in Numbers(s) ensures x in Numbers(c) {
      var k :| 0 <= k < |s| && s[k].number == x;
      assert c[k].number == x;
    }
    forall k | 0 <= k < |c| ensures c[k].balance >= 0 {
      if s[k].number == n {
        assert k == i;
      }
    }
  }

  /** Removing keeps the invariant and takes exactly n out of the numbers in use. */
  lemma RemoveWellFormed(s: seq<Entry>, n: int, i: nat)
    requires WellFormed(s) && Find(s, n) == Some(i)
    ensures WellFormed(Remove(s, n))
    ensures Numbers(Remove(s, n)) == Numbers(s) - {n}
  {
    var r := Remove(s, n);
    assert forall k | 0 <= k < |r| :: r[k] == if k < i then s[k] else s[k + 1];
    RemoveNumbers(s, n, i);
  }

  lemma RemoveNumbers(s: seq<Entry>, n: int, i: nat)
    requires DistinctNumbers(s) && Find(s, n) == Some(i)
    ensures Numbers(Remove(s, n)) == Numbers(s) - {n}
  {
    var r := Remove(s, n);
    assert forall k | 0 <= k < |r| :: r[k] == if k < i then s[k] else s[k + 1];
    forall x | x in Numbers(s) - {n} ensures x in Numbers(r) {
      var k :| 0 <= k < |s| && s[k].number == x;
      if k < i {
        assert r[k].number == x;
      } else {
        assert k != i;
        assert r[k - 1].number == x;
      }
    }
    forall x | x in Numbers(r) ensures x in Numbers(s) - {n} {
      var k :| 0 <= k < |r| && r[k].number == x;
      if k < i {
        assert s[k].number == x && k != i;
      } else {
        assert s[k + 1].number == x && k + 1 != i;
      }
    }
  }

  /** Appending a new account under an unused, in-range number with balance 0 keeps the
      invariant, adds one client and leaves the total unchanged. */
  lemma OpenWellFormed(s: seq<Entry>, n: int)
    requires WellFormed(s) && ValidNumber(n) && n !in Numbers(s)
    ensures WellFormed(s + [Entry(n, 0)])
    ensures Numbers(s + [Entry(n, 0)]) == Numbers(s) + {n}
    ensures Total(s + [Entry(n, 0)]) == Total(s)
  {
    var t := s + [Entry(n, 0)];
    forall i, j | 0 <= i < j < |t| ensures t[i].number != t[j].number {
      if j == |s| {
        assert t[i].number in Numbers(s);
      }
    }
    forall x | x in Numbers(s) ensures x in Numbers(t) {
      var k :| 0 <= k < |s| && s[k].number == x;
      assert t[k].number == x;
    }
    assert t[|s|].number == n;
    TotalAppend(s, [Entry(n, 0)]);
    assert Total([Entry(n, 0)]) == 0;
  }

  /** The set {lo, ..., hi - 1}. */
  function NumberRange(lo: int, hi: int): (r: set<int>)
    ensures forall x | x in r :: lo <= x < hi
    decreases hi - lo
  {
    if lo >= hi then {} else NumberRange(lo, hi - 1) + {hi - 1}
  }

  lemma {:induction false} NumberRangeSize(lo: int, hi: int)
    requires lo <= hi
    ensures |NumberRange(lo, hi)| == hi - lo
    decreases hi - lo
  {
    if lo < hi {
      NumberRangeSize(lo, hi - 1);
      assert hi - 1 !in NumberRange(lo, hi - 1);
    }
  }

  /** Fewer than hi - lo numbers cannot cover all of lo..hi-1. */
  lemma FreeInRange(used: set<int>, lo: int, hi: int)
    requires lo <= hi && |used| < hi - lo
    ensures exists n :: lo <= n < hi && n !in used
  {
    var all := NumberRange(lo, hi);
    NumberRangeSize(lo, hi);
    var taken := used * all;
    assert used == taken + (used - all);
    assert all == taken + (all - taken);
    var n :| n in all - taken;
  }

  lemma {:induction false} NumbersSize(s: seq<Entry>)
    requires DistinctNumbers(s)
    ensures |Numbers(s)| == |s|
  {
    if |s| > 0 {
      var t := s[..|s| - 1];
      NumbersSize(t);
      assert Numbers(s) == Numbers(t) + {s[|s| - 1].number};
      assert s[|s| - 1].number !in Numbers(t);
    }
  }

  /** While fewer than Capacity accounts exist, some in-range number is still free, so the
      retry loop that draws random account numbers has something to find. */
  lemma FreeNumberExists(s: seq<Entry>)
    requires WellFormed(s) && |s| < Capacity
    ensures exists n :: MinAccountNumber <= n <= MaxAccountNumber && n !in Numbers(s)
  {
    NumbersSize(s);
    FreeInRange(Numbers(s), MinAccountNumber, MaxAccountNumber + 1);
  }
}
