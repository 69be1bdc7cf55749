/**
  The in-memory account store: a list of BankAccount objects, changed in place.
  Its abstract value is the ledger of (number, balance) entries that the list
  holds, in list order; every method is stated against that ledger, and the
  invariant it keeps is Ledger.WellFormed (distinct numbers in range, no
  negative balance).  Persistence to accounts.json is not modelled.
*/
module Repository {
  import opened Wrappers
  import opened Accounts
  import opened Ledger

  /** The exceptions the store and the account setters raise. */
  datatype Fault = KeyNotFound | InvalidOperation | InvalidArgument

  /** A void operation either returns or raises one of the faults. */
  datatype Status = Done | Failed(fault: Fault)

  class BankRepository {
    var accounts: seq<BankAccount>

    /** The ledger the account objects currently hold. */
    function Entries(): (r: seq<Entry>)
      reads this, accounts
      ensures |r| == |accounts|
      ensures forall i | 0 <= i < |r| :: r[i] == Entry(accounts[i].number, accounts[i].balance)
    {
      seq(|accounts|, i reads this, accounts requires 0 <= i < |accounts| => Entry(accounts[i].number, accounts[i].balance))
    }

    ghost predicate Valid()
      reads this, accounts
    {
      WellFormed(Entries())
    }

    /** Distinct numbers make distinct objects: no account object is listed twice. */
    lemma NoAliasing(i: nat, j: nat)
      requires Valid() && i < j < |accounts|
      ensures accounts[i] != accounts[j]
    {
      assert Entries()[i].number != Entries()[j].number;
    }

    /** The k-th account object is listed nowhere else. */
    lemma Unshared(k: nat)
      requires Valid() && k < |accounts|
      ensures forall j | 0 <= j < |accounts| && j != k :: accounts[j] != accounts[k]
    {
      forall j | 0 <= j < |accounts| && j != k ensures accounts[j] != accounts[k] {
        if j < k { NoAliasing(j, k); } else { NoAliasing(k, j); }
      }
    }

    /** A store with no accounts (accounts.json absent or blank). */
    constructor ()
      ensures Valid() && Entries() == []
    {
      accounts := [];
    }

    /** FirstOrDefault(a => a.AccountNumber == n), as the position of the account. */
    method IndexOf(n: int) returns (r: Option<nat>)
      ensures r == Find(Entries(), n)
      ensures Entries() == old(Entries())
    {
      var i := 0;
      while i < |accounts|
        invariant 0 <= i <= |accounts|
        invariant forall j | 0 <= j < i :: accounts[j].number != n
      {
        if accounts[i].number == n {
          var f := Find(Entries(), n);
          assert Entries()[i].number == n;
          assert f.Some? && f.value == i;
          return Some(i);
        }
        i := i + 1;
      }
      assert n !in Numbers(Entries());
      r := None;
    }

    /** Draws numbers until one is unused, then appends a new account under it with balance 0.
        The draw is any unused number in 10000..99999; a full store would make the
        source's retry loop run for ever, so the store must not be full. */
    method CreateAccount() returns (n: int)
      requires Valid() && |accounts| < Capacity
      modifies this
      ensures Valid()
      ensures ValidNumber(n) && n !in Numbers(old(Entries()))
      ensures Entries() == old(Entries()) + [Entry(n, 0)]
    {
      FreeNumberExists(Entries());
      n :| MinAccountNumber <= n <= MaxAccountNumber && n !in Numbers(Entries());
      var created := NewAccount(n, 0);
      assert created.Made?;
      var before := Entries();
      accounts := accounts + [created.account];
      assert Entries() == before + [Entry(n, 0)];
      OpenWellFormed(before, n);
    }

    /** The account numbered n, or KeyNotFound (as None). */
    method GetBankAccount(n: int) returns (r: Option<BankAccount>)
      ensures r.None? <==> Find(Entries(), n).None?
      ensures r.Some? ==> r.value in accounts && r.value.number == n
      ensures r.Some? ==> Find(Entries(), n) == Some(IndexOfAccount(r.value))
      ensures Entries() == old(Entries())
    {
      var i := IndexOf(n);
      if i.None? {
        return None;
      }
      r := Some(accounts[i.value]);
      assert accounts[i.value] == r.value;
    }

    /** The position of an account object in the list. */
    function IndexOfAccount(a: BankAccount): (k: nat)
      reads this
      requires a in accounts
      ensures k < |accounts| && accounts[k] == a
      ensures forall j | 0 <= j < k :: accounts[j] != a
    {
      FirstIndex(accounts, a)
    }

    /** A copy of the list: the same account objects in the same order. */
    method GetAllAccounts() returns (copy: seq<BankAccount>)
      ensures copy == accounts
      ensures |copy| == |Entries()|
    {
      copy := accounts;
    }

    /** Removes the account numbered n, or raises KeyNotFound and changes nothing. */
    method DeleteAccount(n: int) returns (s: Status)
      requires Valid()
      modifies this
      ensures Valid()
      ensures s == (if n in Numbers(old(Entries())) then Done else Failed(KeyNotFound))
      ensures Entries() == Remove(old(Entries()), n)
      ensures forall a | a in accounts :: a in old(accounts)
    {
      var i := IndexOf(n);
      if i.None? {
        return Failed(KeyNotFound);
      }
      var k := i.value;
      var before := Entries();
      accounts := accounts[..k] + accounts[k + 1..];
      assert Entries() == before[..k] + before[k + 1..];
      RemoveWellFormed(before, n, k);
      s := Done;
    }

    /** `Balance += delta` on the k-th account object: the setter takes a non-negative sum,
        and the ledger then differs from the old one only in that account's balance; a
        negative sum is refused (ArgumentException) and nothing changes. */
    method AddToBalance(k: nat, n: int, delta: int, ghost before: seq<Entry>) returns (ok: bool)
      requires Valid() && before == Entries()
      requires k < |accounts| && accounts[k].number == n
      modifies accounts[k]
      ensures Valid() && accounts == old(accounts)
      ensures ok <==> before[k].balance + delta >= 0
      ensures ok ==> Entries() == Credit(before, n, delta)
      ensures !ok ==> Entries() == before
    {
      var account := accounts[k];
      Unshared(k);
      ok := account.SetBalance(account.balance + delta);
      if !ok {
        assert Entries() == before;
        return;
      }
      assert OthersAsBefore(before, k) by {
        forall j | 0 <= j < |accounts| && j != k ensures Entries()[j] == before[j] {
          assert accounts[j] != account;
        }
      }
      Rebalanced(before, k, delta);
    }

    /** Adds amount to the balance of account n.  A missing account raises KeyNotFound; a
        sum below zero is refused by the Balance setter (ArgumentException); either way
        nothing changes. */
    method Deposit(n: int, amount: int) returns (s: Status)
      requires Valid()
      modifies accounts
      ensures Valid() && accounts == old(accounts)
      ensures n !in Numbers(old(Entries())) ==> s == Failed(KeyNotFound)
      ensures n in Numbers(old(Entries())) ==>
        s == (if old(Entries())[Find(old(Entries()), n).value].balance + amount >= 0 then Done else Failed(InvalidArgument))
      ensures Entries() == (if s.Done? then Credit(old(Entries()), n, amount) else old(Entries()))
    {
      var i := IndexOf(n);
      if i.None? {
        return Failed(KeyNotFound);
      }
      var k := i.value;
      var ok := AddToBalance(k, n, amount, old(Entries()));
      if !ok {
        return Failed(InvalidArgument);
      }
      s := Done;
    }

    /** Takes amount from the balance of account n.  A missing account raises KeyNotFound and
        a balance below amount raises InvalidOperation; either way nothing changes. */
    method Withdraw(n: int, amount: int) returns (s: Status)
      requires Valid()
      modifies accounts
      ensures Valid() && accounts == old(accounts)
      ensures n !in Numbers(old(Entries())) ==> s == Failed(KeyNotFound)
      ensures n in Numbers(old(Entries())) ==>
        s == (if old(Entries())[Find(old(Entries()), n).value].balance < amount then Failed(InvalidOperation) else Done)
      ensures Entries() == (if s.Done? then Credit(old(Entries()), n, -amount) else old(Entries()))
    {
      var i := IndexOf(n);
      if i.None? {
        return Failed(KeyNotFound);
      }
      var k := i.value;
      if accounts[k].balance < amount {
        return Failed(InvalidOperation);
      }
      var delta := -amount;
      var ok := AddToBalance(k, n, delta, old(Entries()));
      CreditNegated(old(Entries()), n, delta, amount);
      s := Done;
    }

    /** Every account but the k-th holds what the ledger before records for it. */
    ghost predicate OthersAsBefore(before: seq<Entry>, k: nat)
      reads this, accounts
    {
      |before| == |accounts| && forall j | 0 <= j < |accounts| && j != k :: Entries()[j] == before[j]
    }

    /** After the balance of the k-th account moved by delta, and nothing else changed, the
        ledger is the old one credited with delta at that account's number, and a move that
        keeps the balance non-negative keeps the store valid. */
    lemma Rebalanced(before: seq<Entry>, k: nat, delta: int)
      requires WellFormed(before) && k < |before| && OthersAsBefore(before, k)
      requires accounts[k].number == before[k].number && accounts[k].balance == before[k].balance + delta
      requires before[k].balance + delta >= 0
      ensures Entries() == Credit(before, before[k].number, delta) && Valid()
    {
      var n := before[k].number;
      assert n in Numbers(before);
      assert Find(before, n) == Some(k);
      CreditWellFormed(before, n, delta, k);
    }
  }

  /** The first position of x in s. */
  function FirstIndex<T(==)>(s: seq<T>, x: T): (k: nat)
    requires x in s
    ensures k < |s| && s[k] == x
    ensures forall j | 0 <= j < k :: s[j] != x
  {
    if s[0] == x then 0 else 1 + FirstIndex(s[1..], x)
  }
}
