/**
  The banking manager: the operations behind the protocol verbs, each turning an
  outcome of the account store into the response line the node sends back.
  The manager reads the account through the store and then changes its balance
  itself, through the Balance setter.  An exception (KeyNotFound from the store,
  ArgumentException from a setter) is not turned into a response here; it is
  returned as Raised.
*/
module Banking {
  import opened Wrappers
  import opened Numerals
  import opened Accounts
  import opened Ledger
  import opened Repository

  datatype Answer = Reply(text: string) | Raised(fault: Fault)

  /** The balance of account n in a ledger, when it exists. */
  function BalanceOf(s: seq<Entry>, n: int): (r: Option<int>)
    ensures r.None? <==> n !in Numbers(s)
    ensures r.Some? ==> exists i | 0 <= i < |s| :: s[i] == Entry(n, r.value)
  {
    match Find(s, n)
    case Some(i) => Some(s[i].balance)
    case None => None
  }

  class BankingManager {
    const repository: BankRepository
    /** The node's own address, as configured. */
    const ip: string

    constructor (repository: BankRepository, ip: string)
      ensures this.repository == repository && this.ip == ip
    {
      this.repository := repository;
      this.ip := ip;
    }

    ghost predicate Valid()
      reads this, repository, repository.accounts
    {
      repository.Valid()
    }

    /** BC: the bank code is the node's address. */
    method GetBankCode() returns (reply: string)
      ensures reply == "BC " + ip
    {
      reply := "BC " + ip;
    }

    /** AC: opens an account and answers with its number and this node's address. */
    method CreateAccount() returns (reply: string, ghost n: int)
      requires Valid() && |repository.accounts| < Capacity
      modifies repository
      ensures Valid()
      ensures ValidNumber(n) && n !in Numbers(old(repository.Entries()))
      ensures repository.Entries() == old(repository.Entries()) + [Entry(n, 0)]
      ensures reply == "AC " + IntToString(n) + "/" + ip
    {
      var number := repository.CreateAccount();
      n := number;
      reply := "AC " + IntToString(number) + "/" + ip;
    }

    /** AD: adds amount to the balance.  A missing account raises KeyNotFound (the
        "Account not found" answer is never produced); a sum below zero is refused by
        the setter. */
    method Deposit(accNum: int, amount: int) returns (a: Answer)
      requires Valid()
      modifies repository.accounts
      ensures Valid()
      ensures BalanceOf(old(repository.Entries()), accNum).None? ==> a == Raised(KeyNotFound)
      ensures BalanceOf(old(repository.Entries()), accNum).Some? ==>
        a == (if BalanceOf(old(repository.Entries()), accNum).value + amount >= 0 then Reply("AD") else Raised(InvalidArgument))
      ensures a == Reply("AD") ==> repository.Entries() == Credit(old(repository.Entries()), accNum, amount)
      ensures a != Reply("AD") ==> repository.Entries() == old(repository.Entries())
    {
      ghost var before := old(repository.Entries());
      var found := repository.GetBankAccount(accNum);
      if found.None? {
        return Raised(KeyNotFound);
      }
      var account := found.value;
      var k := repository.IndexOfAccount(account);
      var ok := repository.AddToBalance(k, accNum, amount, old(repository.Entries()));
      if !ok {
        return Raised(InvalidArgument);
      }
      a := Reply("AD");
    }

    /** AW: refuses when the balance is below amount, otherwise takes amount away. */
    method Withdraw(accNum: int, amount: int) returns (a: Answer)
      requires Valid()
      modifies repository.accounts
      ensures Valid()
      ensures BalanceOf(old(repository.Entries()), accNum).None? ==>
        a == Raised(KeyNotFound) && repository.Entries() == old(repository.Entries())
      ensures BalanceOf(old(repository.Entries()), accNum).Some? &&
              BalanceOf(old(repository.Entries()), accNum).value < amount ==>
        a == Reply("ER AW: failed insufficient funds") && repository.Entries() == old(repository.Entries())
      ensures BalanceOf(old(repository.Entries()), accNum).Some? &&
              BalanceOf(old(repository.Entries()), accNum).value >= amount ==>
        a == Reply("AW") && repository.Entries() == Credit(old(repository.Entries()), accNum, -amount)
    {
      var found := repository.GetBankAccount(accNum);
      if found.None? {
        return Raised(KeyNotFound);
      }
      var account := found.value;
      var k := repository.IndexOfAccount(account);
      if account.balance < amount {
        return Reply("ER AW: failed insufficient funds");
      }
      var delta := -amount;
      var ok := repository.AddToBalance(k, accNum, delta, old(repository.Entries()));
      CreditNegated(old(repository.Entries()), accNum, delta, amount);
      a := Reply("AW");
    }

    /** AB: the balance of the account. */
    method GetBalance(accNum: int) returns (a: Answer)
      ensures BalanceOf(repository.Entries(), accNum).None? ==> a == Raised(KeyNotFound)
      ensures BalanceOf(repository.Entries(), accNum).Some? ==>
        a == Reply("AB " + IntToString(BalanceOf(repository.Entries(), accNum).value))
    {
      var found := repository.GetBankAccount(accNum);
      if found.None? {
        return Raised(KeyNotFound);
      }
      var k := repository.IndexOfAccount(found.value);
      a := Reply("AB " + IntToString(found.value.balance));
    }

    /** AR: only an account with balance 0 (not above it) is deleted. */
    method RemoveAccount(accNum: int) returns (a: Answer)
      requires Valid()
      modifies repository
      ensures Valid()
      ensures BalanceOf(old(repository.Entries()), accNum).None? ==> a == Raised(KeyNotFound)
      ensures BalanceOf(old(repository.Entries()), accNum).Some? ==>
        a == Reply(if BalanceOf(old(repository.Entries()), accNum).value > 0 then "ER AR Failed: Balance must be 0" else "AR")
      ensures repository.Entries() == (if a == Reply("AR") then Remove(old(repository.Entries()), accNum) else old(repository.Entries()))
    {
      var found := repository.GetBankAccount(accNum);
      if found.None? {
        return Raised(KeyNotFound);
      }
      var k := repository.IndexOfAccount(found.value);
      if found.value.balance > 0 {
        return Reply("ER AR Failed: Balance must be 0");
      }
      var s := repository.DeleteAccount(accNum);
      a := Reply("AR");
    }

    /** BA: the sum of all balances. */
    method GetTotalAmount() returns (reply: string)
      requires Valid()
      ensures reply == "BA " + IntToString(Total(repository.Entries()))
      ensures Total(repository.Entries()) >= 0
    {
      var accounts := repository.GetAllAccounts();
      TotalNonNegative(repository.Entries());
      reply := "BA " + IntToString(Total(repository.Entries()));
    }

    /** BN: the number of accounts, one client each. */
    method GetClientCount() returns (reply: string)
      ensures reply == "BN " + IntToString(|repository.Entries()|)
    {
      var accounts := repository.GetAllAccounts();
      reply := "BN " + IntToString(|accounts|);
    }
  }
}
