/**
  A single bank account.  Its two properties are guarded setters: an account
  number outside 10000..99999 or a negative balance is refused with an
  ArgumentException before the field is written, so a refused assignment
  leaves the previous value in place.
*/
module Accounts {

  const MinAccountNumber: int := 10000
  const MaxAccountNumber: int := 99999

  predicate ValidNumber(n: int)
  {
    MinAccountNumber <= n <= MaxAccountNumber
  }

  /** Why an assignment or the two-argument constructor was refused. */
  datatype Refusal = NumberOutOfRange | NegativeBalance

  datatype Created = Made(account: BankAccount) | Refused(reason: Refusal)

  class BankAccount {
    var number: int
    var balance: int

    /** Both setter guards hold. */
    ghost predicate Valid()
      reads this
    {
      ValidNumber(number) && balance >= 0
    }

    /** The parameterless constructor kept for deserialisation: both fields at their defaults. */
    constructor ()
      ensures number == 0 && balance == 0
    {
      number := 0;
      balance := 0;
    }

    /** The AccountNumber setter. */
    method SetNumber(value: int) returns (ok: bool)
      modifies this
      ensures ok <==> ValidNumber(value)
      ensures number == (if ok then value else old(number))
      ensures balance == old(balance)
    {
      if value < MinAccountNumber || value > MaxAccountNumber {
        return false;
      }
      number := value;
      ok := true;
    }

    /** The Balance setter. */
    method SetBalance(value: int) returns (ok: bool)
      modifies this
      ensures ok <==> value >= 0
      ensures balance == (if ok then value else old(balance))
      ensures number == old(number)
    {
      if value < 0 {
        return false;
      }
      balance := value;
      ok := true;
    }
  }

  /** The constructor BankAccount(accountNumber, balance): the number is assigned
      first, then the balance, each through its setter; a refusal aborts the
      construction, so no account is produced. */
  method NewAccount(accountNumber: int, initialBalance: int) returns (r: Created)
    ensures r.Made? <==> ValidNumber(accountNumber) && initialBalance >= 0
    ensures r.Refused? ==> r.reason == if ValidNumber(accountNumber) then NegativeBalance else NumberOutOfRange
    ensures r.Made? ==> fresh(r.account) && r.account.Valid()
    ensures r.Made? ==> r.account.number == accountNumber && r.account.balance == initialBalance
  {
    var account := new BankAccount();
    var ok := account.SetNumber(accountNumber);
    if !ok {
      return Refused(NumberOutOfRange);
    }
    ok := account.SetBalance(initialBalance);
    if !ok {
      return Refused(NegativeBalance);
    }
    r := Made(account);
  }
}
