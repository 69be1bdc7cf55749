/**
  The protocol verbs.  Each handler checks its arguments, then either serves the
  request from this node's own accounts or, when the account argument names
  another node, relays the request line to that node through a proxy client and
  passes its answer on.

  A handler's effect is stated against the ledger before and after it: each verb
  has a predicate saying which response goes with which new ledger, and the
  handler method is proved to produce exactly that.  The node's configured
  address, the scan configuration and the remote side are an Environment.
*/
module Commands {
  import opened Wrappers
  import opened Text
  import opened Numerals
  import opened Accounts
  import opened Ledger
  import opened Repository
  import opened Banking
  import opened Parser
  import opened Scanner
  import opened Proxy
  import opened Robbery

  /** What running a handler gives: the one line it sends, an exception that leaves it,
      or no end at all (account creation on a full store retries for ever). */
  datatype HandlerResult = Responded(message: string) | Threw | Stuck

  /** The configured address of this node, the address ranges it scans, which scanned
      addresses answer the ping, the configured port ranges, and the other nodes. */
  datatype Environment = Environment(
    ownIp: string,
    ipRanges: seq<(string, string)>,
    alive: string -> bool,
    portRanges: seq<(int, int)>,
    net: Network)

  const InvalidDeposit: string := "ER AD Failed: Invalid arguments"
  const InvalidWithdrawal: string := "ER AW Failed: Invalid arguments"
  const InvalidBalance: string := "ER AB Failed: Invalid arguments"
  const InvalidRemoval: string := "ER AR Failed: Invalid arguments"
  const InvalidTarget: string := "ER RP Failed: Invalid target amount"
  const PlannerFailure: string := "ER RP Internal Error"

  /** The "number/address" account argument: a non-blank text with exactly one '/', whose
      first part is a 32-bit integer.  The address part is not checked. */
  function TryParseAccountArg(arg: string): (r: Option<(int, string)>)
    ensures r.Some? ==> Int32Min <= r.value.0 <= Int32Max && '/' !in r.value.1
  {
    if IsBlank(arg) then None
    else
      var parts := Split(arg, '/');
      if |parts| != 2 then None
      else
        match ParseInt32(parts[0])
        case None => None
        case Some(n) => Some((n, parts[1]))
  }

  /** An account argument is accepted, as (n, ip), exactly when it is the text of n, a slash
      and ip, with no other slash. */
  lemma AccountArgMeans(arg: string, n: int, ip: string)
    ensures TryParseAccountArg(arg) == Some((n, ip)) <==>
      exists digits | ParseInt32(digits) == Some(n) :: '/' !in digits && '/' !in ip && arg == digits + "/" + ip
  {
    assert "/" == ['/'];
    if TryParseAccountArg(arg) == Some((n, ip)) {
      var parts := Split(arg, '/');
      JoinSplit(arg, '/');
      assert arg == parts[0] + "/" + parts[1];
    }
    if exists digits | ParseInt32(digits) == Some(n) :: '/' !in digits && '/' !in ip && arg == digits + "/" + ip {
      var digits :| ParseInt32(digits) == Some(n) && '/' !in digits && '/' !in ip && arg == digits + "/" + ip;
      SplitAfterPiece(digits, '/', ip);
      SplitWithoutSeparator(ip, '/');
      assert Split(arg, '/') == [digits, ip];
      assert arg[0] == digits[0];
      ParsedLead(digits);
      SignOrDigitIsNotSpace(digits[0]);
    }
  }

  /** The account argument the node itself writes ("AC n/ip") is read back as (n, ip). */
  lemma AccountArgRoundTrip(n: int, ip: string)
    requires Int32Min <= n <= Int32Max && '/' !in ip
    ensures TryParseAccountArg(IntToString(n) + "/" + ip) == Some((n, ip))
  {
    ParseInt32RoundTrip(n);
    assert '/' !in IntToString(n);
    AccountArgMeans(IntToString(n) + "/" + ip, n, ip);
  }

  /** The AD and AW guard: at least three tokens, an account argument, and a positive
      64-bit amount; the request is then (account, address, amount). */
  function AmountRequest(args: seq<string>): (r: Option<(int, string, int)>)
    ensures r.None? <==>
      || |args| < 3
      || TryParseAccountArg(args[1]).None?
      || ParseInt64(args[2]).None?
      || ParseInt64(args[2]).value <= 0
    ensures r.Some? ==> TryParseAccountArg(args[1]) == Some((r.value.0, r.value.1)) && 0 < r.value.2 <= Int64Max
  {
    if |args| < 3 then None
    else
      match (TryParseAccountArg(args[1]), ParseInt64(args[2]))
      case (Some((n, ip)), Some(amount)) => if amount <= 0 then None else Some((n, ip, amount))
      case _ => None
  }

  /** The AB and AR guard: at least two tokens and an account argument. */
  function AccountRequest(args: seq<string>): (r: Option<(int, string)>)
    ensures r.None? <==> |args| < 2 || TryParseAccountArg(args[1]).None?
    ensures r.Some? ==> '/' !in r.value.1
  {
    if |args| < 2 then None else TryParseAccountArg(args[1])
  }

  /** The RP guard: a positive 64-bit target as the second token. */
  function TargetAmount(args: seq<string>): (r: Option<int>)
    ensures r.None? <==> |args| < 2 || ParseInt64(args[1]).None? || ParseInt64(args[1]).value <= 0
    ensures r.Some? ==> 0 < r.value <= Int64Max
  {
    if |args| < 2 then None
    else
      match ParseInt64(args[1])
      case Some(t) => if t <= 0 then None else Some(t)
      case None => None
  }

  /** A request the node writes for an account (AD/AW "verb n/ip amount") passes the guard
      with the same account, address and amount. */
  lemma AmountRequestRoundTrip(verb: string, n: int, ip: string, amount: int, rest: seq<string>)
    requires Int32Min <= n <= Int32Max && '/' !in ip && 0 < amount <= Int64Max
    ensures AmountRequest([verb, IntToString(n) + "/" + ip, IntToString(amount)] + rest) == Some((n, ip, amount))
  {
    var args := [verb, IntToString(n) + "/" + ip, IntToString(amount)] + rest;
    AccountArgRoundTrip(n, ip);
    ParseInt64RoundTrip(amount);
    assert args[1] == IntToString(n) + "/" + ip && args[2] == IntToString(amount);
  }

  /** A relayed request reaches the other node as the very token list it left this one
      with: joining the parsed tokens with single spaces and parsing again changes nothing. */
  lemma RelayPreservesRequest(args: seq<string>)
    requires Normalized(args)
    ensures Parse(Join(" ", args)) == Some(args)
  {
    assert [ToUpper(args[0])] + args[1..] == args;
    ParseJoin(args);
  }

  /** What a proxy delivery means to the handler: the line is sent on unchanged, and an
      exception leaves the handler. */
  function Delivered(d: Delivery): HandlerResult
  {
    match d
    case Line(text) => Responded(text)
    case Thrown => Threw
  }

  /** The remote path: the address is parsed (an unparsable one throws), a client is made
      that looks for the node's port, and the request line is forwarded on it. */
  ghost predicate Relayed(ip: string, request: string, env: Environment, res: HandlerResult)
  {
    match ParseAddress(ip)
    case None => res == Threw
    case Some(address) =>
      exists port | Discovered(ip, port, env.portRanges, env.net) ::
        res == Delivered(Forward(address, port, request, env.net))
  }

  /** The peer's line comes back to the client unchanged once its port is known. */
  lemma RelayedReplyUnchanged(ip: string, address: IPv4, port: int, request: string, env: Environment, line: string)
    requires ParseAddress(ip) == Some(address) && port != 0 && Discovered(ip, port, env.portRanges, env.net)
    requires env.net.exchange(address, port, request) == Replied(line)
    ensures Relayed(ip, request, env, Responded(line))
  {
  }

  method Relay(ip: string, args: seq<string>, env: Environment) returns (res: HandlerResult)
    ensures Relayed(ip, Join(" ", args), env, res)
  {
    var address := ParseAddress(ip);
    if address.None? {
      return Threw;
    }
    var proxy := ProxyClient.CreateClient(address.value, env.portRanges, env.net);
    var d := proxy.ForwardRequest(Join(" ", args), env.net);
    assert Discovered(ip, proxy.port, env.portRanges, env.net);
    res := Delivered(d);
  }

  // What each verb does: the response it gives for the ledger before, and the ledger after.

  ghost predicate BankCodeDone(bankIp: string, before: seq<Entry>, after: seq<Entry>, res: HandlerResult)
  {
    after == before && res == Responded("BC " + bankIp)
  }

  /** AC: a fresh number in range, opened with balance 0 and answered as "AC n/ip". */
  ghost predicate CreateDone(bankIp: string, before: seq<Entry>, after: seq<Entry>, res: HandlerResult)
  {
    if |before| >= Capacity then after == before && res == Stuck
    else
      exists n | ValidNumber(n) && n !in Numbers(before) ::
        after == before + [Entry(n, 0)] && res == Responded("AC " + IntToString(n) + "/" + bankIp)
  }

  ghost predicate DepositDone(args: seq<string>, env: Environment, before: seq<Entry>, after: seq<Entry>, res: HandlerResult)
  {
    match AmountRequest(args)
    case None => after == before && res == Responded(InvalidDeposit)
    case Some((n, ip, amount)) =>
      if ip == env.ownIp then
        match BalanceOf(before, n)
        case None => after == before && res == Threw
        case Some(_) => after == Credit(before, n, amount) && res == Responded("AD")
      else
        after == before && Relayed(ip, Join(" ", args), env, res)
  }

  ghost predicate WithdrawDone(args: seq<string>, env: Environment, before: seq<Entry>, after: seq<Entry>, res: HandlerResult)
  {
    match AmountRequest(args)
    case None => after == before && res == Responded(InvalidWithdrawal)
    case Some((n, ip, amount)) =>
      if ip == env.ownIp then
        match BalanceOf(before, n)
        case None => after == before && res == Threw
        case Some(balance) =>
          if balance < amount then after == before && res == Responded("ER AW: failed insufficient funds")
          else after == Credit(before, n, -amount) && res == Responded("AW")
      else
        after == before && Relayed(ip, Join(" ", args), env, res)
  }

  ghost predicate BalanceDone(args: seq<string>, env: Environment, before: seq<Entry>, after: seq<Entry>, res: HandlerResult)
  {
    after == before &&
    match AccountRequest(args)
    case None => res == Responded(InvalidBalance)
    case Some((n, ip)) =>
      if ip == env.ownIp then
        match BalanceOf(before, n)
        case None => res == Threw
        case Some(balance) => res == Responded("AB " + IntToString(balance))
      else
        Relayed(ip, Join(" ", args), env, res)
  }

  ghost predicate RemoveDone(args: seq<string>, env: Environment, before: seq<Entry>, after: seq<Entry>, res: HandlerResult)
  {
    match AccountRequest(args)
    case None => after == before && res == Responded(InvalidRemoval)
    case Some((n, ip)) =>
      if ip == env.ownIp then
        match BalanceOf(before, n)
        case None => after == before && res == Threw
        case Some(balance) =>
          if balance > 0 then after == before && res == Responded("ER AR Failed: Balance must be 0")
          else after == Remove(before, n) && res == Responded("AR")
      else
        after == before && Relayed(ip, Join(" ", args), env, res)
  }

  ghost predicate TotalDone(before: seq<Entry>, after: seq<Entry>, res: HandlerResult)
  {
    after == before && res == Responded("BA " + IntToString(Total(before)))
  }

  ghost predicate ClientsDone(before: seq<Entry>, after: seq<Entry>, res: HandlerResult)
  {
    after == before && res == Responded("BN " + IntToString(|before|))
  }

  /** RP as the program runs it: a bad target amount, a scan that throws, or (since every
      other node is dropped) the "no nodes" line. */
  ghost predicate RobberyDone(args: seq<string>, env: Environment, before: seq<Entry>, after: seq<Entry>, res: HandlerResult)
  {
    after == before &&
    match TargetAmount(args)
    case None => res == Responded(InvalidTarget)
    case Some(goal) =>
      res == Responded(if Probes(env.ipRanges).None? then PlannerFailure else NoNodes)
  }

  /** BC */
  method BankCode(manager: BankingManager) returns (res: HandlerResult)
    ensures BankCodeDone(manager.ip, manager.repository.Entries(), manager.repository.Entries(), res)
  {
    var reply := manager.GetBankCode();
    res := Responded(reply);
  }

  /** AC; on a full store the number search never ends, which the model reports as Stuck. */
  method AccountCreate(manager: BankingManager) returns (res: HandlerResult)
    requires manager.Valid()
    modifies manager.repository
    ensures manager.Valid()
    ensures CreateDone(manager.ip, old(manager.repository.Entries()), manager.repository.Entries(), res)
  {
    if |manager.repository.accounts| >= Capacity {
      return Stuck;
    }
    var reply, n := manager.CreateAccount();
    res := Responded(reply);
  }

  /** AD */
  method AccountDeposit(manager: BankingManager, env: Environment, args: seq<string>) returns (res: HandlerResult)
    requires manager.Valid()
    modifies manager.repository.accounts
    ensures manager.Valid()
    ensures DepositDone(args, env, old(manager.repository.Entries()), manager.repository.Entries(), res)
  {
    var request := AmountRequest(args);
    if request.None? {
      return Responded(InvalidDeposit);
    }
    var (n, ip, amount) := request.value;
    if ip == env.ownIp {
      var before := manager.repository.Entries();
      if BalanceOf(before, n).Some? {
        var i :| 0 <= i < |before| && before[i] == Entry(n, BalanceOf(before, n).value);
      }
      var a := manager.Deposit(n, amount);
      res := if a.Reply? then Responded(a.text) else Threw;
    } else {
      res := Relay(ip, args, env);
    }
  }

  /** AW */
  method AccountWithdrawal(manager: BankingManager, env: Environment, args: seq<string>) returns (res: HandlerResult)
    requires manager.Valid()
    modifies manager.repository.accounts
    ensures manager.Valid()
    ensures WithdrawDone(args, env, old(manager.repository.Entries()), manager.repository.Entries(), res)
  {
    var request := AmountRequest(args);
    if request.None? {
      return Responded(InvalidWithdrawal);
    }
    var (n, ip, amount) := request.value;
    if ip == env.ownIp {
      var a := manager.Withdraw(n, amount);
      res := if a.Reply? then Responded(a.text) else Threw;
    } else {
      res := Relay(ip, args, env);
    }
  }

  /** AB */
  method AccountBalance(manager: BankingManager, env: Environment, args: seq<string>) returns (res: HandlerResult)
    ensures BalanceDone(args, env, manager.repository.Entries(), manager.repository.Entries(), res)
  {
    var request := AccountRequest(args);
    if request.None? {
      return Responded(InvalidBalance);
    }
    var (n, ip) := request.value;
    if ip == env.ownIp {
      var a := manager.GetBalance(n);
      res := if a.Reply? then Responded(a.text) else Threw;
    } else {
      res := Relay(ip, args, env);
    }
  }

  /** AR */
  method AccountRemove(manager: BankingManager, env: Environment, args: seq<string>) returns (res: HandlerResult)
    requires manager.Valid()
    modifies manager.repository
    ensures manager.Valid()
    ensures RemoveDone(args, env, old(manager.repository.Entries()), manager.repository.Entries(), res)
  {
    var request := AccountRequest(args);
    if request.None? {
      return Responded(InvalidRemoval);
    }
    var (n, ip) := request.value;
    if ip == env.ownIp {
      var a := manager.RemoveAccount(n);
      res := if a.Reply? then Responded(a.text) else Threw;
    } else {
      res := Relay(ip, args, env);
    }
  }

  /** BA */
  method BankTotalAmount(manager: BankingManager) returns (res: HandlerResult)
    requires manager.Valid()
    ensures TotalDone(manager.repository.Entries(), manager.repository.Entries(), res)
  {
    var reply := manager.GetTotalAmount();
    res := Responded(reply);
  }

  /** BN */
  method BankClients(manager: BankingManager) returns (res: HandlerResult)
    ensures ClientsDone(manager.repository.Entries(), manager.repository.Entries(), res)
  {
    var reply := manager.GetClientCount();
    res := Responded(reply);
  }

  /** RP; a failure inside the planner (an unparsable scan address) is answered with an
      error line, and a scan that succeeds finds no usable node, so no plan is ever made. */
  method BankRobbery(env: Environment, args: seq<string>) returns (res: HandlerResult)
    ensures res.Responded?
    ensures TargetAmount(args).None? ==> res == Responded(InvalidTarget)
    ensures TargetAmount(args).Some? && Probes(env.ipRanges).None? ==> res == Responded(PlannerFailure)
    ensures TargetAmount(args).Some? && Probes(env.ipRanges).Some? ==> res == Responded(NoNodes)
  {
    var goal := TargetAmount(args);
    if goal.None? {
      return Responded(InvalidTarget);
    }
    var r := ExecuteRobberyPlan(goal.value, env.ipRanges, env.alive, env.ownIp, env.net);
    if r.None? {
      return Responded(PlannerFailure);
    }
    res := Responded(r.value);
  }

  /** A local deposit followed by a local withdrawal of the same amount from the same
      account gives "AD", then "AW", and leaves the ledger as it was. */
  lemma DepositThenWithdraw(
    deposit: seq<string>, withdrawal: seq<string>, env: Environment,
    s: seq<Entry>, t: seq<Entry>, u: seq<Entry>, r1: HandlerResult, r2: HandlerResult)
    requires WellFormed(s)
    requires AmountRequest(deposit).Some? && AmountRequest(deposit) == AmountRequest(withdrawal)
    requires AmountRequest(deposit).value.1 == env.ownIp
    requires BalanceOf(s, AmountRequest(deposit).value.0).Some?
    requires DepositDone(deposit, env, s, t, r1) && WithdrawDone(withdrawal, env, t, u, r2)
    ensures r1 == Responded("AD") && r2 == Responded("AW") && u == s
  {
    var (n, ip, amount) := AmountRequest(deposit).value;
    var i := Find(s, n).value;
    CreditFind(s, n, amount, i);
    CreditUndo(s, n, amount);
  }

  /** After a credit the account holds its old balance plus the amount. */
  lemma CreditFind(s: seq<Entry>, n: int, delta: int, i: nat)
    requires Find(s, n) == Some(i)
    ensures BalanceOf(Credit(s, n, delta), n) == Some(s[i].balance + delta)
  {
    var c := Credit(s, n, delta);
    assert forall j | 0 <= j < i :: c[j] == s[j];
    assert c[i].number == n;
    assert n in Numbers(c);
  }
}
