/**
  The command executor: a fixed registry from the nine verbs to their handlers,
  and the dispatch of one parsed request line.  A handler that runs
  synchronously (BC, AC, BA, BN) has its exceptions turned into an error line;
  the others run as fire-and-forget asynchronous handlers, so an exception in
  them never comes back to the executor and no line is sent for it.
*/
module Executor {
  import opened Wrappers
  import opened Text
  import opened Ledger
  import opened Banking
  import opened Parser
  import opened Commands

  datatype Verb = BC | AC | AD | AW | AB | AR | BA | BN | RP

  /** The registry key of each verb. */
  function VerbName(v: Verb): string
  {
    match v
    case BC => "BC"
    case AC => "AC"
    case AD => "AD"
    case AW => "AW"
    case AB => "AB"
    case AR => "AR"
    case BA => "BA"
    case BN => "BN"
    case RP => "RP"
  }

  /** The registry lookup: an exact, case-sensitive match of the key. */
  function Lookup(name: string): (r: Option<Verb>)
    ensures r.Some? ==> VerbName(r.value) == name
  {
    if name == "BC" then Some(BC)
    else if name == "AC" then Some(AC)
    else if name == "AD" then Some(AD)
    else if name == "AW" then Some(AW)
    else if name == "AB" then Some(AB)
    else if name == "AR" then Some(AR)
    else if name == "BA" then Some(BA)
    else if name == "BN" then Some(BN)
    else if name == "RP" then Some(RP)
    else None
  }

  /** The registry has exactly the nine keys, and each key finds its own verb. */
  lemma RegistryKeys(name: string)
    ensures Lookup(name).Some? <==> name in {"BC", "AC", "AD", "AW", "AB", "AR", "BA", "BN", "RP"}
    ensures forall v: Verb :: Lookup(VerbName(v)) == Some(v)
  {
  }

  /** The handlers that are not asynchronous. */
  predicate Synchronous(v: Verb)
  {
    v == BC || v == AC || v == BA || v == BN
  }

  /** What the client sees: one line, nothing, an exception that leaves ExecuteCommand or
      its handler (no line is sent), or a handler that never returns. */
  datatype Outcome = Sent(message: string) | Silent | Escaped | Hangs

  const InternalError: string := "ER Internal server error"

  /** How a handler's result reaches the client. */
  function Deliver(v: Verb, res: HandlerResult): (o: Outcome)
    ensures res.Responded? ==> o == Sent(res.message)
    ensures res.Threw? ==> o == (if Synchronous(v) then Sent(InternalError) else Escaped)
    ensures res.Stuck? ==> o == Hangs
  {
    match res
    case Responded(message) => Sent(message)
    case Threw => if Synchronous(v) then Sent(InternalError) else Escaped
    case Stuck => Hangs
  }

  /** The first decision of ExecuteCommand on its argument. */
  datatype Route = Crash | Nothing | Unknown(verb: string) | Run(handler: Verb)

  /** A null array makes the log line's string.Join throw before the null check; an empty
      one is dropped; an unregistered verb is answered; otherwise its handler runs. */
  function RouteOf(parsed: Option<seq<string>>): (r: Route)
    ensures r == Crash <==> parsed.None?
    ensures r == Nothing <==> parsed == Some([])
    ensures r.Unknown? ==> r.verb == parsed.value[0] && r.verb !in {"BC", "AC", "AD", "AW", "AB", "AR", "BA", "BN", "RP"}
    ensures r.Run? ==> parsed.Some? && |parsed.value| > 0 && VerbName(r.handler) == parsed.value[0]
  {
    match parsed
    case None => Crash
    case Some(args) =>
      if |args| == 0 then Nothing
      else
        match Lookup(args[0])
        case None => RegistryKeys(args[0]); Unknown(args[0])
        case Some(v) => Run(v)
  }

  /** A blank request line makes the parser return null, and that null reaches the
      executor's log line before its null check. */
  lemma BlankLineCrashes(line: string)
    requires IsBlank(line)
    ensures RouteOf(Parse(line)) == Crash
  {
  }

  /** The empty-array guard is never what stops a parsed line: a non-blank line always
      yields a verb, which is either answered as unknown or run. */
  lemma ParsedLineHasVerb(line: string)
    requires !IsBlank(line)
    ensures RouteOf(Parse(line)).Unknown? || RouteOf(Parse(line)).Run?
  {
  }

  /** A line of tokens whose verb is written in any mix of cases still finds its handler. */
  lemma VerbCaseIgnored(ts: seq<string>, v: Verb)
    requires Tokens(ts) && ToUpper(ts[0]) == VerbName(v)
    ensures RouteOf(Parse(Join(" ", ts))) == Run(v)
  {
    ParseJoin(ts);
    RegistryKeys(VerbName(v));
  }

  /** What the handler of v does to the ledger, and what it answers. */
  ghost predicate Handled(v: Verb, manager: BankingManager, env: Environment, args: seq<string>,
                          before: seq<Entry>, after: seq<Entry>, res: HandlerResult)
    reads manager
  {
    match v
    case BC => BankCodeDone(manager.ip, before, after, res)
    case AC => CreateDone(manager.ip, before, after, res)
    case AD => DepositDone(args, env, before, after, res)
    case AW => WithdrawDone(args, env, before, after, res)
    case AB => BalanceDone(args, env, before, after, res)
    case AR => RemoveDone(args, env, before, after, res)
    case BA => TotalDone(before, after, res)
    case BN => ClientsDone(before, after, res)
    case RP => RobberyDone(args, env, before, after, res)
  }

  /** ExecuteCommand: route the parsed line and deliver the handler's result. */
  method ExecuteCommand(manager: BankingManager, env: Environment, parsed: Option<seq<string>>)
    returns (outcome: Outcome)
    requires manager.Valid()
    modifies manager.repository, manager.repository.accounts
    ensures manager.Valid()
    ensures !RouteOf(parsed).Run? ==> manager.repository.Entries() == old(manager.repository.Entries())
    ensures RouteOf(parsed) == Crash ==> outcome == Escaped
    ensures RouteOf(parsed) == Nothing ==> outcome == Silent
    ensures RouteOf(parsed).Unknown? ==> outcome == Sent("ER command not found: " + RouteOf(parsed).verb)
    ensures RouteOf(parsed).Run? ==>
      exists res :: outcome == Deliver(RouteOf(parsed).handler, res) &&
        Handled(RouteOf(parsed).handler, manager, env, parsed.value,
                old(manager.repository.Entries()), manager.repository.Entries(), res)
  {
    match RouteOf(parsed)
    case Crash => outcome := Escaped;
    case Nothing => outcome := Silent;
    case Unknown(verb) => outcome := Sent("ER command not found: " + verb);
    case Run(v) =>
      var args := parsed.value;
      var res: HandlerResult;
      match v {
        case BC => res := BankCode(manager);
        case AC => res := AccountCreate(manager);
        case AD => res := AccountDeposit(manager, env, args);
        case AW => res := AccountWithdrawal(manager, env, args);
        case AB => res := AccountBalance(manager, env, args);
        case AR => res := AccountRemove(manager, env, args);
        case BA => res := BankTotalAmount(manager);
        case BN => res := BankClients(manager);
        case RP => res := BankRobbery(env, args);
      }
      outcome := Deliver(v, res);
  }

  /** A synchronous handler never leaves an exception to the client: it always answers a
      line, except that account creation on a full store never answers. */
  lemma SynchronousAlwaysAnswers(v: Verb, manager: BankingManager, env: Environment, args: seq<string>,
                                 before: seq<Entry>, after: seq<Entry>, res: HandlerResult)
    requires Synchronous(v) && Handled(v, manager, env, args, before, after, res)
    ensures Deliver(v, res).Sent? || (v == AC && |before| >= Capacity && Deliver(v, res) == Hangs)
  {
  }
}
