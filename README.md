# P2P bank node — a verified model

This project models the core of a peer-to-peer bank node.

- **The node and its protocol.**
  - A node keeps accounts in memory.
  - It answers two-letter protocol verbs over TCP:
    - BC: bank code;
    - AC: open an account;
    - AD / AW: deposit / withdraw;
    - AB: balance;
    - AR: remove an account;
    - BA: bank total;
    - BN: number of clients;
    - RP: robbery plan.
  - It forwards account requests that name another node's address to that node.
  - It plans a "robbery": the set of other nodes whose money reaches a goal while affecting as few clients as possible.
- **Modules** (the source classes they follow):
  - `Accounts`: `BankAccount` and its guarded setters.
  - `Ledger`: the account list as a value, with the invariant the repository keeps.
  - `Repository`: `BankRepository`, a class holding the list of account objects and changing it in place.
  - `Banking`: `BankingManager`.
  - `Parser`: `CommandParser`.
  - `Commands`: the handlers of `Commands.cs`.
  - `Executor`: `CommandExecutor`.
  - `Config`: `ConfigLoader`.
  - `Scanner`: the address arithmetic and the scan loops of `NetworkScanner`.
  - `Proxy`: `ProxyClient`.
  - `Robbery`: `RobberyPlanner`.
  - `Listener`: the connection registry of `ClientListener`.
  - Support modules: `Text`, `Numerals`, `Ranges` and `Wrappers` model the .NET string, number and range primitives the code uses.

Code that updates state in place is modelled as classes with methods:
- the account objects;
- the repository;
- the configuration;
- the proxy's port;
- the listener's registry.

Each method is proved against a specification function of the old state. The loops of the source are `while` loops with their invariants:
- the knapsack passes;
- the scan and port-list loops;
- the node collection;
- the accept loop.

## Model

| member | source | states |
|---|---|---|
| Accounts.BankAccount.SetNumber | P2P_Project/Data_access_layer/BankAccount.cs:36-47 | the assignment succeeds exactly for 10000..99999; a refused one leaves the old number, and the balance never changes |
| Accounts.BankAccount.SetBalance | P2P_Project/Data_access_layer/BankAccount.cs:54-65 | the assignment succeeds exactly for a non-negative value; a refused one leaves the old balance, and the number never changes |
| Accounts.BankAccount.constructor | P2P_Project/Data_access_layer/BankAccount.cs:18 | the parameterless constructor leaves both fields at 0 |
| Accounts.NewAccount | P2P_Project/Data_access_layer/BankAccount.cs:25-29 | construction succeeds exactly when the number is in range and the balance is not negative; the number is checked first, so an out-of-range number is the reported refusal; a made account satisfies both setter guards and holds the given values |
| Ledger.Find | P2P_Project/Data_access_layer/BankRepository.cs:113 | FirstOrDefault by number: the position found holds n and no earlier entry does; none exactly when n is not a number in use |
| Ledger.TotalCredit | P2P_Project/Data_access_layer/BankRepository.cs:204 | crediting an existing account moves the bank total by exactly the amount |
| Ledger.TotalRemove | P2P_Project/Data_access_layer/BankRepository.cs:118 | removing an account takes its balance out of the total and one entry out of the list |
| Ledger.TotalNonNegative | P2P_Project/Application_layer/BankingManager.cs:79-84 | with no negative balance the total is not negative |
| Ledger.CreditUndo | P2P_Project/Data_access_layer/BankRepository.cs:204-237 | a credit followed by the opposite credit gives back the original list |
| Ledger.CreditWellFormed | P2P_Project/Data_access_layer/BankRepository.cs:204 | a credit that keeps the balance non-negative keeps numbers distinct and in range and leaves the set of numbers as it was |
| Ledger.RemoveWellFormed | P2P_Project/Data_access_layer/BankRepository.cs:118 | removing an account keeps the invariant and removes exactly n from the numbers in use |
| Ledger.OpenWellFormed | P2P_Project/Data_access_layer/BankRepository.cs:57-60 | appending an unused in-range number with balance 0 keeps the invariant, adds n to the numbers and leaves the total unchanged |
| Ledger.FreeNumberExists | P2P_Project/Data_access_layer/BankRepository.cs:53-57 | while fewer than 90000 accounts exist, the retry loop has an unused number in 10000..99999 to find |
| Repository.BankRepository.IndexOf | P2P_Project/Data_access_layer/BankRepository.cs:173 | the loop's answer is the first position holding n, or none when n is absent; the store is unchanged |
| Repository.BankRepository.constructor | P2P_Project/Data_access_layer/BankRepository.cs:32-35 | a new store (no accounts file) is empty and valid |
| Repository.BankRepository.CreateAccount | P2P_Project/Data_access_layer/BankRepository.cs:46-67 | the new number is in 10000..99999 and was not in use; the ledger gains exactly that account with balance 0 at the end; the invariant is kept |
| Repository.BankRepository.GetBankAccount | P2P_Project/Data_access_layer/BankRepository.cs:169-182 | none (KeyNotFound) exactly when no account has the number; otherwise the listed object holding it, at its first position |
| Repository.BankRepository.GetAllAccounts | P2P_Project/Data_access_layer/BankRepository.cs:154-161 | the copy lists the same account objects in the same order |
| Repository.BankRepository.DeleteAccount | P2P_Project/Data_access_layer/BankRepository.cs:108-125 | KeyNotFound exactly for a missing number; the new ledger is the old one without that account, others in order; the invariant is kept |
| Repository.BankRepository.AddToBalance | P2P_Project/Data_access_layer/BankRepository.cs:204 | `Balance += delta` on one object: accepted exactly when the sum is not negative, then only that account's balance moves; refused, nothing changes |
| Repository.BankRepository.Deposit | P2P_Project/Data_access_layer/BankRepository.cs:191-208 | KeyNotFound for a missing number; a negative sum is refused by the setter; otherwise only that account's balance grows by the amount; nothing changes on failure |
| Repository.BankRepository.Withdraw | P2P_Project/Data_access_layer/BankRepository.cs:218-241 | KeyNotFound for a missing number, InvalidOperation when the balance is below the amount; otherwise only that balance drops by the amount; nothing changes on failure; the invariant (no negative balance) is kept |
| Repository.BankRepository.NoAliasing | P2P_Project/Data_access_layer/BankRepository.cs:57 | distinct numbers make distinct objects, so changing one account object changes no other entry |
| Banking.BalanceOf | P2P_Project/Data_access_layer/BankRepository.cs:173-180 | none exactly when the number is not in use; otherwise the balance of an entry with that number |
| Banking.BankingManager.GetBankCode | P2P_Project/Application_layer/BankingManager.cs:27-30 | the reply is "BC " and the configured address |
| Banking.BankingManager.CreateAccount | P2P_Project/Application_layer/BankingManager.cs:31-35 | one fresh in-range account with balance 0 is added and the reply is "AC n/ip" for its number |
| Banking.BankingManager.Deposit | P2P_Project/Application_layer/BankingManager.cs:37-45 | a missing account raises KeyNotFound; otherwise "AD" with the balance raised by the amount, or the setter's refusal with nothing changed |
| Banking.BankingManager.Withdraw | P2P_Project/Application_layer/BankingManager.cs:47-57 | a missing account raises KeyNotFound; a balance below the amount answers "ER AW: failed insufficient funds" with nothing changed; otherwise "AW" with the balance lowered by the amount |
| Banking.BankingManager.GetBalance | P2P_Project/Application_layer/BankingManager.cs:59-65 | a missing account raises KeyNotFound; otherwise "AB" and its balance |
| Banking.BankingManager.RemoveAccount | P2P_Project/Application_layer/BankingManager.cs:67-77 | a missing account raises KeyNotFound; a positive balance answers "ER AR Failed: Balance must be 0" and keeps it; a zero balance removes exactly that account and answers "AR" |
| Banking.BankingManager.GetTotalAmount | P2P_Project/Application_layer/BankingManager.cs:79-84 | "BA" and the sum of all balances, which is not negative |
| Banking.BankingManager.GetClientCount | P2P_Project/Application_layer/BankingManager.cs:86-90 | "BN" and the number of accounts |
| Parser.Parse | P2P_Project/Presentation_layer/CommandParser.cs:12-23 | null exactly for a blank line; otherwise at least one token, none empty or holding a space, verb upper case |
| Parser.ParseJoin | P2P_Project/Presentation_layer/CommandParser.cs:17-19 | parsing space-joined tokens upper-cases the verb and gives every other token back unchanged |
| Parser.ParseIdempotent | P2P_Project/Presentation_layer/CommandParser.cs:17-19 | parsing the joined result of a parse gives the same tokens |
| Commands.TryParseAccountArg | P2P_Project/Application_layer/Commands.cs:23-37 | an accepted argument has a 32-bit account number and an address without '/' |
| Commands.AccountArgMeans | P2P_Project/Application_layer/Commands.cs:23-37 | (n, ip) is accepted exactly when the argument is a 32-bit integer text, '/', and ip, with no other '/'; the address is not checked |
| Commands.AccountArgRoundTrip | P2P_Project/Application_layer/Commands.cs:23-37 | the "n/ip" the node writes in its AC reply is read back as (n, ip) |
| Commands.AmountRequest | P2P_Project/Application_layer/Commands.cs:87-94 | the AD/AW guard refuses exactly: fewer than 3 tokens, a bad account argument, an amount that is not a long, or an amount not above 0 |
| Commands.AmountRequestRoundTrip | P2P_Project/Application_layer/Commands.cs:87-94 | a well-formed "verb n/ip amount" request passes the guard with the same account, address and amount |
| Commands.AccountRequest | P2P_Project/Application_layer/Commands.cs:167-173 | the AB/AR guard refuses exactly fewer than 2 tokens or a bad account argument |
| Commands.TargetAmount | P2P_Project/Application_layer/Commands.cs:279-284 | the RP guard refuses exactly a missing target, one that is not a long, or one not above 0 |
| Commands.RelayPreservesRequest | P2P_Project/Application_layer/Commands.cs:105-107 | the forwarded line, the tokens joined with single spaces, parses on the other node into the very same tokens |
| Commands.RelayedReplyUnchanged | P2P_Project/Application_layer/Commands.cs:105-111 | once the peer's port is found, the peer's answer line is passed to the client unchanged |
| Commands.Relay | P2P_Project/Application_layer/Commands.cs:103-108 | the remote branch: an unparsable address throws; otherwise the request is forwarded to a port FindPort could report, and its delivery is the handler's result |
| Commands.BankCode | P2P_Project/Application_layer/Commands.cs:48-54 | answers "BC ip" and leaves the ledger unchanged |
| Commands.AccountCreate | P2P_Project/Application_layer/Commands.cs:66-72 | answers "AC n/ip" for one new account with a fresh number and balance 0; on a full store never answers |
| Commands.AccountDeposit | P2P_Project/Application_layer/Commands.cs:85-112 | invalid arguments answer "ER AD Failed: Invalid arguments"; an own-address account is credited with "AD", a missing one throws; any other address is relayed with the ledger unchanged |
| Commands.AccountWithdrawal | P2P_Project/Application_layer/Commands.cs:125-152 | invalid arguments answer "ER AW Failed: Invalid arguments"; locally "AW" with the balance lowered, or the insufficient-funds error with nothing changed; remote addresses are relayed |
| Commands.AccountBalance | P2P_Project/Application_layer/Commands.cs:165-191 | invalid arguments answer "ER AB Failed: Invalid arguments"; locally "AB" and the balance; remote addresses are relayed; the ledger never changes |
| Commands.AccountRemove | P2P_Project/Application_layer/Commands.cs:204-230 | invalid arguments answer "ER AR Failed: Invalid arguments"; locally only a zero-balance account is removed ("AR"); remote addresses are relayed |
| Commands.BankTotalAmount | P2P_Project/Application_layer/Commands.cs:242-247 | answers "BA" and the total, ledger unchanged |
| Commands.BankClients | P2P_Project/Application_layer/Commands.cs:259-264 | answers "BN" and the number of accounts, ledger unchanged |
| Commands.BankRobbery | P2P_Project/Application_layer/Commands.cs:277-298 | always one line: the invalid-target error, "ER RP Internal Error" when the planner fails on a scan bound, and otherwise "ER no other bank nodes were found", since no node is ever collected |
| Commands.DepositThenWithdraw | P2P_Project/Application_layer/Commands.cs:85-152 | a local deposit and then a local withdrawal of the same amount answer "AD", "AW" and give back the original ledger |
| Executor.Lookup | P2P_Project/Application_layer/CommandExecutor.cs:24-35 | a registry hit is the verb whose key equals the name exactly |
| Executor.RegistryKeys | P2P_Project/Application_layer/CommandExecutor.cs:24-35 | the registry has exactly the nine keys, and each key finds its own verb |
| Executor.RouteOf | P2P_Project/Application_layer/CommandExecutor.cs:43-56 | a null array crashes at the log line, an empty one is dropped, an unregistered verb is reported, otherwise its handler runs |
| Executor.Deliver | P2P_Project/Application_layer/CommandExecutor.cs:57-61 | a handler's exception becomes "ER Internal server error" for the synchronous handlers and escapes for the asynchronous ones |
| Executor.BlankLineCrashes | P2P_Project/Application_layer/CommandExecutor.cs:45-46 | a blank line gives null, which reaches string.Join before the null check |
| Executor.ParsedLineHasVerb | P2P_Project/Application_layer/CommandExecutor.cs:46-50 | a non-blank line always has a verb, so the empty-array guard never fires after the parser |
| Executor.VerbCaseIgnored | P2P_Project/Application_layer/CommandExecutor.cs:50 | a line of tokens whose verb upper-cases to a registered name, in any mix of cases, is run by that verb's handler |
| Executor.ExecuteCommand | P2P_Project/Application_layer/CommandExecutor.cs:43-62 | each route's outcome ("ER command not found: verb", nothing, an escape), and for a registered verb the outcome of a result that its handler's specification allows |
| Executor.SynchronousAlwaysAnswers | P2P_Project/Application_layer/CommandExecutor.cs:57-61 | a synchronous handler always sends a line, except AC on a full store, which never returns |
| Config.ConvertIpToNumber | P2P_Project/Data_access_layer/ConfigLoader.cs:174-178 | the number of a valid address lies in 0..2^32-1 |
| Config.ConvertIsBigEndian | P2P_Project/Data_access_layer/ConfigLoader.cs:174-178 | the configuration's conversion is the scanner's big-endian reading of the four segments |
| Config.ConvertInjective | P2P_Project/Data_access_layer/ConfigLoader.cs:174-178 | two valid addresses get the same number exactly when their segments agree |
| Config.ConvertOrdered | P2P_Project/Data_access_layer/ConfigLoader.cs:174-178 | the numeric order of addresses is the lexicographic order of their segments |
| Config.FormattedAddressValid | P2P_Project/Data_access_layer/ConfigLoader.cs:142-153 | every address printed in dotted decimal passes ValidateIp and reads back as the same segments |
| Config.ConfigLoader.constructor | P2P_Project/Data_access_layer/ConfigLoader.cs:36-39 | before loading, numbers are 0 and strings unset |
| Config.ConfigLoader.SetIpAddress | P2P_Project/Data_access_layer/ConfigLoader.cs:45 | accepted exactly for a valid address; a refusal keeps the old value; no other setting changes |
| Config.ConfigLoader.SetAppPort | P2P_Project/Data_access_layer/ConfigLoader.cs:51 | accepted exactly for 1024..65535; nothing else changes |
| Config.ConfigLoader.SetTimeoutTime | P2P_Project/Data_access_layer/ConfigLoader.cs:56 | accepted exactly for a value above 0; nothing else changes |
| Config.ConfigLoader.SetMaxConnectionCount | P2P_Project/Data_access_layer/ConfigLoader.cs:61 | accepted exactly for a value above 0; nothing else changes |
| Config.ConfigLoader.SetScanIpStart | P2P_Project/Data_access_layer/ConfigLoader.cs:66 | accepted exactly for a valid address; nothing else changes |
| Config.ConfigLoader.SetScanIpEnd | P2P_Project/Data_access_layer/ConfigLoader.cs:72-81 | accepted exactly for a valid address numbered no lower than a valid start; nothing else changes |
| Config.ConfigLoader.SetScanPortStart | P2P_Project/Data_access_layer/ConfigLoader.cs:86 | accepted exactly for a valid port; nothing else changes |
| Config.ConfigLoader.SetScanPortEnd | P2P_Project/Data_access_layer/ConfigLoader.cs:92-101 | accepted exactly for a valid port no lower than the start; nothing else changes |
| Config.ConfigLoader.LoadConfig | P2P_Project/Data_access_layer/ConfigLoader.cs:108-134 | succeeds exactly for a file every setter accepts in file order, then holds its values with start no later than end for both ranges; every failure is "ER Failed to load app configuration" |
| Scanner.IpToNumber | P2P_Project/Application_layer/NetworkScanner.cs:102-109 | the big-endian number of an address lies in 0..2^32-1 |
| Scanner.NumberToIpToNumber | P2P_Project/Application_layer/NetworkScanner.cs:102-123 | address to number to address is the identity |
| Scanner.IpToNumberToIp | P2P_Project/Application_layer/NetworkScanner.cs:102-123 | number to address to number is the identity on 32-bit numbers and reduces any other modulo 2^32 |
| Scanner.IpToNumberInjective | P2P_Project/Application_layer/NetworkScanner.cs:102-109 | distinct addresses have distinct numbers |
| Scanner.ParseFormat | P2P_Project/Application_layer/NetworkScanner.cs:116-123 | the dotted text of an address parses back to that address |
| Scanner.FormatInjective | P2P_Project/Application_layer/NetworkScanner.cs:116-123 | distinct addresses have distinct texts |
| Scanner.RangeProbes | P2P_Project/Application_layer/NetworkScanner.cs:47-52 | one probe per number start..end, the k-th being the address numbered start + k; none for start > end |
| Scanner.RangeProbesExact | P2P_Project/Application_layer/NetworkScanner.cs:43-53 | an address is probed by a range exactly when its number lies within the bounds |
| Scanner.RangeProbesOnce | P2P_Project/Application_layer/NetworkScanner.cs:43-53 | no address of a range is probed twice |
| Scanner.ProbedExactly | P2P_Project/Application_layer/NetworkScanner.cs:43-53 | over all configured ranges, an address is probed exactly when some range holds it |
| Scanner.Answered | P2P_Project/Application_layer/NetworkScanner.cs:55-61 | the result holds only probed addresses that answered, and every probed address that answered |
| Scanner.ScanNetwork | P2P_Project/Application_layer/NetworkScanner.cs:37-64 | fails exactly when a range bound is not an address; otherwise the answered probes of all ranges, in launch order |
| Scanner.LaunchRange | P2P_Project/Application_layer/NetworkScanner.cs:45-52 | the inner loop appends exactly the probes of start..end |
| Scanner.KeepAnswered | P2P_Project/Application_layer/NetworkScanner.cs:58-61 | the collection loop keeps exactly the answered probes, in order |
| Ranges.IntervalMembers | P2P_Project/Application_layer/ProxyClient.cs:58-64 | a walked range holds exactly start..end, in ascending order |
| Proxy.CorrectAnswerMeans | P2P_Project/Application_layer/ProxyClient.cs:142-162 | the handshake check accepts exactly a response starting "BC <ip>" followed by nothing or a space (extra tokens are allowed) |
| Proxy.BankCodeAccepted | P2P_Project/Application_layer/ProxyClient.cs:142-162 | a node's own BC reply passes the handshake |
| Proxy.CheckPort | P2P_Project/Application_layer/ProxyClient.cs:91-135 | the result is 0 or the probed port, and non-zero only when the handshake there identified the address |
| Proxy.CheckPortFindsNode | P2P_Project/Application_layer/ProxyClient.cs:91-135 | a node answering its bank code on a port is found on that port |
| Proxy.PortsOfMembers | P2P_Project/Application_layer/ProxyClient.cs:54-64 | a port is a candidate exactly when some configured range holds it |
| Proxy.ListPorts | P2P_Project/Application_layer/ProxyClient.cs:54-64 | the nested loops list the ranges' ports, range after range, each ascending |
| Proxy.FindPort | P2P_Project/Application_layer/ProxyClient.cs:52-83 | 0 exactly when no candidate port passes the check; otherwise a candidate port whose check reported it, in whatever order the checks finish |
| Proxy.Forward | P2P_Project/Application_layer/ProxyClient.cs:169-206 | with port 0, "ER Unable to connect to ip. No open port found" without contact; a reply is passed on; only a non-socket exception escapes |
| Proxy.ForwardFailureIsError | P2P_Project/Application_layer/ProxyClient.cs:169-206 | no port or a socket error always gives an "ER " line |
| Proxy.ProxyClient.constructor | P2P_Project/Application_layer/ProxyClient.cs:28-31 | the plain constructor leaves the port at 0 |
| Proxy.ProxyClient.CreateClient | P2P_Project/Application_layer/ProxyClient.cs:38-45 | the client holds the port FindPort reports |
| Proxy.ProxyClient.ForwardRequest | P2P_Project/Application_layer/ProxyClient.cs:169-206 | the delivery is Forward of the client's address and port |
| Robbery.BuildStates | P2P_Project/Application_layer/RobberyPlanner.cs:63-86 | after all passes every table entry is the client sum, money and address list (in node order) of a selection of nodes each used once, and every selection is matched or beaten by the entry of its client count |
| Robbery.Pass | P2P_Project/Application_layer/RobberyPlanner.cs:70-86 | one node's pass over the snapshot keeps the entries witnessed, extends optimality to one more node, and never lowers the money of an entry |
| Robbery.Sweep | P2P_Project/Application_layer/RobberyPlanner.cs:72-85 | the inner loop over the frozen snapshot covers every snapshot entry extended by the node; every entry afterwards is either the one the pass began with or the first snapshot entry with the most money for its client count, written only when new or strictly richer |
| Robbery.SweepStep | P2P_Project/Application_layer/RobberyPlanner.cs:76-84 | one snapshot entry with the node added is written exactly when its client count is new or it carries more money; the loop invariant and the settled entries carry over to the next entry |
| Robbery.WinsWritten | P2P_Project/Application_layer/RobberyPlanner.cs:79-83 | an entry written because it is new or strictly richer beats the entry the pass began with and every earlier snapshot entry with the same client count |
| Robbery.PassDominates | P2P_Project/Application_layer/RobberyPlanner.cs:70-86 | a pass that extends every old entry and lowers none makes the table optimal over one more node |
| Robbery.Cheapest | P2P_Project/Application_layer/RobberyPlanner.cs:88-92 | the smallest listed client count whose money reaches the goal, and none exactly when none does |
| Robbery.CalculateOptimalKnapsackPlan | P2P_Project/Application_layer/RobberyPlanner.cs:63-101 | "RP Plan will fail: Insufficient funds in the network" when no selection reaches the goal; otherwise the Czech reply naming a selection that reaches it and affects no more clients than any selection that does, and that carries as much money as any selection affecting as many clients |
| Robbery.NothingReaches | P2P_Project/Application_layer/RobberyPlanner.cs:88-98 | when no table entry reaches the goal, no selection of the nodes does, and the failure line is the plan |
| Robbery.CheapestIsPlan | P2P_Project/Application_layer/RobberyPlanner.cs:88-100 | the entry with the smallest qualifying client count names a selection that reaches the goal; no selection that reaches it affects fewer clients, and none affecting as many carries more money |
| Robbery.ExtractValueFromResponse | P2P_Project/Application_layer/RobberyPlanner.cs:166-184 | a value other than -1 comes only from a non-error reply that is exactly the prefix, a space and a long |
| Robbery.ExtractRoundTrip | P2P_Project/Application_layer/RobberyPlanner.cs:166-184 | a node's "BA n" or "BN n" reply is read back as n |
| Robbery.ErrorLineHasNoValue | P2P_Project/Application_layer/RobberyPlanner.cs:168 | an "ER" reply always gives -1 |
| Robbery.Admitted | P2P_Project/Application_layer/RobberyPlanner.cs:114-130 | every kept node has amount above 0 and a client count of at least 0, is a scanned address and is not this node |
| Robbery.AdmittedContains | P2P_Project/Application_layer/RobberyPlanner.cs:114-130 | every scanned node other than this one whose stats are usable is kept |
| Robbery.GetRemoteBankStats | P2P_Project/Application_layer/RobberyPlanner.cs:138-158 | (corrected) the stats are those fetched on a port FindPort could report |
| Robbery.GetRemoteBankStatsAsWritten | P2P_Project/Application_layer/RobberyPlanner.cs:138-158 | the stats are those fetched with port 0 |
| Robbery.CollectNetworkData | P2P_Project/Application_layer/RobberyPlanner.cs:107-131 | (corrected) the loop keeps exactly the admitted nodes, in scan order, each reached on a discovered port |
| Robbery.CollectNetworkDataAsWritten | P2P_Project/Application_layer/RobberyPlanner.cs:107-131 | the loop keeps exactly the nodes admitted with every port 0 |
| Robbery.AsWrittenAdmitsNone | P2P_Project/Application_layer/RobberyPlanner.cs:142 | as written, no node is ever admitted |
| Robbery.StatsOfLiveNode | P2P_Project/Application_layer/RobberyPlanner.cs:138-151 | a node reached on its port that answers BA and BN reports exactly those figures |
| Robbery.LivePeerAdmitted | P2P_Project/Application_layer/RobberyPlanner.cs:107-131 | (corrected) a live peer that identifies itself on a candidate port and reports a positive total is among the collected nodes |
| Robbery.ExecuteRobberyPlan | P2P_Project/Application_layer/RobberyPlanner.cs:39-54 | fails exactly when a scan bound is not an address; otherwise the reply is always "ER no other bank nodes were found", because the nodes are collected through port-0 proxies |
| Robbery.ExecuteRobberyPlanCorrected | P2P_Project/Application_layer/RobberyPlanner.cs:39-54 | (corrected) fails exactly when a scan bound is not an address; otherwise the nodes are those admitted on ports the port search could report, none gives "ER no other bank nodes were found", and otherwise the reply is the optimal plan over them |
| Robbery.PlanForIsPlanLine | P2P_Project/Application_layer/RobberyPlanner.cs:88-100 | every reply of the planner starts with "RP ", so it is never the "no nodes" line |
| Robbery.CorrectedPlanSeesLivePeer | P2P_Project/Application_layer/RobberyPlanner.cs:39-54 | (corrected) a scanned live peer that identifies itself on a candidate port and reports a positive total is planned over, so the reply is not "ER no other bank nodes were found" |
| Listener.WithoutPresent | P2P_Project/Presentation_layer/ClientListener.cs:210 | removing a registered connection takes out exactly its first occurrence and keeps the others in order |
| Listener.WithoutIdempotent | P2P_Project/Presentation_layer/ClientListener.cs:208-210 | a disconnection reported twice has the effect of one |
| Listener.Admitted | P2P_Project/Presentation_layer/ClientListener.cs:97-121 | of n arrivals, at most as many are admitted as the registry has room for, and a registry within the maximum stays within it |
| Listener.KeepAlive | P2P_Project/Presentation_layer/ClientListener.cs:144-153 | the idle time is the timeout in whole seconds, truncated; the interval is half of that, truncated; 3 probes |
| Listener.ClientListener.constructor | P2P_Project/Presentation_layer/ClientListener.cs:43-56 | no connection registered and not running |
| Listener.ClientListener.Start | P2P_Project/Presentation_layer/ClientListener.cs:62-75 | the listener runs; the registry is unchanged |
| Listener.ClientListener.Accept | P2P_Project/Presentation_layer/ClientListener.cs:91-123 | admitted exactly when the registry is below the maximum: then appended and started; otherwise told the bank is full, stopped, registry unchanged |
| Listener.ClientListener.AcceptClients | P2P_Project/Presentation_layer/ClientListener.cs:85-138 | the accept loop registers the arrivals that fit, in order, refuses every later one, and never takes the registry past the maximum |
| Listener.ClientListener.ClientDisconnected | P2P_Project/Presentation_layer/ClientListener.cs:204-236 | the connection leaves the registry; an unknown one changes nothing; no repetition appears |
| Listener.ClientListener.Stop | P2P_Project/Presentation_layer/ClientListener.cs:185-197 | the running flag is cleared and every registered connection is stopped |
| Numerals.ParseIntegerRoundTrip | P2P_Project/Application_layer/Commands.cs:33 | the decimal text the node writes reads back as the same number |
| Text.JoinSplit | P2P_Project/Application_layer/Commands.cs:30 | joining the pieces of a split with the separator rebuilds the text |
| Text.SplitJoin | P2P_Project/Presentation_layer/CommandParser.cs:17 | splitting a joined list whose pieces avoid the separator gives the list back |
| Text.TrimBlank | P2P_Project/Presentation_layer/CommandParser.cs:14-17 | the trimmed line is empty exactly for a blank line |

## Left out

- Sockets, TCP reads and writes, the ICMP ping and timeouts are not modelled.
  - A node's answers are a `Network` value: a handshake function and an exchange function.
  - The ping result is a function `alive`.
  - SocketException message texts are an opaque string.
- Concurrency is not modelled. This covers threads, `lock`, `Task.WhenAll`, the `Task.WhenAny` race in FindPort and the 5-second delayed stop of a refused connection.
  - FindPort takes the completed checks in an arbitrary order.
  - The refused connection is stopped at once.
  - Every operation is sequential and atomic.
- The `async void` handlers are modelled by their outcome.
  - An exception thrown in AD/AW/AB/AR/RP after they start (for example KeyNotFound for a missing local account) escapes the executor, and no line is sent. The model reports this as `Escaped`.
  - What happens after that is not modelled. .NET rethrows an exception that leaves an `async void` method on the thread pool, which normally ends the whole process, so an "AD" for a missing account on the node's own address would stop the node. This follows from the runtime's documented behaviour and was not observed.
  - The "Account not found" replies of BankingManager are never produced, because `GetBankAccount` throws first.
- Persistence is not modelled: `LoadAccounts`/`SaveAccounts`, the JSON reading in `LoadConfig`, and `TcpConnection` loading. The parsed config file is given as a record of optional values.
- UI and logging are not modelled: the WPF window, `DisplayClient`, and Serilog and the logger classes.
- `TcpConnection.cs` and `ConnectionManager.cs` are not part of this model. A connection is only its `running` and `refused` flags.
- `Random.Next` in CreateAccount is modelled as a choice of any unused number in range.
  - A full store (90000 accounts) would make the source's retry loop run for ever.
  - `Repository.BankRepository.CreateAccount` requires a store that is not full.
  - The AC handler reports a full store as `Stuck`.
- Banking.BankingManager.Deposit, Banking.BankingManager.Withdraw: the `double` amount parameters are integers here; callers pass whole `long` amounts.
- Fixed-width overflow is not modelled: integers are unbounded. This covers `long` sums of balances and the `(int)` cast of client counts in the planner.
- `int.TryParse` / `long.TryParse` are modelled as an optional sign followed by ASCII decimal digits, within the 32- or 64-bit range. Surrounding white space, thousands separators and culture rules are not accepted.
- `IPAddress.Parse` is modelled as dotted decimal with four groups of digits, each at most 255. Its leniency (fewer groups, octal or hex forms, IPv6) is not modelled.
- `IPAddress.ToString` is canonical dotted decimal.
- `ToUpper` is ASCII upper-casing.
- A null line or null reply is folded into the empty string.
- The shown `ConfigLoader` has no `ScanIpRanges`/`ScanPortRanges`/`PortRange` lists. The scan and port ranges are parameters: sequences of (start, end) pairs.
- `BankNodeData.AverageWealth` (floating point) is not modelled.
- Dictionary enumeration order is modelled as insertion order of the keys. The plan query picks the smallest qualifying client count, so the reply does not depend on that order.
- The handler registry's `IBankCommand` interface is a closed datatype of the nine verbs.

## Findings

The RP handler and the executor follow the program as written: `Robbery.ExecuteRobberyPlan` always ends in "ER no other bank nodes were found". The corrected path is kept beside it: `Robbery.CollectNetworkData`, `Robbery.GetRemoteBankStats` and `Robbery.ExecuteRobberyPlanCorrected`. `Robbery.CorrectedPlanSeesLivePeer` proves that, once corrected, a live peer is planned over.

| source | as written | input that shows it | evidently intended | confidence | as-written member | corrected member |
|---|---|---|---|---|---|---|
| P2P_Project/Application_layer/RobberyPlanner.cs:142 | `GetRemoteBankStats` builds its proxy with the bare constructor, so the proxy's port stays 0 and `ForwardRequest` answers "ER Unable to connect to … No open port found" without contacting the node; both values parse as -1 and every node is dropped | any RP request with another live node in the scanned range answering "BA 1000" and "BN 3" on its port: no node is collected and the reply is "ER no other bank nodes were found" | build the proxy with `CreateClient`, as the AD/AW/AB/AR handlers do, so that the node's port is found first | not executed | Robbery.AsWrittenAdmitsNone | Robbery.LivePeerAdmitted |
