/** The request protocol of the main contract as a state machine: admission, output submission,
    operator resume, the settlement callback, the cancels, and the stablecoin ledger around them.
    Every call is a function from state to state; `None` is a panic, which changes nothing. */
module Execution {
  import opened Options
  import opened Sums
  import opened Charges
  import Integers

  const EXECUTION_TIMEOUT: nat := 600 * 1_000_000_000
  const MAX_INSTRUCTIONS: nat := 500_000_000_000
  const MAX_EXECUTION_SECONDS: nat := 180
  const MAX_MEMORY_MB: nat := 4096
  const MAX_PRICED_INPUT_BYTES: nat := 10_000
  const MAX_PROJECT_OPERATIONS: nat := 32
  const FULL_SHARE_BP: nat := 10_000

  // ---- state ----

  datatype Source = Inline | Project(id: string)

  /** A request body: its length in bytes and the operation its JSON names, if it names one. */
  datatype Input = Input(len: nat, operation: Option<string>)

  datatype PriceRow = PriceRow(author: Account, price: nat, shareBp: nat)

  /** What was true when a request was admitted; kept for the proofs, not stored on chain. */
  datatype Admission = Admission(fees: Fees, compileOnly: bool, row: Option<PriceRow>)

  datatype Request = Request(
    sender: Account, payer: Account, source: Source, limits: Limits, payment: nat, timestamp: nat,
    input: Option<Input>, attached: nat, outputSubmitted: bool, admission: Admission)

  datatype Response = Response(success: bool, metrics: Metrics, refundUsd: Option<nat>)

  /** A yield promise: waiting for the operator, or resumed with a payload its callback will read. A
      callback that finds it still waiting is the timeout. */
  datatype Yield = Waiting | Resumed(response: Response)

  datatype How = Succeeded | Failed | TimedOut | CancelledStale | CancelledByOwner

  /** How a request ended: what was booked as a fee, what was refunded to its payer, under which fees. */
  datatype Ending = Ending(how: How, request: Request, fees: Fees, booked: nat, refund: nat)

  datatype Withdrawal = Withdrawal(developer: Account, amount: nat)

  /** Settings, the price table and the owners of the registered projects. */
  datatype Config = Config(
    owner: Account, operator: Account, paused: bool, fees: Fees, token: Option<Account>,
    projects: map<string, Account>, pricing: map<string, Pricing>)

  /** The stablecoin ledger: the two maps, the withdrawals whose callback is outstanding, and the
      running totals. */
  datatype Books = Books(
    balances: map<Account, nat>, earnings: map<Account, nat>,
    withdrawals: map<nat, Withdrawal>, nextWithdrawal: nat,
    deposited: nat, withdrawn: nat, writtenOff: nat)

  /** Requests: the pending ones, the promises the runtime holds for them, how the others ended, and the
      NEAR transferred back to each account. */
  datatype Desk = Desk(
    nextId: nat, pending: map<nat, Request>, executions: nat, feesCollected: nat,
    promises: map<nat, Yield>, ended: map<nat, Ending>, refunded: map<Account, nat>)

  datatype State = State(config: Config, books: Books, desk: Desk)

  const INITIAL_FEES := Fees(1_000_000_000_000_000_000_000, 100_000_000_000_000,
                             100_000_000_000_000_000, 100_000_000_000_000_000)

  /** `new`. */
  function Init(owner: Account, operator: Option<Account>): State {
    State(Config(owner, operator.GetOr(owner), false, INITIAL_FEES, None, map[], map[]),
          Books(map[], map[], map[], 0, 0, 0, 0),
          Desk(0, map[], 0, 0, map[], map[], map[]))
  }

  // ---- pieces ----

  function Credit(m: map<Account, nat>, a: Account, amount: nat): map<Account, nat> {
    m[a := Get(m, a) + amount]
  }

  /** `return_attached_usd`. */
  function ReturnUsd(b: Books, a: Account, amount: nat): Books {
    if amount == 0 then b else b.(balances := Credit(b.balances, a, amount))
  }

  /** Remove a pending request and record how it ended. */
  function End(d: Desk, id: nat, how: How, fees: Fees, booked: nat, refund: nat): Desk
    requires id in d.pending
  {
    d.(pending := d.pending - {id},
       feesCollected := d.feesCollected + booked,
       ended := d.ended[id := Ending(how, d.pending[id], fees, booked, refund)],
       refunded := if refund == 0 then d.refunded else Credit(d.refunded, d.pending[id].payer, refund))
  }

  function EndAs(d: Desk, id: nat, e: Ending): Desk
    requires id in d.pending
  {
    End(d, id, e.how, e.fees, e.booked, e.refund)
  }

  function InputLen(input: Option<Input>): nat {
    if input.Some? then input.value.len else 0
  }

  function StoragePart(r: Request): nat {
    InputStorageDeposit(InputLen(r.input))
  }

  /** `operation_from_input`: nothing for a missing, oversized or unreadable body. */
  function OperationOf(input: Option<Input>): Option<string> {
    if input.None? || input.value.len > MAX_PRICED_INPUT_BYTES then None else input.value.operation
  }

  /** The price row that applies to a call, if its project is priced and sells its operation. */
  function RowFor(pricing: map<string, Pricing>, source: Source, input: Option<Input>): Option<PriceRow> {
    if !source.Project? || source.id !in pricing || OperationOf(input).None? then None
    else
      var p := pricing[source.id];
      var row := FindRow(p.operations, OperationOf(input).value);
      if row.None? then None else Some(PriceRow(p.author, row.value.price, row.value.shareBp))
  }

  // ---- request_execution ----

  datatype RequestArgs = RequestArgs(
    caller: Account, deposit: nat, now: nat, source: Source, limits: Option<Limits>, input: Option<Input>,
    payer: Option<Account>, compileOnly: bool, forceRebuild: bool, storeOnFastfs: bool, attached: nat,
    // verdicts of checks outside this module: the profile named in secrets_ref, the code source and
    // its resolution, and whether it resolves to a pre-built WASM URL
    profileOk: bool, sourceOk: bool, isWasmUrl: bool)

  predicate CompileOnly(a: RequestArgs) {
    a.compileOnly || a.limits.None?
  }

  predicate WithinCaps(l: Limits) {
    && l.maxInstructions.GetOr(0) <= MAX_INSTRUCTIONS
    && l.maxSeconds.GetOr(0) <= MAX_EXECUTION_SECONDS
    && l.maxMemoryMb.GetOr(0) <= MAX_MEMORY_MB
  }

  function LimitsOf(a: RequestArgs): Limits {
    a.limits.GetOr(DEFAULT_LIMITS)
  }

  /** What admission asks for beyond the storage part. */
  function ComputePrice(f: Fees, compileOnly: bool, l: Limits): nat {
    if compileOnly then f.base else Estimate(f, l)
  }

  /** A priced project admits only an operation it sells, with at least its price attached. */
  predicate PriceGate(c: Config, a: RequestArgs) {
    !CompileOnly(a) && a.source.Project? && a.source.id in c.pricing ==>
      RowFor(c.pricing, a.source, a.input).Some? && a.attached >= RowFor(c.pricing, a.source, a.input).value.price
  }

  predicate Admissible(s: State, a: RequestArgs) {
    && !s.config.paused && a.profileOk && a.sourceOk
    && (a.source.Project? ==> a.source.id in s.config.projects)
    && !(a.isWasmUrl && a.forceRebuild)
    && (a.storeOnFastfs ==> a.forceRebuild)
    && (CompileOnly(a) ==> InputLen(a.input) == 0)
    && (!CompileOnly(a) ==> WithinCaps(LimitsOf(a)))
    && PriceGate(s.config, a)
    && (a.attached > 0 ==> a.source.Project? && Get(s.books.balances, a.caller) >= a.attached)
    && a.deposit >= ComputePrice(s.config.fees, CompileOnly(a), LimitsOf(a)) + InputStorageDeposit(InputLen(a.input))
  }

  function NewRequest(c: Config, a: RequestArgs): Request {
    Request(a.caller, a.payer.GetOr(a.caller), a.source, LimitsOf(a), a.deposit, a.now, a.input, a.attached, false,
            Admission(c.fees, CompileOnly(a),
                      if CompileOnly(a) then None else RowFor(c.pricing, a.source, a.input)))
  }

  /** Take the attached stablecoin out of the caller's balance. */
  function Debit(b: Books, a: Account, amount: nat): Books
    requires amount <= Get(b.balances, a)
  {
    if amount == 0 then b else b.(balances := b.balances[a := Get(b.balances, a) - amount])
  }

  /** Hand out the next id and create its yield. */
  function Enter(d: Desk, r: Request): Desk {
    d.(nextId := d.nextId + 1, pending := d.pending[d.nextId := r], promises := d.promises[d.nextId := Waiting])
  }

  function RequestExecution(s: State, a: RequestArgs): Option<State> {
    if !Admissible(s, a) then None
    else Some(State(s.config, Debit(s.books, a.caller, a.attached), Enter(s.desk, NewRequest(s.config, a))))
  }

  // ---- the operator ----

  function SubmitOutput(s: State, caller: Account, id: nat): Option<State> {
    var d := s.desk;
    if caller != s.config.operator || id !in d.pending || d.pending[id].outputSubmitted then None
    else Some(s.(desk := d.(pending := d.pending[id := d.pending[id].(outputSubmitted := true)])))
  }

  /** `resolve_execution`: resumes the yield, which must still be waiting. */
  function Resolve(s: State, caller: Account, id: nat, response: Response): Option<State> {
    var d := s.desk;
    if caller != s.config.operator || id !in d.pending || id !in d.promises || !d.promises[id].Waiting? then None
    else Some(s.(desk := d.(promises := d.promises[id := Resumed(response)])))
  }

  function SubmitAndResolve(s: State, caller: Account, id: nat, response: Response): Option<State> {
    var t := SubmitOutput(s, caller, id);
    if t.None? then None else Resolve(t.value, caller, id, response.(refundUsd := None))
  }

  // ---- on_execution_response ----

  /** What a finished run is charged: its cost, capped at what was attached for compute. */
  function Charge(f: Fees, r: Request, m: Metrics): nat {
    Min(Cost(f, m), SaturatingSub(r.payment, StoragePart(r)))
  }

  /** Credit the developers of a live project: the author's share and the rest to its owner. */
  function Earn(earnings: map<Account, nat>, row: Option<PriceRow>, owner: Account, due: nat): map<Account, nat> {
    if row.Some? && SplitPayment(due, row.value.shareBp).0 > 0 then
      var split := SplitPayment(due, row.value.shareBp);
      Credit(Credit(earnings, row.value.author, split.0), owner, split.1)
    else
      Credit(earnings, owner, due)
  }

  /** The price a successful run is settled at: the table's, or all that was attached. */
  function PriceOf(c: Config, r: Request): nat {
    var row := RowFor(c.pricing, r.source, r.input);
    if row.Some? then row.value.price else r.attached
  }

  /** Divide the attached stablecoin of a successful run. */
  function Pay(b: Books, c: Config, r: Request, guestRefund: nat): Books {
    if r.attached == 0 then b
    else
      var settled := SettleAttached(r.attached, PriceOf(c, r), guestRefund);
      var t := ReturnUsd(b, r.sender, settled.0);
      if settled.1 == 0 then t
      else if !r.source.Project? || r.source.id !in c.projects then ReturnUsd(t, r.sender, settled.1)
      else
        var row := RowFor(c.pricing, r.source, r.input);
        t.(earnings := Earn(t.earnings, row, c.projects[r.source.id], settled.1))
  }

  /** How the callback ends a request, given what its yield holds. */
  function EndingOf(c: Config, r: Request, y: Yield): Ending {
    match y
    case Waiting => Ending(TimedOut, r, c.fees, c.fees.base, SaturatingSub(r.payment, c.fees.base))
    case Resumed(response) =>
      var cost := Charge(c.fees, r, response.metrics);
      Ending(if response.success then Succeeded else Failed, r, c.fees, cost, SaturatingSub(r.payment, cost))
  }

  function SettleUsd(b: Books, c: Config, r: Request, y: Yield): Books {
    if y.Resumed? && y.response.success then Pay(b, c, r, y.response.refundUsd.GetOr(0))
    else ReturnUsd(b, r.sender, r.attached)
  }

  function SettleDesk(d: Desk, c: Config, id: nat, y: Yield): Desk
    requires id in d.pending
  {
    EndAs(d.(executions := d.executions + 1), id, EndingOf(c, d.pending[id], y))
  }

  /** End a pending request with what its yield holds: the NEAR side and the stablecoin side. */
  function Settle(s: State, id: nat, y: Yield): State
    requires id in s.desk.pending
  {
    State(s.config, SettleUsd(s.books, s.config, s.desk.pending[id], y), SettleDesk(s.desk, s.config, id, y))
  }

  function Spent(d: Desk, id: nat): Desk {
    d.(promises := d.promises - {id})
  }

  /** The callback of the yield created for `id`, resumed or timed out. */
  function OnResponse(s: State, id: nat): Option<State> {
    if id !in s.desk.promises then None
    else
      var spent := s.(desk := Spent(s.desk, id));
      if id in s.desk.pending then Some(Settle(spent, id, s.desk.promises[id])) else Some(spent)
  }

  /** A callback that runs out of gas: the yield is spent and the contract's state is not touched. */
  function LoseCallback(s: State, id: nat): Option<State> {
    if id !in s.desk.promises then None else Some(s.(desk := Spent(s.desk, id)))
  }

  // ---- cancels ----

  /** What a stale request is charged: the compute estimate once its output was delivered. */
  function StaleCharge(f: Fees, r: Request): nat {
    if r.outputSubmitted then Estimate(f, r.limits) else f.base
  }

  function StaleEnding(f: Fees, r: Request): Ending {
    var kept := Min(r.payment, StaleCharge(f, r));
    Ending(CancelledStale, r, f, kept, r.payment - kept)
  }

  /** By its sender, after the timeout, unless the charge cannot be computed. */
  predicate MayCancelStale(r: Request, caller: Account, now: nat) {
    && caller == r.sender && now > r.timestamp + EXECUTION_TIMEOUT
    && (r.outputSubmitted ==> EstimateIsDefined(r.limits))
  }

  function CancelStale(s: State, caller: Account, id: nat, now: nat): Option<State> {
    if id !in s.desk.pending || !MayCancelStale(s.desk.pending[id], caller, now) then None
    else Some(DropStale(s, id))
  }

  /** Charge the stale request, and give the attached stablecoin back to its sender. */
  function DropStale(s: State, id: nat): State
    requires id in s.desk.pending
  {
    var r := s.desk.pending[id];
    State(s.config, ReturnUsd(s.books, r.sender, r.attached), EndAs(s.desk, id, StaleEnding(s.config.fees, r)))
  }

  /** One owner cancel that gives everything back. */
  function CancelWhole(s: State, id: nat): State
    requires id in s.desk.pending
  {
    var r := s.desk.pending[id];
    State(s.config, ReturnUsd(s.books, r.sender, r.attached),
          End(s.desk, id, CancelledByOwner, s.config.fees, 0, r.payment))
  }

  function EmergencyCancel(s: State, caller: Account, id: nat): Option<State> {
    if caller != s.config.owner || id !in s.desk.pending then None else Some(CancelWhole(s, id))
  }

  /** One turn of `cancel_pending_requests`: NEAR goes back, the attached stablecoin does not. */
  function CancelListed(s: State, id: nat): State {
    if id !in s.desk.pending then s
    else
      var r := s.desk.pending[id];
      State(s.config, s.books.(writtenOff := s.books.writtenOff + r.attached),
            End(s.desk, id, CancelledByOwner, s.config.fees, 0, r.payment))
  }

  function CancelEach(s: State, ids: seq<nat>): State
    decreases |ids|
  {
    if ids == [] then s else CancelEach(CancelListed(s, ids[0]), ids[1..])
  }

  function CancelPending(s: State, caller: Account, ids: seq<nat>): Option<State> {
    if caller != s.config.owner then None else Some(CancelEach(s, ids))
  }

  /** Cancel the listed pending requests one after another, giving everything back. */
  function CancelWholeEach(s: State, ids: seq<nat>): State
    decreases |ids|
  {
    if ids == [] then s
    else if ids[0] in s.desk.pending then CancelWholeEach(CancelWhole(s, ids[0]), ids[1..])
    else CancelWholeEach(s, ids[1..])
  }

  /** The first `limit` pending ids from `from` up to, not including, `end`. */
  function FirstPending(pending: map<nat, Request>, from: nat, end: nat, limit: nat): seq<nat>
    requires from <= end
    decreases end - from
  {
    if from == end || limit == 0 then []
    else if from in pending then [from] + FirstPending(pending, from + 1, end, limit - 1)
    else FirstPending(pending, from + 1, end, limit)
  }

  function ClearAll(s: State, caller: Account, limit: Option<nat>): Option<State> {
    if caller != s.config.owner then None
    else Some(CancelWholeEach(s, FirstPending(s.desk.pending, 0, s.desk.nextId, limit.GetOr(100))))
  }

  // ---- stablecoin in and out ----

  /** `ft_on_transfer` with the deposit action, from the configured token. */
  function DepositBalance(s: State, token: Account, sender: Account, amount: nat): Option<State> {
    if s.config.token != Some(token) then None
    else Some(s.(books := s.books.(balances := Credit(s.books.balances, sender, amount),
                                   deposited := s.books.deposited + amount)))
  }

  function Withdraw(s: State, caller: Account, deposit: nat): Option<State> {
    var b := s.books;
    if deposit < 1 || Get(b.earnings, caller) == 0 || s.config.token.None? then None
    else Some(s.(books := b.(earnings := b.earnings - {caller},
                             withdrawals := b.withdrawals[b.nextWithdrawal := Withdrawal(caller, b.earnings[caller])],
                             nextWithdrawal := b.nextWithdrawal + 1)))
  }

  /** The withdrawal's callback: done, or rolled back. */
  function OnWithdraw(s: State, w: nat, ok: bool): Option<State> {
    var b := s.books;
    if w !in b.withdrawals then None
    else
      var d := b.withdrawals[w];
      var t := b.(withdrawals := b.withdrawals - {w});
      Some(s.(books := if ok then t.(withdrawn := t.withdrawn + d.amount)
                       else t.(earnings := Credit(t.earnings, d.developer, d.amount))))
  }

  // ---- owner settings ----

  /** What `set_project_pricing` accepts: 1 to 32 rows, each named, each with a share of at most the
      whole, no operation twice. */
  predicate ValidPricing(p: Pricing) {
    && 1 <= |p.operations| <= MAX_PROJECT_OPERATIONS
    && (forall i :: 0 <= i < |p.operations| ==>
          Integers.Trim(p.operations[i].operation) != [] && p.operations[i].shareBp <= FULL_SHARE_BP)
    && (forall i, j :: 0 <= i < j < |p.operations| ==> p.operations[i].operation != p.operations[j].operation)
  }

  datatype Setting =
    | SetFees(base: Option<nat>, perMillion: Option<nat>, perMs: Option<nat>, perCompileMs: Option<nat>)
    | SetPricing(project: string, pricing: Pricing)
    | RemovePricing(project: string)
    | SetToken(token: Option<Account>)
    | SetPaused(paused: bool)
    | SetOwner(account: Account)
    | SetOperator(account: Account)

  /** An owner setting; only a price can be refused. */
  function Configure(c: Config, caller: Account, change: Setting): Option<Config> {
    if caller != c.owner then None
    else match change
      case SetFees(base, perMillion, perMs, perCompileMs) =>
        Some(c.(fees := Fees(base.GetOr(c.fees.base), perMillion.GetOr(c.fees.perMillionInstructions),
                             perMs.GetOr(c.fees.perMs), perCompileMs.GetOr(c.fees.perCompileMs))))
      case SetPricing(project, pricing) =>
        if project in c.projects && ValidPricing(pricing)
        then Some(c.(pricing := c.pricing[project := pricing])) else None
      case RemovePricing(project) => Some(c.(pricing := c.pricing - {project}))
      case SetToken(token) => Some(c.(token := token))
      case SetPaused(paused) => Some(c.(paused := paused))
      case SetOwner(account) => Some(c.(owner := account))
      case SetOperator(account) => Some(c.(operator := account))
  }

  function ConfigureState(s: State, caller: Account, change: Setting): Option<State> {
    var c := Configure(s.config, caller, change);
    if c.None? then None else Some(s.(config := c.value))
  }

  /** A project registered, transferred or deleted by the project registry. */
  function ProjectOwnerChanged(s: State, project: string, owner: Option<Account>): Option<State> {
    var ps := s.config.projects;
    Some(s.(config := s.config.(projects := if owner.Some? then ps[project := owner.value] else ps - {project})))
  }

  // ---- steps and runs ----

  datatype Call =
    | CallRequest(args: RequestArgs)
    | CallSubmit(caller: Account, id: nat)
    | CallResolve(caller: Account, id: nat, response: Response)
    | CallSubmitAndResolve(caller: Account, id: nat, response: Response)
    | Callback(id: nat)
    | CallbackLost(id: nat)
    | CallCancelStale(caller: Account, id: nat, now: nat)
    | CallEmergencyCancel(caller: Account, id: nat)
    | CallCancelPending(caller: Account, ids: seq<nat>)
    | CallClearAll(caller: Account, limit: Option<nat>)
    | CallDeposit(token: Account, caller: Account, amount: nat)
    | CallWithdraw(caller: Account, deposit: nat)
    | WithdrawCallback(w: nat, ok: bool)
    | CallConfigure(caller: Account, setting: Setting)
    | ProjectChanged(project: string, projectOwner: Option<Account>)

  function Step(s: State, c: Call): Option<State> {
    match c
    case CallRequest(args) => RequestExecution(s, args)
    case CallSubmit(caller, id) => SubmitOutput(s, caller, id)
    case CallResolve(caller, id, response) => Resolve(s, caller, id, response)
    case CallSubmitAndResolve(caller, id, response) => SubmitAndResolve(s, caller, id, response)
    case Callback(id) => OnResponse(s, id)
    case CallbackLost(id) => LoseCallback(s, id)
    case CallCancelStale(caller, id, now) => CancelStale(s, caller, id, now)
    case CallEmergencyCancel(caller, id) => EmergencyCancel(s, caller, id)
    case CallCancelPending(caller, ids) => CancelPending(s, caller, ids)
    case CallClearAll(caller, limit) => ClearAll(s, caller, limit)
    case CallDeposit(token, caller, amount) => DepositBalance(s, token, caller, amount)
    case CallWithdraw(caller, deposit) => Withdraw(s, caller, deposit)
    case WithdrawCallback(w, ok) => OnWithdraw(s, w, ok)
    case CallConfigure(caller, setting) => ConfigureState(s, caller, setting)
    case ProjectChanged(project, owner) => ProjectOwnerChanged(s, project, owner)
  }

  /** A call that panics leaves the state as it was. */
  function After(s: State, c: Call): State {
    Step(s, c).GetOr(s)
  }

  /** The state after a sequence of calls and callbacks, in whatever order they arrive. */
  function Run(s: State, calls: seq<Call>): State
    decreases |calls|
  {
    if calls == [] then s else Run(After(s, calls[0]), calls[1..])
  }
}
