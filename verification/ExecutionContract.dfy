/** The contract object whose methods update its maps in place, each proved against the state machine
    of module `Execution`. A method answers whether the call went through; a call that panics answers
    `false` and changes nothing. */
module ExecutionContract {
  import opened Options
  import opened Sums
  import opened Charges
  import opened Execution
  import Integers

  class Contract {
    var owner: Account
    var operator: Account
    var paused: bool
    var fees: Fees
    var token: Option<Account>
    var projects: map<string, Account>
    var pricing: map<string, Pricing>

    var nextId: nat
    var pending: map<nat, Request>
    var executions: nat
    var feesCollected: nat

    var balances: map<Account, nat>
    var earnings: map<Account, nat>

    // the runtime's side: yields and outgoing transfers whose callbacks are outstanding
    var promises: map<nat, Yield>
    var withdrawals: map<nat, Withdrawal>
    var nextWithdrawal: nat

    // history, for the proofs
    ghost var deposited: nat
    ghost var withdrawn: nat
    ghost var writtenOff: nat
    ghost var ended: map<nat, Ending>
    ghost var refunded: map<Account, nat>

    ghost function ConfigView(): Config
      reads this
    {
      Config(owner, operator, paused, fees, token, projects, pricing)
    }

    ghost function BooksView(): Books
      reads this
    {
      Books(balances, earnings, withdrawals, nextWithdrawal, deposited, withdrawn, writtenOff)
    }

    ghost function DeskView(): Desk
      reads this
    {
      Desk(nextId, pending, executions, feesCollected, promises, ended, refunded)
    }

    ghost function View(): State
      reads this
    {
      State(ConfigView(), BooksView(), DeskView())
    }

    constructor (ownerId: Account, operatorId: Option<Account>)
      ensures View() == Init(ownerId, operatorId)
    {
      owner, operator := ownerId, operatorId.GetOr(ownerId);
      paused, fees, token, projects, pricing := false, INITIAL_FEES, None, map[], map[];
      nextId, pending, executions, feesCollected := 0, map[], 0, 0;
      balances, earnings := map[], map[];
      promises, withdrawals, nextWithdrawal := map[], map[], 0;
      deposited, withdrawn, writtenOff, ended, refunded := 0, 0, 0, map[], map[];
    }

    /** The checks of `request_execution`, in the order the contract makes them. */
    method CheckRequest(a: RequestArgs) returns (ok: bool)
      ensures ok == Admissible(View(), a)
    {
      if paused || !a.profileOk || !a.sourceOk {
        return false;
      }
      if a.source.Project? && a.source.id !in projects {
        return false;
      }
      var limits := a.limits.GetOr(DEFAULT_LIMITS);
      var compileOnly := a.compileOnly || a.limits.None?;
      if (a.isWasmUrl && a.forceRebuild) || (a.storeOnFastfs && !a.forceRebuild) {
        return false;
      }
      if compileOnly && InputLen(a.input) != 0 {
        return false;
      }
      if !compileOnly && !WithinCaps(limits) {
        return false;
      }
      var estimated := if compileOnly then fees.base else Estimate(fees, limits);
      if !compileOnly && a.source.Project? && a.source.id in pricing {
        var row := RowFor(pricing, a.source, a.input);
        if row.None? || a.attached < row.value.price {
          return false;
        }
      }
      if a.attached > 0 && (!a.source.Project? || Get(balances, a.caller) < a.attached) {
        return false;
      }
      return a.deposit >= estimated + InputStorageDeposit(InputLen(a.input));
    }

    method DebitBalance(account: Account, amount: nat)
      requires amount <= Get(balances, account)
      modifies this`balances
      ensures BooksView() == Debit(old(BooksView()), account, amount)
    {
      if amount > 0 {
        balances := balances[account := Get(balances, account) - amount];
      }
    }

    method EnterRequest(r: Request)
      modifies this`nextId, this`promises, this`pending
      ensures DeskView() == Enter(old(DeskView()), r)
    {
      var id := nextId;
      nextId := nextId + 1;
      promises := promises[id := Waiting];
      pending := pending[id := r];
    }

    method RequestExecution(a: RequestArgs) returns (ok: bool)
      modifies this`balances, this`nextId, this`promises, this`pending
      ensures Did(ok, old(View()), Execution.RequestExecution(old(View()), a), View())
    {
      ok := CheckRequest(a);
      if !ok {
        return;
      }
      DebitBalance(a.caller, a.attached);
      EnterRequest(NewRequest(Config(owner, operator, paused, fees, token, projects, pricing), a));
    }

    method SubmitExecutionOutput(caller: Account, id: nat) returns (ok: bool)
      modifies this`pending
      ensures Did(ok, old(View()), SubmitOutput(old(View()), caller, id), View())
    {
      if caller != operator || id !in pending || pending[id].outputSubmitted {
        return false;
      }
      pending := pending[id := pending[id].(outputSubmitted := true)];
      return true;
    }

    method ResolveExecution(caller: Account, id: nat, response: Response) returns (ok: bool)
      modifies this`promises
      ensures Did(ok, old(View()), Resolve(old(View()), caller, id, response), View())
    {
      if caller != operator || id !in pending {
        return false;
      }
      if id !in promises || !promises[id].Waiting? {
        return false;
      }
      promises := promises[id := Resumed(response)];
      return true;
    }

    /** Submit and resolve in one call: a refused resume takes the stored output back with it. */
    method SubmitExecutionOutputAndResolve(caller: Account, id: nat, response: Response) returns (ok: bool)
      modifies this`pending, this`promises
      ensures Did(ok, old(View()), SubmitAndResolve(old(View()), caller, id, response), View())
    {
      var stored := pending;
      ok := SubmitExecutionOutput(caller, id);
      if ok {
        ok := ResolveExecution(caller, id, response.(refundUsd := None));
        if !ok {
          pending := stored;
        }
      }
    }

    /** `return_attached_usd`. */
    method ReturnAttachedUsd(account: Account, amount: nat)
      modifies this`balances
      ensures BooksView() == ReturnUsd(old(BooksView()), account, amount)
    {
      if amount != 0 {
        balances := balances[account := Get(balances, account) + amount];
      }
    }

    /** Take a request out of `pending` and book its fee. */
    method Finish(id: nat, how: How, booked: nat, refund: nat)
      requires id in pending
      modifies this`pending, this`feesCollected, this`ended, this`refunded
      ensures DeskView() == End(old(DeskView()), id, how, fees, booked, refund)
    {
      ended := ended[id := Ending(how, pending[id], fees, booked, refund)];
      if refund > 0 {
        refunded := refunded[pending[id].payer := Get(refunded, pending[id].payer) + refund];
      }
      pending := pending - {id};
      feesCollected := feesCollected + booked;
    }

    /** Credit the author and the owner of a live project. */
    method CreditDevelopers(row: Option<PriceRow>, projectOwner: Account, due: nat)
      modifies this`earnings
      ensures earnings == Earn(old(earnings), row, projectOwner, due)
    {
      var split := if row.Some? then SplitPayment(due, row.value.shareBp) else (0, due);
      if split.0 > 0 {
        earnings := earnings[row.value.author := Get(earnings, row.value.author) + split.0];
        earnings := earnings[projectOwner := Get(earnings, projectOwner) + split.1];
      } else {
        earnings := earnings[projectOwner := Get(earnings, projectOwner) + due];
      }
    }

    /** The stablecoin half of a successful settlement. */
    method SettleSuccess(r: Request, guestRefund: nat)
      modifies this`balances, this`earnings
      ensures BooksView() == Pay(old(BooksView()), ConfigView(), r, guestRefund)
    {
      if r.attached == 0 {
        return;
      }
      var row := RowFor(pricing, r.source, r.input);
      var price := if row.Some? then row.value.price else r.attached;
      var (refund, due) := SettleAttached(r.attached, price, guestRefund);
      ReturnAttachedUsd(r.sender, refund);
      if due > 0 {
        if r.source.Project? && r.source.id in projects {
          CreditDevelopers(row, projects[r.source.id], due);
        } else {
          ReturnAttachedUsd(r.sender, due);
        }
      }
    }

    /** The stablecoin half of any settlement. */
    method SettleStablecoin(r: Request, response: Yield)
      modifies this`balances, this`earnings
      ensures BooksView() == SettleUsd(old(BooksView()), ConfigView(), r, response)
    {
      if response.Resumed? && response.response.success {
        SettleSuccess(r, response.response.refundUsd.GetOr(0));
      } else {
        ReturnAttachedUsd(r.sender, r.attached);
      }
    }

    /** The NEAR half: what is booked, what goes back to the payer. */
    method SettleNear(id: nat, response: Yield)
      requires id in pending
      modifies this`pending, this`feesCollected, this`ended, this`refunded, this`executions
      ensures DeskView() == SettleDesk(old(DeskView()), ConfigView(), id, response)
    {
      executions := executions + 1;
      var r := pending[id];
      var how, cost := TimedOut, fees.base;
      if response.Resumed? {
        how := if response.response.success then Succeeded else Failed;
        cost := Min(Cost(fees, response.response.metrics),
                    SaturatingSub(r.payment, InputStorageDeposit(InputLen(r.input))));
      }
      Finish(id, how, cost, SaturatingSub(r.payment, cost));
    }

    method SettleRequest(id: nat, response: Yield)
      requires id in pending
      modifies this`pending, this`feesCollected, this`ended, this`refunded, this`executions,
               this`balances, this`earnings
      ensures BooksView() == SettleUsd(old(BooksView()), ConfigView(), old(pending)[id], response)
      ensures DeskView() == SettleDesk(old(DeskView()), ConfigView(), id, response)
    {
      var request := pending[id];
      SettleNear(id, response);
      SettleStablecoin(request, response);
    }

    method SettleWhole(id: nat, response: Yield)
      requires id in pending
      modifies this`pending, this`feesCollected, this`ended, this`refunded, this`executions,
               this`balances, this`earnings
      ensures View() == Settle(old(View()), id, response)
    {
      SettleRequest(id, response);
    }

    method OnExecutionResponse(id: nat) returns (ok: bool)
      modifies this`promises, this`pending, this`feesCollected, this`ended, this`refunded, this`executions,
               this`balances, this`earnings
      ensures Did(ok, old(View()), OnResponse(old(View()), id), View())
    {
      if id !in promises {
        return false;
      }
      var response := promises[id];
      promises := promises - {id};
      if id in pending {
        SettleWhole(id, response);
      }
      ok := true;
    }

    method CancelStaleExecution(caller: Account, id: nat, now: nat) returns (ok: bool)
      modifies this`pending, this`feesCollected, this`ended, this`refunded, this`balances
      ensures Did(ok, old(View()), CancelStale(old(View()), caller, id, now), View())
    {
      if id !in pending {
        return false;
      }
      var r := pending[id];
      if caller != r.sender || now <= r.timestamp + EXECUTION_TIMEOUT {
        return false;
      }
      if r.outputSubmitted && !EstimateIsDefined(r.limits) {
        return false;
      }
      EndStale(id);
      return true;
    }

    method EndStale(id: nat)
      requires id in pending
      modifies this`pending, this`feesCollected, this`ended, this`refunded, this`balances
      ensures View() == DropStale(old(View()), id)
    {
      var r := pending[id];
      ChargeStale(id);
      ReturnAttachedUsd(r.sender, r.attached);
    }

    /** What a stale request is charged, and the rest of its payment back. */
    method ChargeStale(id: nat)
      requires id in pending
      modifies this`pending, this`feesCollected, this`ended, this`refunded
      ensures DeskView() == EndAs(old(DeskView()), id, StaleEnding(fees, old(pending)[id]))
    {
      var r := pending[id];
      var charge := if r.outputSubmitted then Estimate(fees, r.limits) else fees.base;
      var kept := Min(r.payment, charge);
      Finish(id, CancelledStale, kept, r.payment - kept);
    }

    method CancelOne(id: nat)
      requires id in pending
      modifies this`pending, this`feesCollected, this`ended, this`refunded, this`balances
      ensures View() == CancelWhole(old(View()), id)
    {
      var r := pending[id];
      Finish(id, CancelledByOwner, 0, r.payment);
      ReturnAttachedUsd(r.sender, r.attached);
    }

    method EmergencyCancelExecution(caller: Account, id: nat) returns (ok: bool)
      modifies this`pending, this`feesCollected, this`ended, this`refunded, this`balances
      ensures Did(ok, old(View()), EmergencyCancel(old(View()), caller, id), View())
    {
      if caller != owner || id !in pending {
        return false;
      }
      CancelOne(id);
      return true;
    }

    method CancelOneListed(id: nat) returns (did: bool)
      modifies this`pending, this`feesCollected, this`ended, this`refunded, this`writtenOff
      ensures View() == CancelListed(old(View()), id)
      ensures did == (id in old(pending))
      ensures |pending| + (if did then 1 else 0) == |old(pending)|
    {
      did := id in pending;
      if did {
        var r := pending[id];
        writtenOff := writtenOff + r.attached;
        CardinalityOfRemoval(pending, id);
        Finish(id, CancelledByOwner, 0, r.payment);
      }
    }

    /** The listed requests, in order; an id that is not pending, or listed again, is skipped. */
    method CancelPendingRequests(caller: Account, ids: seq<nat>) returns (ok: bool, cancelled: nat)
      modifies this`pending, this`feesCollected, this`ended, this`refunded, this`writtenOff
      ensures Did(ok, old(View()), CancelPending(old(View()), caller, ids), View())
      ensures ok ==> cancelled + |pending| == |old(pending)|
    {
      if caller != owner {
        return false, 0;
      }
      cancelled := 0;
      assert ids[0..] == ids;
      for i := 0 to |ids|
        invariant CancelEach(View(), ids[i..]) == CancelEach(old(View()), ids)
        invariant cancelled + |pending| == |old(pending)|
      {
        assert ids[i..][0] == ids[i] && ids[i..][1..] == ids[i + 1..];
        var did := CancelOneListed(ids[i]);
        if did {
          cancelled := cancelled + 1;
        }
      }
      assert ids[|ids|..] == [];
      return true, cancelled;
    }

    /** One turn of the sweep, with room for `left` more. */
    method SweepAt(id: nat, left: nat, ghost target: State, ghost count: int) returns (did: nat)
      requires id < nextId && left > 0 && SweepsTo(View(), id, nextId, left, target, count)
      modifies this`pending, this`feesCollected, this`ended, this`refunded, this`balances
      ensures did <= 1 && SweepsTo(View(), id + 1, nextId, left - did, target, count - did)
    {
      SweepGoesOn(View(), id, nextId, left, target, count);
      did := 0;
      if id in pending {
        CancelOne(id);
        did := 1;
      }
    }

    /** The sweep from id 0, stopping at the limit. */
    method Sweep(limit: nat, ghost target: State, ghost count: int) returns (cleared: nat)
      requires SweepsTo(View(), 0, nextId, limit, target, count)
      modifies this`pending, this`feesCollected, this`ended, this`refunded, this`balances
      ensures View() == target && cleared == count
    {
      cleared := 0;
      var id := 0;
      while id < nextId && cleared < limit
        invariant 0 <= id <= nextId && cleared <= limit
        invariant SweepsTo(View(), id, nextId, limit - cleared, target, count - cleared)
      {
        var did := SweepAt(id, limit - cleared, target, count - cleared);
        cleared := cleared + did;
        id := id + 1;
      }
      SweepIsDone(View(), id, nextId, limit - cleared, target, count - cleared);
    }

    method ClearAllPendingRequests(caller: Account, limit: Option<nat>) returns (ok: bool, cleared: nat)
      modifies this`pending, this`feesCollected, this`ended, this`refunded, this`balances
      ensures Did(ok, old(View()), ClearAll(old(View()), caller, limit), View())
      ensures ok ==> cleared == |FirstPending(old(pending), 0, old(nextId), limit.GetOr(100))|
    {
      if caller != owner {
        return false, 0;
      }
      ghost var ids := FirstPending(pending, 0, nextId, limit.GetOr(100));
      cleared := Sweep(limit.GetOr(100), Swept(View(), 0, nextId, limit.GetOr(100)), |ids|);
      ok := true;
    }

    /** `ft_on_transfer`, deposit action. */
    method FtOnTransferDeposit(tokenContract: Account, sender: Account, amount: nat) returns (ok: bool)
      modifies this`balances, this`deposited
      ensures Did(ok, old(View()), DepositBalance(old(View()), tokenContract, sender, amount), View())
    {
      if token != Some(tokenContract) {
        return false;
      }
      balances := balances[sender := Get(balances, sender) + amount];
      deposited := deposited + amount;
      return true;
    }

    method WithdrawDeveloperEarnings(caller: Account, deposit: nat) returns (ok: bool)
      modifies this`earnings, this`withdrawals, this`nextWithdrawal
      ensures Did(ok, old(View()), Withdraw(old(View()), caller, deposit), View())
    {
      if deposit < 1 {
        return false;
      }
      var balance := Get(earnings, caller);
      if balance == 0 || token.None? {
        return false;
      }
      earnings := earnings - {caller};
      withdrawals := withdrawals[nextWithdrawal := Withdrawal(caller, balance)];
      nextWithdrawal := nextWithdrawal + 1;
      return true;
    }

    method OnWithdrawDeveloperEarnings(w: nat, transferred: bool) returns (ok: bool)
      modifies this`earnings, this`withdrawals, this`withdrawn
      ensures Did(ok, old(View()), OnWithdraw(old(View()), w, transferred), View())
    {
      if w !in withdrawals {
        return false;
      }
      var d := withdrawals[w];
      withdrawals := withdrawals - {w};
      if transferred {
        withdrawn := withdrawn + d.amount;
      } else {
        earnings := earnings[d.developer := Get(earnings, d.developer) + d.amount];
      }
      return true;
    }

    method SetPricing(caller: Account, base: Option<nat>, perMillion: Option<nat>, perMs: Option<nat>,
                      perCompileMs: Option<nat>) returns (ok: bool)
      modifies this`fees
      ensures Did(ok, old(View()),
                  ConfigureState(old(View()), caller, SetFees(base, perMillion, perMs, perCompileMs)), View())
    {
      if caller != owner {
        return false;
      }
      if base.Some? {
        fees := fees.(base := base.value);
      }
      if perMillion.Some? {
        fees := fees.(perMillionInstructions := perMillion.value);
      }
      if perMs.Some? {
        fees := fees.(perMs := perMs.value);
      }
      if perCompileMs.Some? {
        fees := fees.(perCompileMs := perCompileMs.value);
      }
      return true;
    }

    /** The checks run row by row with the names seen so far. */
    method SetProjectPricing(caller: Account, id: string, p: Pricing) returns (ok: bool)
      modifies this`pricing
      ensures Did(ok, old(View()), ConfigureState(old(View()), caller, Setting.SetPricing(id, p)), View())
    {
      if caller != owner || id !in projects {
        return false;
      }
      var ops := p.operations;
      if ops == [] || |ops| > MAX_PROJECT_OPERATIONS {
        return false;
      }
      var seen: seq<string> := [];
      for i := 0 to |ops|
        invariant |seen| == i && forall j :: 0 <= j < i ==> seen[j] == ops[j].operation
        invariant forall j :: 0 <= j < i ==>
                    Integers.Trim(ops[j].operation) != [] && ops[j].shareBp <= FULL_SHARE_BP
        invariant forall j, k :: 0 <= j < k < i ==> ops[j].operation != ops[k].operation
      {
        if Integers.Trim(ops[i].operation) == [] || ops[i].shareBp > FULL_SHARE_BP {
          return false;
        }
        if ops[i].operation in seen {
          return false;
        }
        seen := seen + [ops[i].operation];
      }
      pricing := pricing[id := p];
      return true;
    }

    method RemoveProjectPricing(caller: Account, id: string) returns (ok: bool)
      modifies this`pricing
      ensures Did(ok, old(View()), ConfigureState(old(View()), caller, RemovePricing(id)), View())
    {
      if caller != owner {
        return false;
      }
      pricing := pricing - {id};
      return true;
    }
  }

  lemma CardinalityOfRemoval(m: map<nat, Request>, id: nat)
    requires id in m
    ensures |m - {id}| + 1 == |m|
  {
    assert (m - {id}).Keys == m.Keys - {id};
    assert |m.Keys| == |m| && |(m - {id}).Keys| == |m - {id}|;
  }

  /** The state once the sweep from `from` on is done. */
  function Swept(s: State, from: nat, end: nat, limit: nat): State
    requires from <= end
  {
    CancelWholeEach(s, FirstPending(s.desk.pending, from, end, limit))
  }

  /** From here the sweep ends in `target` and cancels `count` more. */
  ghost predicate SweepsTo(s: State, from: nat, end: nat, limit: nat, target: State, count: int) {
    from <= end && Swept(s, from, end, limit) == target && |FirstPending(s.desk.pending, from, end, limit)| == count
  }

  /** A sweep cancels the request it stands at, if that is pending, and goes on behind it. */
  lemma SweepGoesOn(s: State, id: nat, end: nat, limit: nat, target: State, count: int)
    requires id < end && limit > 0 && SweepsTo(s, id, end, limit, target, count)
    ensures if id in s.desk.pending then SweepsTo(CancelWhole(s, id), id + 1, end, limit - 1, target, count - 1)
            else SweepsTo(s, id + 1, end, limit, target, count)
  {
    if id in s.desk.pending {
      var rest := FirstPending(s.desk.pending, id + 1, end, limit - 1);
      SweepLooksAhead(s.desk.pending, id, id + 1, end, limit - 1);
      assert FirstPending(s.desk.pending, id, end, limit) == [id] + rest;
      assert ([id] + rest)[0] == id && ([id] + rest)[1..] == rest;
    }
  }

  lemma SweepIsDone(s: State, id: nat, end: nat, limit: nat, target: State, count: int)
    requires SweepsTo(s, id, end, limit, target, count) && (id == end || limit == 0)
    ensures s == target && count == 0
  {
  }

  /** What a sweep picks from `from` on does not depend on the ids below. */
  lemma {:induction false} SweepLooksAhead(pending: map<nat, Request>, gone: nat, from: nat, end: nat, limit: nat)
    requires gone < from <= end
    ensures FirstPending(pending - {gone}, from, end, limit) == FirstPending(pending, from, end, limit)
    decreases end - from
  {
    if from < end && limit > 0 {
      SweepLooksAhead(pending, gone, from + 1, end, if from in pending then limit - 1 else limit);
    }
  }
}
