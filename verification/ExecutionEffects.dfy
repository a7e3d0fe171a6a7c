/** What each call of the request protocol does, account by account and request by request: who is
    debited, who is credited, which request goes, what is booked, and that nothing else moves. */
module ExecutionEffects {
  import opened Options
  import opened Sums
  import opened Charges
  import opened Execution
  import opened ExecutionLedger

  /** Of all accounts only `who` gains, and exactly `amount`. */
  ghost predicate Gains(m: map<Account, nat>, t: map<Account, nat>, who: Account, amount: nat) {
    forall a: Account :: Get(t, a) == Get(m, a) + (if a == who then amount else 0)
  }

  // ---- what a run costs ----

  /** The cost of a run is fixed by what each further unit adds. */
  lemma CostLaws(f: Fees, m: Metrics, c: nat)
    ensures Cost(f, Metrics(0, 0, None)) == f.base
    ensures Cost(f, m.(timeMs := m.timeMs + 1)) == Cost(f, m) + f.perMs
    ensures Cost(f, m.(instructions := m.instructions + 1_000_000)) == Cost(f, m) + f.perMillionInstructions
    ensures Cost(f, m.(compileMs := Some(c + 1))) == Cost(f, m.(compileMs := Some(c))) + f.perCompileMs
    ensures Cost(f, m.(compileMs := Some(0))) == Cost(f, m.(compileMs := None))
  {
    var q := m.instructions / 1_000_000;
    assert (m.instructions + 1_000_000) / 1_000_000 == q + 1;
    assert (q + 1) * f.perMillionInstructions == q * f.perMillionInstructions + f.perMillionInstructions;
    assert (m.timeMs + 1) * f.perMs == m.timeMs * f.perMs + f.perMs;
    assert (c + 1) * f.perCompileMs == c * f.perCompileMs + f.perCompileMs;
  }

  /** Instructions short of a further million cost nothing. */
  lemma PartOfAMillionIsFree(f: Fees, m: Metrics, millions: nat, rest: nat)
    requires m.instructions == millions * 1_000_000 && rest < 1_000_000
    ensures Cost(f, m.(instructions := m.instructions + rest)) == Cost(f, m)
  {
    assert (m.instructions + rest) / 1_000_000 == millions && m.instructions / 1_000_000 == millions;
  }

  /** So is the estimate, by its limits: a missing limit counts as its default, and memory as nothing. */
  lemma EstimateLaws(f: Fees, l: Limits, n: nat, memory: Option<nat>)
    ensures Estimate(f, Limits(Some(0), memory, Some(0))) == f.base
    ensures Estimate(f, l.(maxSeconds := Some(n + 1))) == Estimate(f, l.(maxSeconds := Some(n))) + 1000 * f.perMs
    ensures Estimate(f, l.(maxInstructions := Some(n + 1_000_000)))
         == Estimate(f, l.(maxInstructions := Some(n))) + f.perMillionInstructions
    ensures Estimate(f, l.(maxMemoryMb := memory)) == Estimate(f, l)
    ensures Estimate(f, l.(maxSeconds := None)) == Estimate(f, l.(maxSeconds := Some(60)))
    ensures Estimate(f, l.(maxInstructions := None)) == Estimate(f, l.(maxInstructions := Some(1_000_000_000)))
  {
    var q := n / 1_000_000;
    assert (n + 1_000_000) / 1_000_000 == q + 1;
    assert (q + 1) * f.perMillionInstructions == q * f.perMillionInstructions + f.perMillionInstructions;
    assert (n + 1) * 1000 * f.perMs == n * 1000 * f.perMs + 1000 * f.perMs;
  }

  /** Nothing is held for the first 32 KiB of input, and the storage price for each byte above. */
  lemma StorageLaws(len: nat)
    ensures len <= 32 * 1024 ==> InputStorageDeposit(len) == 0
    ensures len >= 32 * 1024 ==> InputStorageDeposit(len + 1) == InputStorageDeposit(len) + STORAGE_PRICE_PER_BYTE
  {
  }

  /** What a run may be charged at most: the payment less what is held for its input. */
  function Chargeable(r: Request): nat {
    SaturatingSub(r.payment, StoragePart(r))
  }

  /** A reported run books its cost while that is within what may be charged, and that much beyond. */
  lemma ChargeLaws(f: Fees, r: Request, m: Metrics)
    ensures Cost(f, m) <= Chargeable(r) ==> Charge(f, r, m) == Cost(f, m)
    ensures Cost(f, m) >= Chargeable(r) ==> Charge(f, r, m) == Chargeable(r)
  {
  }

  /** Unit by unit, while there is room: what one more millisecond, one more million instructions and one
      more millisecond of compilation add to the charge. */
  lemma ChargeGrows(f: Fees, r: Request, m: Metrics, c: nat)
    ensures f.base <= Chargeable(r) ==> Charge(f, r, Metrics(0, 0, None)) == f.base
    ensures Cost(f, m.(timeMs := m.timeMs + 1)) <= Chargeable(r) ==>
              Charge(f, r, m.(timeMs := m.timeMs + 1)) == Charge(f, r, m) + f.perMs
    ensures Cost(f, m.(instructions := m.instructions + 1_000_000)) <= Chargeable(r) ==>
              Charge(f, r, m.(instructions := m.instructions + 1_000_000)) == Charge(f, r, m) + f.perMillionInstructions
    ensures Cost(f, m.(compileMs := Some(c + 1))) <= Chargeable(r) ==>
              Charge(f, r, m.(compileMs := Some(c + 1))) == Charge(f, r, m.(compileMs := Some(c))) + f.perCompileMs
  {
    CostLaws(f, m, c);
  }

  // ---- admission ----

  /** When a request is admitted, check by check. */
  lemma AdmittedExactly(s: State, a: RequestArgs)
    ensures RequestExecution(s, a).Some? <==>
            && !s.config.paused && a.profileOk && a.sourceOk
            && (a.source.Project? ==> a.source.id in s.config.projects)
            && !(a.isWasmUrl && a.forceRebuild) && !(a.storeOnFastfs && !a.forceRebuild)
            && (if a.compileOnly || a.limits.None? then
                  (a.input.Some? ==> a.input.value.len == 0)
                  && a.deposit >= s.config.fees.base
                else
                  && a.limits.value.maxInstructions.GetOr(0) <= 500_000_000_000
                  && a.limits.value.maxSeconds.GetOr(0) <= 180 && a.limits.value.maxMemoryMb.GetOr(0) <= 4096
                  && a.deposit >= Estimate(s.config.fees, a.limits.value) + InputStorageDeposit(InputLen(a.input))
                  && PaysItsPrice(s.config, a))
            && (a.attached > 0 ==> a.source.Project? && a.attached <= Get(s.books.balances, a.caller))
  {
    if a.compileOnly || a.limits.None? {
      StorageLaws(0);
    }
  }

  /** A call to a priced project names an operation that is sold, and attaches at least its price. */
  predicate PaysItsPrice(c: Config, a: RequestArgs) {
    a.source.Project? && a.source.id in c.pricing ==>
      && a.input.Some? && a.input.value.len <= 10_000 && a.input.value.operation.Some?
      && var row := FindRow(c.pricing[a.source.id].operations, a.input.value.operation.value);
         row.Some? && a.attached >= row.value.price
  }

  /** The request that was entered is the one that was asked for. */
  predicate EntersAs(r: Request, a: RequestArgs) {
    && r.sender == a.caller && r.payer == a.payer.GetOr(a.caller) && r.source == a.source && r.input == a.input
    && r.payment == a.deposit && r.timestamp == a.now && r.attached == a.attached && !r.outputSubmitted
    && r.limits == a.limits.GetOr(DEFAULT_LIMITS)
  }

  /** Admission takes the attachment from the caller and from nobody else, enters one request under the next
      id with a waiting yield, and touches nothing else. */
  lemma AdmissionTakes(s: State, a: RequestArgs)
    requires RequestExecution(s, a).Some?
    ensures var t, id := RequestExecution(s, a).value, s.desk.nextId;
            && t.config == s.config && t.books == s.books.(balances := t.books.balances)
            && Gains(t.books.balances, s.books.balances, a.caller, a.attached)
            && id in t.desk.pending && EntersAs(t.desk.pending[id], a) && t.desk.pending - {id} == s.desk.pending - {id}
            && id in t.desk.promises && t.desk.promises[id].Waiting? && t.desk.promises - {id} == s.desk.promises - {id}
            && t.desk.nextId == id + 1
            && t.desk == s.desk.(nextId := id + 1, pending := t.desk.pending, promises := t.desk.promises)
  {
  }

  // ---- the operator ----

  /** Delivering an output marks that request and nothing else; once. */
  lemma SubmitMarks(s: State, caller: Account, id: nat)
    ensures SubmitOutput(s, caller, id).Some? <==>
            caller == s.config.operator && id in s.desk.pending && !s.desk.pending[id].outputSubmitted
    ensures SubmitOutput(s, caller, id).Some? ==>
              var t := SubmitOutput(s, caller, id).value;
              && t == s.(desk := s.desk.(pending := t.desk.pending)) && t.desk.pending.Keys == s.desk.pending.Keys
              && (forall i :: i in s.desk.pending && i != id ==> t.desk.pending[i] == s.desk.pending[i])
              && t.desk.pending[id].outputSubmitted && SameTerms(s.desk.pending[id], t.desk.pending[id])
  {
  }

  /** A resume leaves the response with the yield for its callback, and changes nothing else. */
  lemma ResumeLeavesTheResponse(s: State, caller: Account, id: nat, response: Response)
    ensures Resolve(s, caller, id, response).Some? <==>
            && caller == s.config.operator && id in s.desk.pending
            && id in s.desk.promises && s.desk.promises[id].Waiting?
    ensures Resolve(s, caller, id, response).Some? ==>
              var t := Resolve(s, caller, id, response).value;
              && t == s.(desk := s.desk.(promises := t.desk.promises)) && t.desk.promises.Keys == s.desk.promises.Keys
              && t.desk.promises[id] == Resumed(response)
              && (forall i :: i in s.desk.promises && i != id ==> t.desk.promises[i] == s.desk.promises[i])
  {
  }

  /** In one call: the output is marked, and the response left without its refund. */
  lemma SubmitAndResumeDoesBoth(s: State, caller: Account, id: nat, response: Response)
    requires SubmitAndResolve(s, caller, id, response).Some?
    ensures var t := SubmitAndResolve(s, caller, id, response).value;
            && id in t.desk.pending && t.desk.pending[id].outputSubmitted && t.books == s.books
            && t.desk.promises == s.desk.promises[id := Resumed(Response(response.success, response.metrics, None))]
  {
  }

  // ---- endings ----

  /** One request leaves `pending`, its ending is recorded, its fee booked and its refund transferred to its
      payer; no other request, ending or account is touched. */
  ghost predicate Ends(d: Desk, t: Desk, id: nat, how: How, booked: nat, refund: nat) {
    && id in d.pending && t.pending == d.pending - {id} && t.nextId == d.nextId
    && id in t.ended && t.ended - {id} == d.ended - {id}
    && t.ended[id].how == how && t.ended[id].request == d.pending[id]
    && t.ended[id].booked == booked && t.ended[id].refund == refund
    && t.feesCollected == d.feesCollected + booked
    && Gains(d.refunded, t.refunded, d.pending[id].payer, refund)
  }

  lemma EndEnds(d: Desk, id: nat, how: How, fees: Fees, booked: nat, refund: nat)
    requires id in d.pending
    ensures Ends(d, End(d, id, how, fees, booked, refund), id, how, booked, refund)
  {
  }

  /** The settlement callback: how each outcome ends a pending request. */
  lemma CallbackSettles(s: State, id: nat)
    requires id in s.desk.promises && id in s.desk.pending
    ensures OnResponse(s, id).Some?
    ensures var t, r, y := OnResponse(s, id).value.desk, s.desk.pending[id], s.desk.promises[id];
            && t.promises == s.desk.promises - {id} && t.executions == s.desk.executions + 1
            && (y.Waiting? ==>
                  Ends(s.desk, t, id, TimedOut, s.config.fees.base, SaturatingSub(r.payment, s.config.fees.base)))
            && (y.Resumed? ==>
                  var charge := Charge(s.config.fees, r, y.response.metrics);
                  Ends(s.desk, t, id, if y.response.success then Succeeded else Failed, charge,
                       SaturatingSub(r.payment, charge)))
  {
    var spent := Spent(s.desk, id).(executions := s.desk.executions + 1);
    var e := EndingOf(s.config, s.desk.pending[id], s.desk.promises[id]);
    EndEnds(spent, id, e.how, e.fees, e.booked, e.refund);
  }

  /** The callback of the runtime leaves the settings alone and, when it finds the yield gone, does nothing. */
  lemma CallbackKeepsSettings(s: State, id: nat)
    ensures OnResponse(s, id).Some? <==> id in s.desk.promises
    ensures OnResponse(s, id).Some? ==> OnResponse(s, id).value.config == s.config
  {
  }

  lemma ReturnGains(b: Books, a: Account, amount: nat)
    ensures Gains(b.balances, ReturnUsd(b, a, amount).balances, a, amount)
    ensures ReturnUsd(b, a, amount) == b.(balances := ReturnUsd(b, a, amount).balances)
  {
  }

  /** A cancel that earns nobody anything: the attached stablecoin goes back to the sender, whole, and to
      nobody else. */
  ghost predicate GivesBack(s: State, t: State, id: nat)
    requires id in s.desk.pending
  {
    && t.config == s.config && t.books == s.books.(balances := t.books.balances)
    && Gains(s.books.balances, t.books.balances, s.desk.pending[id].sender, s.desk.pending[id].attached)
  }

  /** The sender's cancel: only by the sender, only after ten minutes. Undelivered it costs the base fee,
      delivered the estimate, never more than was paid; the rest of the NEAR goes to the payer. */
  lemma StaleCancelSettles(s: State, caller: Account, id: nat, now: nat)
    ensures CancelStale(s, caller, id, now).Some? <==>
            && id in s.desk.pending && caller == s.desk.pending[id].sender
            && now > s.desk.pending[id].timestamp + 600_000_000_000
            && (s.desk.pending[id].outputSubmitted ==> EstimateIsDefined(s.desk.pending[id].limits))
    ensures CancelStale(s, caller, id, now).Some? ==>
              var t, r := CancelStale(s, caller, id, now).value, s.desk.pending[id];
              var charge := if r.outputSubmitted then Estimate(s.config.fees, r.limits) else s.config.fees.base;
              var kept := if r.payment <= charge then r.payment else charge;
              GivesBack(s, t, id) && Ends(s.desk, t.desk, id, CancelledStale, kept, r.payment - kept)
  {
    if CancelStale(s, caller, id, now).Some? {
      var r := s.desk.pending[id];
      var e := StaleEnding(s.config.fees, r);
      EndEnds(s.desk, id, e.how, e.fees, e.booked, e.refund);
      ReturnGains(s.books, r.sender, r.attached);
    }
  }

  lemma WholeCancelSettles(s: State, id: nat)
    requires id in s.desk.pending
    ensures GivesBack(s, CancelWhole(s, id), id)
    ensures Ends(s.desk, CancelWhole(s, id).desk, id, CancelledByOwner, 0, s.desk.pending[id].payment)
  {
    var r := s.desk.pending[id];
    EndEnds(s.desk, id, CancelledByOwner, s.config.fees, 0, r.payment);
    ReturnGains(s.books, r.sender, r.attached);
  }

  /** The owner's cancel of one request gives everything back. */
  lemma EmergencyCancelSettles(s: State, caller: Account, id: nat)
    ensures EmergencyCancel(s, caller, id).Some? <==> caller == s.config.owner && id in s.desk.pending
    ensures EmergencyCancel(s, caller, id).Some? ==>
              && GivesBack(s, EmergencyCancel(s, caller, id).value, id)
              && Ends(s.desk, EmergencyCancel(s, caller, id).value.desk, id, CancelledByOwner, 0,
                      s.desk.pending[id].payment)
  {
    if id in s.desk.pending {
      WholeCancelSettles(s, id);
    }
  }

  /** One id of the bulk cancel: the NEAR goes back, the stablecoin is written off and credited to nobody. */
  lemma ListedCancelSettles(s: State, id: nat)
    ensures id !in s.desk.pending ==> CancelListed(s, id) == s
    ensures id in s.desk.pending ==>
              var t, r := CancelListed(s, id), s.desk.pending[id];
              && t.config == s.config && t.books == s.books.(writtenOff := s.books.writtenOff + r.attached)
              && Ends(s.desk, t.desk, id, CancelledByOwner, 0, r.payment)
  {
    if id in s.desk.pending {
      EndEnds(s.desk, id, CancelledByOwner, s.config.fees, 0, s.desk.pending[id].payment);
    }
  }

  // ---- the sweep, for every request it picks ----

  /** What each account gets back when the listed requests are cancelled whole, each counted once. */
  function OwedTo(pending: map<nat, Request>, ids: seq<nat>, a: Account): nat {
    if ids == [] then 0
    else
      var here := if ids[0] in pending && pending[ids[0]].sender == a then pending[ids[0]].attached else 0;
      here + OwedTo(pending - {ids[0]}, ids[1..], a)
  }

  function NearOwedTo(pending: map<nat, Request>, ids: seq<nat>, a: Account): nat {
    if ids == [] then 0
    else
      var here := if ids[0] in pending && pending[ids[0]].payer == a then pending[ids[0]].payment else 0;
      here + NearOwedTo(pending - {ids[0]}, ids[1..], a)
  }

  /** A sweep gives every account the stablecoin it attached and the NEAR it paid for the requests that were
      picked, and books nothing. */
  lemma {:induction false} SweepPaysEach(s: State, ids: seq<nat>, a: Account)
    ensures var t := CancelWholeEach(s, ids);
            && Get(t.books.balances, a) == Get(s.books.balances, a) + OwedTo(s.desk.pending, ids, a)
            && Get(t.desk.refunded, a) == Get(s.desk.refunded, a) + NearOwedTo(s.desk.pending, ids, a)
            && t.desk.feesCollected == s.desk.feesCollected && t.books.earnings == s.books.earnings
    decreases |ids|
  {
    if ids != [] {
      if ids[0] in s.desk.pending {
        WholeCancelSettles(s, ids[0]);
        SweepPaysEach(CancelWhole(s, ids[0]), ids[1..], a);
      } else {
        assert s.desk.pending - {ids[0]} == s.desk.pending;
        SweepPaysEach(s, ids[1..], a);
      }
    }
  }

  /** `clear_all_pending_requests` is the owner's, and sweeps the lowest pending ids, 100 if not told. */
  lemma ClearAllSweeps(s: State, caller: Account, limit: Option<nat>, a: Account)
    ensures ClearAll(s, caller, limit).Some? <==> caller == s.config.owner
    ensures ClearAll(s, caller, limit).Some? ==>
              var ids := FirstPending(s.desk.pending, 0, s.desk.nextId, if limit.Some? then limit.value else 100);
              var t := ClearAll(s, caller, limit).value;
              && Get(t.books.balances, a) == Get(s.books.balances, a) + OwedTo(s.desk.pending, ids, a)
              && Get(t.desk.refunded, a) == Get(s.desk.refunded, a) + NearOwedTo(s.desk.pending, ids, a)
  {
    SweepPaysEach(s, FirstPending(s.desk.pending, 0, s.desk.nextId, limit.GetOr(100)), a);
  }

  // ---- deposits and withdrawals ----

  /** A deposit of the configured token is credited to its sender, and nothing else is. */
  lemma DepositCredits(s: State, token: Account, sender: Account, amount: nat)
    ensures DepositBalance(s, token, sender, amount).Some? <==> s.config.token == Some(token)
    ensures DepositBalance(s, token, sender, amount).Some? ==>
              var t := DepositBalance(s, token, sender, amount).value;
              && t.config == s.config && t.desk == s.desk
              && t.books == s.books.(balances := t.books.balances, deposited := s.books.deposited + amount)
              && Gains(s.books.balances, t.books.balances, sender, amount)
  {
  }

  /** A withdrawal takes all the caller's earnings, and only theirs, into flight under a number of its own. */
  lemma WithdrawalTakesAll(s: State, caller: Account, deposit: nat)
    ensures Withdraw(s, caller, deposit).Some? <==>
            deposit >= 1 && Get(s.books.earnings, caller) > 0 && s.config.token.Some?
    ensures Withdraw(s, caller, deposit).Some? ==>
              var t, w := Withdraw(s, caller, deposit).value, s.books.nextWithdrawal;
              && t.config == s.config && t.desk == s.desk && t.books.balances == s.books.balances
              && Get(t.books.earnings, caller) == 0
              && Gains(t.books.earnings, s.books.earnings, caller, Get(s.books.earnings, caller))
              && w in t.books.withdrawals && t.books.withdrawals - {w} == s.books.withdrawals - {w}
              && t.books.withdrawals[w] == Withdrawal(caller, Get(s.books.earnings, caller))
              && t.books.withdrawn == s.books.withdrawn && t.books.nextWithdrawal == w + 1
  {
  }

  /** Its callback: done, the amount is out; failed, it is the same developer's earnings again. Either way
      it is no longer in flight and nobody else's earnings move. */
  lemma WithdrawalEnds(s: State, w: nat, ok: bool)
    requires w in s.books.withdrawals
    ensures OnWithdraw(s, w, ok).Some?
    ensures var t, d := OnWithdraw(s, w, ok).value, s.books.withdrawals[w];
            && t.config == s.config && t.desk == s.desk && t.books.balances == s.books.balances
            && t.books.withdrawals == s.books.withdrawals - {w}
            && (ok ==> t.books.earnings == s.books.earnings && t.books.withdrawn == s.books.withdrawn + d.amount)
            && (!ok ==> Gains(s.books.earnings, t.books.earnings, d.developer, d.amount)
                        && t.books.withdrawn == s.books.withdrawn)
  {
  }

  // ---- settings ----

  /** A setting is the owner's, changes what it names and keeps the rest: fees not given stay, a price stands
      for its project only, and only a price can be refused. */
  lemma SettingsTakeEffect(c: Config, caller: Account, change: Setting)
    ensures caller != c.owner ==> Configure(c, caller, change).None?
    ensures caller == c.owner && !change.SetPricing? ==> Configure(c, caller, change).Some?
    ensures caller == c.owner && change.SetPricing? ==>
              (Configure(c, caller, change).Some? <==> change.project in c.projects && ValidPricing(change.pricing))
    ensures Configure(c, caller, change).Some? ==>
              var t := Configure(c, caller, change).value;
              && t.projects == c.projects
              && t.owner == (if change.SetOwner? then change.account else c.owner)
              && t.operator == (if change.SetOperator? then change.account else c.operator)
              && t.paused == (if change.SetPaused? then change.paused else c.paused)
              && t.token == (if change.SetToken? then change.token else c.token)
              && t.fees.base == (if change.SetFees? && change.base.Some? then change.base.value else c.fees.base)
              && t.fees.perMs == (if change.SetFees? && change.perMs.Some? then change.perMs.value else c.fees.perMs)
  {
  }

  lemma PricesTakeEffect(c: Config, caller: Account, change: Setting, project: string)
    requires Configure(c, caller, change).Some?
    ensures var t := Configure(c, caller, change).value;
            if change.SetPricing? && change.project == project then
              project in t.pricing && t.pricing[project] == change.pricing
            else if change.RemovePricing? && change.project == project then project !in t.pricing
            else (project in t.pricing <==> project in c.pricing)
                 && (project in c.pricing ==> t.pricing[project] == c.pricing[project])
  {
  }

  lemma FeesTakeEffect(c: Config, caller: Account, change: Setting)
    requires Configure(c, caller, change).Some?
    ensures var f, g := c.fees, Configure(c, caller, change).value.fees;
            && (g.perMillionInstructions ==
                if change.SetFees? && change.perMillion.Some? then change.perMillion.value
                else f.perMillionInstructions)
            && (g.perCompileMs ==
                if change.SetFees? && change.perCompileMs.Some? then change.perCompileMs.value else f.perCompileMs)
  {
  }

  /** The row a call is priced by is the first of its project's table with the operation the input names. */
  lemma RowIsTheTables(pricing: map<string, Pricing>, source: Source, input: Option<Input>)
    ensures RowFor(pricing, source, input).Some? <==>
            && source.Project? && source.id in pricing && input.Some? && input.value.len <= 10_000
            && input.value.operation.Some?
            && FindRow(pricing[source.id].operations, input.value.operation.value).Some?
    ensures RowFor(pricing, source, input).Some? ==>
              var p, row := pricing[source.id], RowFor(pricing, source, input).value;
              var found := FindRow(p.operations, input.value.operation.value).value;
              row.author == p.author && row.price == found.price && row.shareBp == found.shareBp
  {
  }

  // ---- refunds over runs ----

  /** The refunds of the endings whose request that account paid for. */
  function RefundsTo(ended: map<nat, Ending>, a: Account): map<nat, nat> {
    map id | id in ended && ended[id].request.payer == a :: ended[id].refund
  }

  ghost predicate RefundsReach(d: Desk) {
    forall a: Account :: Get(d.refunded, a) == Sum(RefundsTo(d.ended, a))
  }

  lemma EndReaches(d: Desk, id: nat, how: How, fees: Fees, booked: nat, refund: nat)
    requires RefundsReach(d) && id in d.pending && id !in d.ended
    ensures RefundsReach(End(d, id, how, fees, booked, refund))
  {
    var t := End(d, id, how, fees, booked, refund);
    EndEnds(d, id, how, fees, booked, refund);
    forall a: Account
      ensures Get(t.refunded, a) == Sum(RefundsTo(t.ended, a))
    {
      OneMoreRefund(d.ended, id, t.ended[id], a);
    }
  }

  lemma OneMoreRefund(ended: map<nat, Ending>, id: nat, e: Ending, a: Account)
    requires id !in ended
    ensures Sum(RefundsTo(ended[id := e], a))
         == Sum(RefundsTo(ended, a)) + (if e.request.payer == a then e.refund else 0)
  {
    if e.request.payer == a {
      assert RefundsTo(ended[id := e], a) == RefundsTo(ended, a)[id := e.refund];
      SumUpdate(RefundsTo(ended, a), id, e.refund);
    } else {
      assert RefundsTo(ended[id := e], a) == RefundsTo(ended, a);
    }
  }

  lemma SameEndingsReach(d: Desk, t: Desk)
    requires RefundsReach(d) && t.ended == d.ended && t.refunded == d.refunded
    ensures RefundsReach(t)
  {
  }

  lemma CallbackReaches(s: State, id: nat)
    requires Numbered(s) && RefundsReach(s.desk) && OnResponse(s, id).Some?
    ensures RefundsReach(OnResponse(s, id).value.desk)
  {
    var spent := Spent(s.desk, id).(executions := s.desk.executions + 1);
    SameEndingsReach(s.desk, spent);
    SameEndingsReach(s.desk, Spent(s.desk, id));
    if id in s.desk.pending {
      var e := EndingOf(s.config, s.desk.pending[id], s.desk.promises[id]);
      EndReaches(spent, id, e.how, e.fees, e.booked, e.refund);
    }
  }

  lemma {:induction false} ListedReach(s: State, ids: seq<nat>)
    requires DeskNumbered(s.desk) && RefundsReach(s.desk)
    ensures RefundsReach(CancelEach(s, ids).desk)
    decreases |ids|
  {
    if ids != [] {
      if ids[0] in s.desk.pending {
        EndReaches(s.desk, ids[0], CancelledByOwner, s.config.fees, 0, s.desk.pending[ids[0]].payment);
      }
      CancelListedCancels(s, ids[0]);
      ListedReach(CancelListed(s, ids[0]), ids[1..]);
    }
  }

  lemma {:induction false} SweptReach(s: State, ids: seq<nat>)
    requires DeskNumbered(s.desk) && RefundsReach(s.desk)
    ensures RefundsReach(CancelWholeEach(s, ids).desk)
    decreases |ids|
  {
    if ids != [] {
      if ids[0] in s.desk.pending {
        EndReaches(s.desk, ids[0], CancelledByOwner, s.config.fees, 0, s.desk.pending[ids[0]].payment);
        CancelWholeCancels(s, ids[0]);
        SweptReach(CancelWhole(s, ids[0]), ids[1..]);
      } else {
        SweptReach(s, ids[1..]);
      }
    }
  }

  lemma EndingReaches(s: State, c: Call)
    requires Numbered(s) && RefundsReach(s.desk) && EndsRequests(c) && Step(s, c).Some?
    ensures RefundsReach(Step(s, c).value.desk)
  {
    match c
    case Callback(id) => CallbackReaches(s, id);
    case CallCancelStale(caller, id, now) =>
      var e := StaleEnding(s.config.fees, s.desk.pending[id]);
      EndReaches(s.desk, id, e.how, e.fees, e.booked, e.refund);
    case CallEmergencyCancel(caller, id) =>
      EndReaches(s.desk, id, CancelledByOwner, s.config.fees, 0, s.desk.pending[id].payment);
    case CallCancelPending(caller, ids) => ListedReach(s, ids);
    case CallClearAll(caller, limit) =>
      SweptReach(s, FirstPending(s.desk.pending, 0, s.desk.nextId, limit.GetOr(100)));
  }

  lemma OthersRefundNothing(s: State, c: Call)
    requires !EndsRequests(c)
    ensures After(s, c).desk.ended == s.desk.ended && After(s, c).desk.refunded == s.desk.refunded
  {
  }

  lemma {:induction false} RunReaches(s: State, calls: seq<Call>)
    requires Inv(s) && RefundsReach(s.desk)
    ensures RefundsReach(Run(s, calls).desk)
    decreases |calls|
  {
    if calls != [] {
      var c := calls[0];
      NumberedStep(s, c);
      BalancedStep(s, c);
      AccountedStep(s, c);
      if EndsRequests(c) && Step(s, c).Some? {
        EndingReaches(s, c);
      } else if !EndsRequests(c) {
        OthersRefundNothing(s, c);
        SameEndingsReach(s.desk, After(s, c).desk);
      }
      RunReaches(After(s, c), calls[1..]);
    }
  }

  /** From `new`, after every run: the NEAR transferred to an account is exactly the refunds of the ended
      requests it paid for. */
  lemma RefundsReachPayers(owner: Account, operator: Option<Account>, calls: seq<Call>, a: Account)
    ensures var d := Run(Init(owner, operator), calls).desk; Get(d.refunded, a) == Sum(RefundsTo(d.ended, a))
  {
    var s := Init(owner, operator);
    InitInv(owner, operator);
    NothingRefunded(s.desk);
    RunReaches(s, calls);
  }

  lemma NothingRefunded(d: Desk)
    requires d.ended == map[] && d.refunded == map[]
    ensures RefundsReach(d)
  {
    forall a: Account
      ensures Get(d.refunded, a) == Sum(RefundsTo(d.ended, a))
    {
      assert RefundsTo(d.ended, a) == map[];
    }
  }
}
