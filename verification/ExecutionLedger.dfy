/** What every run of the request protocol keeps: the stablecoin books balance, every request is
    pending or ended but never both and ends at most once, and every ending accounts for the NEAR its
    request paid. */
module ExecutionLedger {
  import opened Options
  import opened Sums
  import opened Charges
  import opened Execution

  // ---- conservation of stablecoin ----

  function AttachedOf(pending: map<nat, Request>): map<nat, nat> {
    map id | id in pending :: pending[id].attached
  }

  function AmountsOf(withdrawals: map<nat, Withdrawal>): map<nat, nat> {
    map w | w in withdrawals :: withdrawals[w].amount
  }

  /** What the books hold for users, for developers and in flight, and what a bulk cancel wrote off. */
  ghost function InBooks(b: Books): nat {
    Sum(b.balances) + Sum(b.earnings) + Sum(AmountsOf(b.withdrawals)) + b.writtenOff
  }

  ghost function OnDesk(d: Desk): nat {
    Sum(AttachedOf(d.pending))
  }

  /** Everything deposited is in the books, attached to a pending request, or successfully withdrawn. */
  ghost predicate Balanced(s: State) {
    InBooks(s.books) + OnDesk(s.desk) + s.books.withdrawn == s.books.deposited
  }

  lemma CreditAdds(m: map<Account, nat>, a: Account, amount: nat)
    ensures Sum(Credit(m, a, amount)) == Sum(m) + amount
  {
    SumUpdate(m, a, Get(m, a) + amount);
  }

  /** A books operation that only puts `amount` more into balances and earnings. */
  ghost predicate Adds(b: Books, b': Books, amount: nat) {
    InBooks(b') == InBooks(b) + amount && b'.deposited == b.deposited && b'.withdrawn == b.withdrawn
  }

  lemma ReturnAdds(b: Books, a: Account, amount: nat)
    ensures Adds(b, ReturnUsd(b, a, amount), amount)
  {
    CreditAdds(b.balances, a, amount);
  }

  lemma EarnAdds(earnings: map<Account, nat>, row: Option<PriceRow>, owner: Account, due: nat)
    ensures Sum(Earn(earnings, row, owner, due)) == Sum(earnings) + due
  {
    if row.Some? && SplitPayment(due, row.value.shareBp).0 > 0 {
      var split := SplitPayment(due, row.value.shareBp);
      CreditAdds(earnings, row.value.author, split.0);
      CreditAdds(Credit(earnings, row.value.author, split.0), owner, split.1);
    } else {
      CreditAdds(earnings, owner, due);
    }
  }

  /** Paying out a successful run moves exactly what was attached. */
  lemma PayAdds(b: Books, c: Config, r: Request, guestRefund: nat)
    ensures Adds(b, Pay(b, c, r, guestRefund), r.attached)
  {
    var settled := SettleAttached(r.attached, PriceOf(c, r), guestRefund);
    var t := ReturnUsd(b, r.sender, settled.0);
    ReturnAdds(b, r.sender, settled.0);
    ReturnAdds(t, r.sender, settled.1);
    if r.source.Project? && r.source.id in c.projects {
      EarnAdds(t.earnings, RowFor(c.pricing, r.source, r.input), c.projects[r.source.id], settled.1);
    }
  }

  lemma SettleUsdAdds(b: Books, c: Config, r: Request, y: Yield)
    ensures Adds(b, SettleUsd(b, c, r, y), r.attached)
  {
    if y.Resumed? && y.response.success {
      PayAdds(b, c, r, y.response.refundUsd.GetOr(0));
    } else {
      ReturnAdds(b, r.sender, r.attached);
    }
  }

  lemma EndReleases(d: Desk, id: nat, how: How, fees: Fees, booked: nat, refund: nat)
    requires id in d.pending
    ensures OnDesk(End(d, id, how, fees, booked, refund)) == OnDesk(d) - d.pending[id].attached
  {
    assert AttachedOf(d.pending - {id}) == AttachedOf(d.pending) - {id};
    SumWithout(AttachedOf(d.pending), id);
  }

  lemma CancelWholeBalances(s: State, id: nat)
    requires id in s.desk.pending && Balanced(s)
    ensures Balanced(CancelWhole(s, id))
  {
    var r := s.desk.pending[id];
    EndReleases(s.desk, id, CancelledByOwner, s.config.fees, 0, r.payment);
    ReturnAdds(s.books, r.sender, r.attached);
  }

  lemma CancelListedBalances(s: State, id: nat)
    requires Balanced(s)
    ensures Balanced(CancelListed(s, id))
  {
    if id in s.desk.pending {
      EndReleases(s.desk, id, CancelledByOwner, s.config.fees, 0, s.desk.pending[id].payment);
    }
  }

  lemma RequestBalances(s: State, a: RequestArgs)
    requires Balanced(s) && Numbered(s) && Admissible(s, a)
    ensures Balanced(RequestExecution(s, a).value)
  {
    EnterAttaches(s.desk, NewRequest(s.config, a));
    DebitTakes(s.books, a.caller, a.attached);
  }

  lemma EnterAttaches(d: Desk, r: Request)
    requires d.nextId !in d.pending
    ensures OnDesk(Enter(d, r)) == OnDesk(d) + r.attached
  {
    assert AttachedOf(Enter(d, r).pending) == AttachedOf(d.pending)[d.nextId := r.attached];
    SumUpdate(AttachedOf(d.pending), d.nextId, r.attached);
  }

  lemma DebitTakes(b: Books, a: Account, amount: nat)
    requires amount <= Get(b.balances, a)
    ensures InBooks(Debit(b, a, amount)) == InBooks(b) - amount
    ensures Debit(b, a, amount).withdrawn == b.withdrawn && Debit(b, a, amount).deposited == b.deposited
  {
    SumUpdate(b.balances, a, Get(b.balances, a) - amount);
  }

  lemma CallbackBalances(s: State, id: nat)
    requires Balanced(s) && OnResponse(s, id).Some?
    ensures Balanced(OnResponse(s, id).value)
  {
    if id in s.desk.pending {
      var r, y := s.desk.pending[id], s.desk.promises[id];
      var e := EndingOf(s.config, r, y);
      SettleUsdAdds(s.books, s.config, r, y);
      EndReleases(s.desk, id, e.how, e.fees, e.booked, e.refund);
    }
  }

  lemma CancelStaleBalances(s: State, caller: Account, id: nat, now: nat)
    requires Balanced(s) && CancelStale(s, caller, id, now).Some?
    ensures Balanced(CancelStale(s, caller, id, now).value)
  {
    var r := s.desk.pending[id];
    var kept := Min(r.payment, StaleCharge(s.config.fees, r));
    EndReleases(s.desk, id, CancelledStale, s.config.fees, kept, r.payment - kept);
    ReturnAdds(s.books, r.sender, r.attached);
  }

  lemma SubmitBalances(s: State, caller: Account, id: nat)
    requires Balanced(s) && SubmitOutput(s, caller, id).Some?
    ensures Balanced(SubmitOutput(s, caller, id).value)
  {
    assert AttachedOf(SubmitOutput(s, caller, id).value.desk.pending) == AttachedOf(s.desk.pending);
  }

  lemma WithdrawBalances(s: State, caller: Account, deposit: nat)
    requires Balanced(s) && Numbered(s) && Withdraw(s, caller, deposit).Some?
    ensures Balanced(Withdraw(s, caller, deposit).value)
  {
    var b := s.books;
    var amount := b.earnings[caller];
    SumWithout(b.earnings, caller);
    assert AmountsOf(b.withdrawals[b.nextWithdrawal := Withdrawal(caller, amount)])
        == AmountsOf(b.withdrawals)[b.nextWithdrawal := amount];
    SumUpdate(AmountsOf(b.withdrawals), b.nextWithdrawal, amount);
  }

  lemma OnWithdrawBalances(s: State, w: nat, ok: bool)
    requires Balanced(s) && OnWithdraw(s, w, ok).Some?
    ensures Balanced(OnWithdraw(s, w, ok).value)
  {
    var d := s.books.withdrawals[w];
    assert AmountsOf(s.books.withdrawals - {w}) == AmountsOf(s.books.withdrawals) - {w};
    SumWithout(AmountsOf(s.books.withdrawals), w);
    CreditAdds(s.books.earnings, d.developer, d.amount);
  }

  /** The calls that open a request or work on its yield. */
  predicate WorksOnYield(c: Call) {
    c.CallRequest? || c.CallSubmit? || c.CallResolve? || c.CallSubmitAndResolve? || c.CallbackLost?
  }

  /** The calls that end requests. */
  predicate EndsRequests(c: Call) {
    c.Callback? || c.CallCancelStale? || c.CallEmergencyCancel? || c.CallCancelPending? || c.CallClearAll?
  }

  /** The calls that leave requests and endings alone. */
  predicate OnlyMoneyOrSettings(c: Call) {
    c.CallDeposit? || c.CallWithdraw? || c.WithdrawCallback? || c.CallConfigure? || c.ProjectChanged?
  }

  lemma YieldBalances(s: State, c: Call)
    requires Balanced(s) && Numbered(s) && WorksOnYield(c) && Step(s, c).Some?
    ensures Balanced(Step(s, c).value)
  {
    match c
    case CallRequest(a) => RequestBalances(s, a);
    case CallSubmit(caller, id) => SubmitBalances(s, caller, id);
    case CallSubmitAndResolve(caller, id, response) => SubmitBalances(s, caller, id);
    case _ =>
  }

  lemma EndBalances(s: State, c: Call)
    requires Balanced(s) && Numbered(s) && EndsRequests(c) && Step(s, c).Some?
    ensures Balanced(Step(s, c).value)
  {
    match c
    case Callback(id) => CallbackBalances(s, id);
    case CallCancelStale(caller, id, now) => CancelStaleBalances(s, caller, id, now);
    case _ => OwnerCancelKeeps(s, c);
  }

  lemma MoneyBalances(s: State, c: Call)
    requires Balanced(s) && Numbered(s) && OnlyMoneyOrSettings(c) && Step(s, c).Some?
    ensures Balanced(Step(s, c).value)
  {
    match c
    case CallDeposit(token, caller, amount) => CreditAdds(s.books.balances, caller, amount);
    case CallWithdraw(caller, deposit) => WithdrawBalances(s, caller, deposit);
    case WithdrawCallback(w, ok) => OnWithdrawBalances(s, w, ok);
    case _ =>
  }

  lemma BalancedStep(s: State, c: Call)
    requires Balanced(s) && Numbered(s)
    ensures Balanced(After(s, c))
  {
    if Step(s, c).Some? {
      if WorksOnYield(c) {
        YieldBalances(s, c);
      } else if EndsRequests(c) {
        EndBalances(s, c);
      } else {
        MoneyBalances(s, c);
      }
    }
  }

  // ---- ids ----

  /** Ids are handed out once, in order; each one handed out is pending or ended, never both. */
  ghost predicate DeskNumbered(d: Desk) {
    && (forall id :: id in d.pending ==> id < d.nextId && id !in d.ended)
    && (forall id :: id in d.ended ==> id < d.nextId)
    && (forall id: nat :: id < d.nextId ==> id in d.pending || id in d.ended)
    && (forall id :: id in d.promises ==> id < d.nextId)
  }

  ghost predicate Numbered(s: State) {
    && DeskNumbered(s.desk)
    && (forall w :: w in s.books.withdrawals ==> w < s.books.nextWithdrawal)
  }

  /** The terms a request was admitted on; delivering its output is all that may happen to it. */
  predicate SameTerms(r: Request, r': Request) {
    r' == r.(outputSubmitted := r'.outputSubmitted) && (r.outputSubmitted ==> r'.outputSubmitted)
  }

  /** From `d` to `d'` ids only grow, a pending request keeps its terms, endings are never changed,
      and a request leaves `pending` only by being recorded as ended. */
  ghost predicate Advances(d: Desk, d': Desk) {
    && d.nextId <= d'.nextId
    && (forall id :: id in d'.pending && id !in d.pending ==> id >= d.nextId)
    && (forall id :: id in d'.pending && id in d.pending ==> SameTerms(d.pending[id], d'.pending[id]))
    && (forall id :: id in d.ended ==> id in d'.ended && d'.ended[id] == d.ended[id])
    && (forall id :: id in d.pending && id !in d'.pending ==> id in d'.ended)
    && (forall id :: id in d'.ended && id !in d.ended ==> id in d.pending || id >= d.nextId)
  }

  lemma EndAdvances(d: Desk, id: nat, how: How, fees: Fees, booked: nat, refund: nat)
    requires DeskNumbered(d) && id in d.pending
    ensures DeskNumbered(End(d, id, how, fees, booked, refund))
    ensures Advances(d, End(d, id, how, fees, booked, refund))
  {
  }

  lemma AdvancesOnward(d: Desk, d': Desk, d'': Desk)
    requires Advances(d, d') && Advances(d', d'') && DeskNumbered(d')
    ensures Advances(d, d'')
  {
  }

  /** An owner cancel advances the desk and leaves the withdrawals alone. */
  ghost predicate Cancels(s: State, t: State) {
    && DeskNumbered(t.desk) && Advances(s.desk, t.desk) && t.desk.nextId == s.desk.nextId
    && t.books.withdrawals == s.books.withdrawals && t.books.nextWithdrawal == s.books.nextWithdrawal
  }

  lemma CancelWholeCancels(s: State, id: nat)
    requires DeskNumbered(s.desk) && id in s.desk.pending
    ensures Cancels(s, CancelWhole(s, id))
  {
    EndAdvances(s.desk, id, CancelledByOwner, s.config.fees, 0, s.desk.pending[id].payment);
  }

  lemma CancelListedCancels(s: State, id: nat)
    requires DeskNumbered(s.desk)
    ensures Cancels(s, CancelListed(s, id))
  {
    if id in s.desk.pending {
      EndAdvances(s.desk, id, CancelledByOwner, s.config.fees, 0, s.desk.pending[id].payment);
    }
  }

  lemma PayKeepsWithdrawals(b: Books, c: Config, r: Request, y: Yield)
    ensures SettleUsd(b, c, r, y).withdrawals == b.withdrawals
    ensures SettleUsd(b, c, r, y).nextWithdrawal == b.nextWithdrawal
  {
  }

  lemma CallbackAdvances(s: State, id: nat)
    requires Numbered(s) && OnResponse(s, id).Some?
    ensures Numbered(OnResponse(s, id).value) && Advances(s.desk, OnResponse(s, id).value.desk)
  {
    if id in s.desk.pending {
      var r, y := s.desk.pending[id], s.desk.promises[id];
      var e := EndingOf(s.config, r, y);
      PayKeepsWithdrawals(s.books, s.config, r, y);
      EndAdvances(s.desk.(promises := s.desk.promises - {id}, executions := s.desk.executions + 1),
                  id, e.how, e.fees, e.booked, e.refund);
    }
  }

  lemma RequestAdvances(s: State, a: RequestArgs)
    requires Numbered(s) && Admissible(s, a)
    ensures Numbered(RequestExecution(s, a).value) && Advances(s.desk, RequestExecution(s, a).value.desk)
  {
  }

  lemma SubmitAdvances(s: State, caller: Account, id: nat)
    requires Numbered(s) && SubmitOutput(s, caller, id).Some?
    ensures Numbered(SubmitOutput(s, caller, id).value)
    ensures Advances(s.desk, SubmitOutput(s, caller, id).value.desk)
  {
  }

  lemma MoneyAndSettingsAdvance(s: State, c: Call)
    requires Numbered(s) && Step(s, c).Some? && OnlyMoneyOrSettings(c)
    ensures Numbered(Step(s, c).value) && Step(s, c).value.desk == s.desk
  {
  }

  lemma CancelStaleAdvances(s: State, caller: Account, id: nat, now: nat)
    requires Numbered(s) && CancelStale(s, caller, id, now).Some?
    ensures Numbered(CancelStale(s, caller, id, now).value)
    ensures Advances(s.desk, CancelStale(s, caller, id, now).value.desk)
  {
    var e := StaleEnding(s.config.fees, s.desk.pending[id]);
    EndAdvances(s.desk, id, e.how, e.fees, e.booked, e.refund);
  }

  lemma YieldAdvances(s: State, c: Call)
    requires Numbered(s) && WorksOnYield(c) && Step(s, c).Some?
    ensures Numbered(Step(s, c).value) && Advances(s.desk, Step(s, c).value.desk)
  {
    match c
    case CallRequest(a) => RequestAdvances(s, a);
    case CallSubmit(caller, id) => SubmitAdvances(s, caller, id);
    case CallSubmitAndResolve(caller, id, response) => SubmitAdvances(s, caller, id);
    case _ =>
  }

  lemma EndCallAdvances(s: State, c: Call)
    requires Numbered(s) && EndsRequests(c) && Step(s, c).Some?
    ensures Numbered(Step(s, c).value) && Advances(s.desk, Step(s, c).value.desk)
  {
    match c
    case Callback(id) => CallbackAdvances(s, id);
    case CallCancelStale(caller, id, now) => CancelStaleAdvances(s, caller, id, now);
    case _ => OwnerCancelKeeps(s, c);
  }

  /** Every step keeps the numbering and only ever adds endings. */
  lemma NumberedStep(s: State, c: Call)
    requires Numbered(s)
    ensures Numbered(After(s, c)) && Advances(s.desk, After(s, c).desk)
  {
    if Step(s, c).Some? {
      if WorksOnYield(c) {
        YieldAdvances(s, c);
      } else if EndsRequests(c) {
        EndCallAdvances(s, c);
      } else {
        MoneyAndSettingsAdvance(s, c);
      }
    }
  }

  // ---- what each ending accounts for ----

  /** What admission secured: the compute price of the day and the storage part were paid, a priced
      call attached at least its price, and only a project call attached anything. */
  predicate WellAdmitted(r: Request) {
    var a := r.admission;
    && r.payment >= ComputePrice(a.fees, a.compileOnly, r.limits) + StoragePart(r)
    && (a.compileOnly ==> StoragePart(r) == 0)
    && (a.row.Some? ==> r.attached >= a.row.value.price)
    && (r.attached > 0 ==> r.source.Project?)
  }

  predicate Exact(e: Ending) {
    e.booked + e.refund == e.request.payment
  }

  predicate WellEnded(e: Ending) {
    && WellAdmitted(e.request)
    && match e.how
       case Succeeded => Exact(e) && e.refund >= StoragePart(e.request)
       case Failed => Exact(e) && e.refund >= StoragePart(e.request)
       case TimedOut => e.booked == e.fees.base && e.refund == SaturatingSub(e.request.payment, e.fees.base)
       case CancelledStale => Exact(e) && e.booked == Min(e.request.payment, StaleCharge(e.fees, e.request))
       case CancelledByOwner => e.booked == 0 && e.refund == e.request.payment
  }

  function BookedOf(ended: map<nat, Ending>): map<nat, nat> {
    map id | id in ended :: ended[id].booked
  }

  /** Every record is in order, and the fees collected are exactly what the endings booked. */
  ghost predicate Accounted(d: Desk) {
    && (forall id :: id in d.pending ==> WellAdmitted(d.pending[id]))
    && (forall id :: id in d.ended ==> WellEnded(d.ended[id]))
    && d.feesCollected == Sum(BookedOf(d.ended))
  }

  lemma EndAccounted(d: Desk, id: nat, how: How, fees: Fees, booked: nat, refund: nat)
    requires DeskNumbered(d) && Accounted(d) && id in d.pending
    requires WellEnded(Ending(how, d.pending[id], fees, booked, refund))
    ensures Accounted(End(d, id, how, fees, booked, refund))
  {
    var t := End(d, id, how, fees, booked, refund);
    BookedAfter(d.ended, id, t.ended[id]);
    assert forall i :: i in t.ended && i != id ==> i in d.ended && t.ended[i] == d.ended[i];
  }

  lemma BookedAfter(ended: map<nat, Ending>, id: nat, e: Ending)
    requires id !in ended
    ensures Sum(BookedOf(ended[id := e])) == Sum(BookedOf(ended)) + e.booked
  {
    assert BookedOf(ended[id := e]) == BookedOf(ended)[id := e.booked];
    SumUpdate(BookedOf(ended), id, e.booked);
  }

  lemma EndingOfIsWell(c: Config, r: Request, y: Yield)
    requires WellAdmitted(r)
    ensures WellEnded(EndingOf(c, r, y))
  {
  }

  lemma CallbackAccounted(s: State, id: nat)
    requires Numbered(s) && Accounted(s.desk) && OnResponse(s, id).Some?
    ensures Accounted(OnResponse(s, id).value.desk)
  {
    if id in s.desk.pending {
      var r, y := s.desk.pending[id], s.desk.promises[id];
      var e := EndingOf(s.config, r, y);
      EndingOfIsWell(s.config, r, y);
      EndAccounted(s.desk.(promises := s.desk.promises - {id}, executions := s.desk.executions + 1),
                   id, e.how, e.fees, e.booked, e.refund);
    }
  }

  // ---- the owner's sweeps, one cancel at a time ----

  /** What one owner cancel keeps, and so any number of them. */
  ghost predicate Keeps(s: State, t: State) {
    Cancels(s, t) && (Balanced(s) ==> Balanced(t)) && (Accounted(s.desk) ==> Accounted(t.desk))
  }

  lemma KeepsSelf(s: State)
    requires DeskNumbered(s.desk)
    ensures Keeps(s, s)
  {
  }

  lemma KeepsOnward(s: State, t: State, u: State)
    requires Keeps(s, t) && Keeps(t, u)
    ensures Keeps(s, u)
  {
    AdvancesOnward(s.desk, t.desk, u.desk);
  }

  lemma CancelWholeKeeps(s: State, id: nat)
    requires DeskNumbered(s.desk) && id in s.desk.pending
    ensures Keeps(s, CancelWhole(s, id))
  {
    CancelWholeCancels(s, id);
    if Balanced(s) {
      CancelWholeBalances(s, id);
    }
    if Accounted(s.desk) {
      EndAccounted(s.desk, id, CancelledByOwner, s.config.fees, 0, s.desk.pending[id].payment);
    }
  }

  lemma CancelListedKeeps(s: State, id: nat)
    requires DeskNumbered(s.desk)
    ensures Keeps(s, CancelListed(s, id))
  {
    CancelListedCancels(s, id);
    if Balanced(s) {
      CancelListedBalances(s, id);
    }
    if Accounted(s.desk) && id in s.desk.pending {
      EndAccounted(s.desk, id, CancelledByOwner, s.config.fees, 0, s.desk.pending[id].payment);
    }
  }

  lemma {:induction false} CancelEachKeeps(s: State, ids: seq<nat>)
    requires DeskNumbered(s.desk)
    ensures Keeps(s, CancelEach(s, ids))
    decreases |ids|
  {
    if ids != [] {
      var t := CancelListed(s, ids[0]);
      CancelListedKeeps(s, ids[0]);
      CancelEachKeeps(t, ids[1..]);
      KeepsOnward(s, t, CancelEach(t, ids[1..]));
    }
  }

  lemma {:induction false} CancelWholeEachKeeps(s: State, ids: seq<nat>)
    requires DeskNumbered(s.desk)
    ensures Keeps(s, CancelWholeEach(s, ids))
    decreases |ids|
  {
    if ids == [] {
      KeepsSelf(s);
    } else if ids[0] in s.desk.pending {
      var t := CancelWhole(s, ids[0]);
      CancelWholeKeeps(s, ids[0]);
      CancelWholeEachKeeps(t, ids[1..]);
      KeepsOnward(s, t, CancelWholeEach(t, ids[1..]));
    } else {
      CancelWholeEachKeeps(s, ids[1..]);
    }
  }

  lemma OwnerCancelKeeps(s: State, c: Call)
    requires DeskNumbered(s.desk) && Step(s, c).Some?
    requires c.CallEmergencyCancel? || c.CallCancelPending? || c.CallClearAll?
    ensures Keeps(s, Step(s, c).value)
  {
    match c
    case CallEmergencyCancel(caller, id) => CancelWholeKeeps(s, id);
    case CallCancelPending(caller, ids) => CancelEachKeeps(s, ids);
    case CallClearAll(caller, limit) =>
      CancelWholeEachKeeps(s, FirstPending(s.desk.pending, 0, s.desk.nextId, limit.GetOr(100)));
  }

  /** Pending ids, each once, in ascending order, none passed over below the last, and all of them unless
      the limit was reached. */
  ghost predicate PicksFirst(ids: seq<nat>, pending: map<nat, Request>, from: nat, end: nat, limit: nat) {
    && |ids| <= limit
    && (forall i :: 0 <= i < |ids| ==> ids[i] in pending && from <= ids[i] < end)
    && (forall i, j :: 0 <= i < j < |ids| ==> ids[i] < ids[j])
    && (ids != [] ==> forall id :: id in pending && from <= id <= ids[|ids| - 1] ==> id in ids)
    && (|ids| < limit ==> forall id :: id in pending && from <= id < end ==> id in ids)
  }

  lemma PicksNext(rest: seq<nat>, pending: map<nat, Request>, from: nat, end: nat, limit: nat)
    requires from < end && limit > 0 && from in pending
    requires PicksFirst(rest, pending, from + 1, end, limit - 1)
    ensures PicksFirst([from] + rest, pending, from, end, limit)
  {
    var ids := [from] + rest;
    assert forall i :: 0 < i < |ids| ==> ids[i] == rest[i - 1];
    assert forall id :: id in ids <==> id == from || id in rest;
  }

  lemma {:induction false} FirstPendingIsExact(pending: map<nat, Request>, from: nat, end: nat, limit: nat)
    requires from <= end
    ensures PicksFirst(FirstPending(pending, from, end, limit), pending, from, end, limit)
    decreases end - from
  {
    if from < end && limit > 0 {
      if from in pending {
        FirstPendingIsExact(pending, from + 1, end, limit - 1);
        PicksNext(FirstPending(pending, from + 1, end, limit - 1), pending, from, end, limit);
      } else {
        FirstPendingIsExact(pending, from + 1, end, limit);
      }
    }
  }

  lemma {:induction false} CancelWholeEachPending(s: State, ids: seq<nat>)
    ensures CancelWholeEach(s, ids).desk.pending == s.desk.pending - (set id | id in ids)
    decreases |ids|
  {
    if ids != [] {
      var t := if ids[0] in s.desk.pending then CancelWhole(s, ids[0]) else s;
      CancelWholeEachPending(t, ids[1..]);
      assert (set id | id in ids) == {ids[0]} + (set id | id in ids[1..]);
    }
  }

  /** A sweep removes exactly the requests it picked, and one that picked fewer than its limit left none
      behind. */
  lemma ClearAllClears(s: State, caller: Account, limit: Option<nat>)
    requires DeskNumbered(s.desk) && ClearAll(s, caller, limit).Some?
    ensures var ids := FirstPending(s.desk.pending, 0, s.desk.nextId, limit.GetOr(100));
            var left := ClearAll(s, caller, limit).value.desk.pending;
            && PicksFirst(ids, s.desk.pending, 0, s.desk.nextId, limit.GetOr(100))
            && left == s.desk.pending - (set id | id in ids)
            && (|ids| < limit.GetOr(100) ==> left == map[])
  {
    var ids := FirstPending(s.desk.pending, 0, s.desk.nextId, limit.GetOr(100));
    FirstPendingIsExact(s.desk.pending, 0, s.desk.nextId, limit.GetOr(100));
    CancelWholeEachPending(s, ids);
  }

  lemma RequestAccounted(s: State, a: RequestArgs)
    requires Numbered(s) && Accounted(s.desk) && Admissible(s, a)
    ensures Accounted(RequestExecution(s, a).value.desk)
  {
    assert WellAdmitted(NewRequest(s.config, a));
  }

  lemma SubmitAccounted(s: State, caller: Account, id: nat)
    requires Accounted(s.desk) && SubmitOutput(s, caller, id).Some?
    ensures Accounted(SubmitOutput(s, caller, id).value.desk)
  {
    assert WellAdmitted(s.desk.pending[id]);
  }

  lemma StaleEndingIsWell(f: Fees, r: Request)
    requires WellAdmitted(r)
    ensures WellEnded(StaleEnding(f, r))
  {
  }

  lemma CancelStaleAccounted(s: State, caller: Account, id: nat, now: nat)
    requires DeskNumbered(s.desk) && Accounted(s.desk) && CancelStale(s, caller, id, now).Some?
    ensures Accounted(CancelStale(s, caller, id, now).value.desk)
  {
    var e := StaleEnding(s.config.fees, s.desk.pending[id]);
    StaleEndingIsWell(s.config.fees, s.desk.pending[id]);
    EndAccounted(s.desk, id, e.how, e.fees, e.booked, e.refund);
  }

  lemma YieldAccounted(s: State, c: Call)
    requires Numbered(s) && Accounted(s.desk) && WorksOnYield(c) && Step(s, c).Some?
    ensures Accounted(Step(s, c).value.desk)
  {
    match c
    case CallRequest(a) => RequestAccounted(s, a);
    case CallSubmit(caller, id) => SubmitAccounted(s, caller, id);
    case CallSubmitAndResolve(caller, id, response) => SubmitAccounted(s, caller, id);
    case _ =>
  }

  lemma EndCallAccounted(s: State, c: Call)
    requires Numbered(s) && Accounted(s.desk) && EndsRequests(c) && Step(s, c).Some?
    ensures Accounted(Step(s, c).value.desk)
  {
    match c
    case Callback(id) => CallbackAccounted(s, id);
    case CallCancelStale(caller, id, now) => CancelStaleAccounted(s, caller, id, now);
    case _ => OwnerCancelKeeps(s, c);
  }

  lemma AccountedStep(s: State, c: Call)
    requires Numbered(s) && Accounted(s.desk)
    ensures Accounted(After(s, c).desk)
  {
    if Step(s, c).Some? {
      if WorksOnYield(c) {
        YieldAccounted(s, c);
      } else if EndsRequests(c) {
        EndCallAccounted(s, c);
      } else {
        MoneyAndSettingsAdvance(s, c);
      }
    }
  }

  // ---- every run ----

  ghost predicate Inv(s: State) {
    Numbered(s) && Balanced(s) && Accounted(s.desk)
  }

  lemma InitInv(owner: Account, operator: Option<Account>)
    ensures Inv(Init(owner, operator))
  {
    EmptyInv(Init(owner, operator));
  }

  lemma EmptyInv(s: State)
    requires s.books == Books(map[], map[], map[], 0, 0, 0, 0) && s.desk == Desk(0, map[], 0, 0, map[], map[], map[])
    ensures Inv(s)
  {
    EmptyDesk(s.desk);
    EmptyBooks(s.books);
    EmptyBalanced(s);
  }

  lemma EmptyBalanced(s: State)
    requires InBooks(s.books) == 0 && OnDesk(s.desk) == 0 && s.books.withdrawn == 0 && s.books.deposited == 0
    ensures Balanced(s)
  {
  }

  lemma EmptyBooks(b: Books)
    requires b.balances == map[] && b.earnings == map[] && b.withdrawals == map[] && b.writtenOff == 0
    ensures InBooks(b) == 0
  {
    assert AmountsOf(b.withdrawals) == map[];
  }

  lemma EmptyDesk(d: Desk)
    requires d.pending == map[] && d.ended == map[] && d.promises == map[] && d.nextId == 0 && d.feesCollected == 0
    ensures DeskNumbered(d) && Accounted(d) && OnDesk(d) == 0
  {
    assert BookedOf(d.ended) == map[] && AttachedOf(d.pending) == map[];
  }

  lemma {:induction false} RunInv(s: State, calls: seq<Call>)
    requires Inv(s)
    ensures Inv(Run(s, calls)) && Advances(s.desk, Run(s, calls).desk)
    decreases |calls|
  {
    if calls != [] {
      var t := After(s, calls[0]);
      NumberedStep(s, calls[0]);
      BalancedStep(s, calls[0]);
      AccountedStep(s, calls[0]);
      RunInv(t, calls[1..]);
      AdvancesOnward(s.desk, t.desk, Run(t, calls[1..]).desk);
    }
  }

  /** From `new`, after every sequence of calls and callbacks: user balances, developer earnings, the
      stablecoin attached to pending requests, the withdrawals in flight and what the bulk cancel
      wrote off add up to what was deposited less what was withdrawn. */
  lemma StablecoinIsConserved(owner: Account, operator: Option<Account>, calls: seq<Call>)
    ensures var s := Run(Init(owner, operator), calls);
            Sum(s.books.balances) + Sum(s.books.earnings) + Sum(AttachedOf(s.desk.pending))
              + Sum(AmountsOf(s.books.withdrawals)) + s.books.writtenOff
            == s.books.deposited - s.books.withdrawn
  {
    InitInv(owner, operator);
    RunInv(Init(owner, operator), calls);
  }

  /** A request ends at most once: whatever happens afterwards, an ended request is never pending
      again and what was booked and refunded for it never changes. */
  lemma EndsOnce(owner: Account, operator: Option<Account>, before: seq<Call>, after: seq<Call>, id: nat)
    requires id in Run(Init(owner, operator), before).desk.ended
    ensures var s := Run(Init(owner, operator), before);
            var t := Run(s, after);
            id in t.desk.ended && t.desk.ended[id] == s.desk.ended[id] && id !in t.desk.pending
  {
    InitInv(owner, operator);
    RunInv(Init(owner, operator), before);
    RunInv(Run(Init(owner, operator), before), after);
  }

  /** In every reachable state an admitted request gets an id nothing ever had, and until it ends its
      terms stand. */
  lemma IdsAreFresh(s: State, a: RequestArgs, more: seq<Call>)
    requires Inv(s) && Admissible(s, a)
    ensures s.desk.nextId !in s.desk.pending && s.desk.nextId !in s.desk.ended && s.desk.nextId !in s.desk.promises
    ensures var t := RequestExecution(s, a).value;
            && t.desk.pending == s.desk.pending[s.desk.nextId := NewRequest(s.config, a)]
            && (s.desk.nextId in Run(t, more).desk.pending ==>
                  SameTerms(NewRequest(s.config, a), Run(t, more).desk.pending[s.desk.nextId]))
  {
    RequestAdvances(s, a);
    RequestBalances(s, a);
    RequestAccounted(s, a);
    RunInv(RequestExecution(s, a).value, more);
  }

  /** The callback of a request that is no longer pending moves no money, even when the operator had
      resumed it before it was cancelled. */
  lemma LateCallbackIsInert(s: State, id: nat)
    requires id in s.desk.promises && id !in s.desk.pending
    ensures OnResponse(s, id) == Some(s.(desk := s.desk.(promises := s.desk.promises - {id})))
  {
  }

  /** What an ending accounts for: booked fee plus refund is the NEAR payment, except for a timeout
      whose base fee outgrew the payment; a worker-reported result and an owner cancel give the whole
      input-storage part back, a timeout and a stale cancel exactly when what they ask for leaves it
      untouched; and while no fee stands above its value at admission every ending does
      both. */
  predicate AccountsForPayment(e: Ending) {
    && (Exact(e) <==> !e.how.TimedOut? || e.fees.base <= e.request.payment)
    && (e.how.Succeeded? || e.how.Failed? || e.how.CancelledByOwner? ==> e.refund >= StoragePart(e.request))
    && (e.how.TimedOut? || e.how.CancelledStale? ==>
          (e.refund >= StoragePart(e.request) <==>
           StoragePart(e.request) == 0 || Demanded(e) + StoragePart(e.request) <= e.request.payment))
    && (FeesAtMost(e.fees, e.request.admission.fees) ==> Exact(e) && e.refund >= StoragePart(e.request))
  }

  /** What a timeout or a stale cancel asks for, by the fees of the day. */
  function Demanded(e: Ending): nat {
    if e.how.TimedOut? then e.fees.base else StaleCharge(e.fees, e.request)
  }

  lemma EndingIsAccounted(e: Ending)
    requires WellEnded(e)
    ensures AccountsForPayment(e)
  {
    var admitted := e.request.admission.fees;
    if FeesAtMost(e.fees, admitted) {
      EstimateIsMonotone(e.fees, admitted, e.request.limits);
      EstimateIsMonotone(admitted, admitted, e.request.limits);
    }
  }

  /** On every run every ending accounts for its payment, and the fees collected are the sum of what
      the endings booked. */
  lemma NearIsAccounted(owner: Account, operator: Option<Account>, calls: seq<Call>)
    ensures var d := Run(Init(owner, operator), calls).desk;
            d.feesCollected == Sum(BookedOf(d.ended)) && forall id :: id in d.ended ==> AccountsForPayment(d.ended[id])
  {
    InitInv(owner, operator);
    RunInv(Init(owner, operator), calls);
    var d := Run(Init(owner, operator), calls).desk;
    forall id | id in d.ended
      ensures AccountsForPayment(d.ended[id])
    {
      EndingIsAccounted(d.ended[id]);
    }
  }

  /** A compile-only request that pays exactly the initial base fee. */
  const CHEAPEST_REQUEST := RequestArgs("user", INITIAL_FEES.base, 0, Inline, None, None, None, true, false, false, 0,
                                        true, true, false)

  /** A timeout really can book more than was paid: the owner doubles the base fee while a request
      that paid exactly the old one is pending, and its yield times out. */
  lemma TimeoutCanOverbook()
    ensures var calls := [CallRequest(CHEAPEST_REQUEST),
                          CallConfigure("owner", SetFees(Some(2 * INITIAL_FEES.base), None, None, None)),
                          Callback(0)];
            var d := Run(Init("owner", None), calls).desk;
            0 in d.ended && d.ended[0].how.TimedOut? && !Exact(d.ended[0])
            && d.feesCollected > d.ended[0].request.payment
  {
    var raise := CallConfigure("owner", SetFees(Some(2 * INITIAL_FEES.base), None, None, None));
    var s0 := Init("owner", None);
    var s1 := After(s0, CallRequest(CHEAPEST_REQUEST));
    assert Admissible(s0, CHEAPEST_REQUEST);
    var s2 := After(s1, raise);
    var s3 := After(s2, Callback(0));
    assert 0 in s3.desk.ended && s3.desk.feesCollected == 2 * INITIAL_FEES.base;
    assert Run(s2, [Callback(0)]) == Run(s3, []) by { assert [Callback(0)][1..] == []; }
    assert Run(s1, [raise, Callback(0)]) == Run(s2, [Callback(0)]) by {
      assert [raise, Callback(0)][1..] == [Callback(0)];
    }
    var calls := [CallRequest(CHEAPEST_REQUEST), raise, Callback(0)];
    assert Run(s0, calls) == Run(s1, [raise, Callback(0)]) by { assert calls[1..] == [raise, Callback(0)]; }
  }

  const SOME_LIMITS := Limits(Some(1_000_000), Some(128), Some(1))

  /** A request whose input is one byte over what is held for nothing, paid exactly. */
  const LARGE_INPUT_REQUEST := RequestArgs(
    "user", Estimate(INITIAL_FEES, SOME_LIMITS) + InputStorageDeposit(INPUT_DATA_FREE_BYTES + 1), 0, Inline,
    Some(SOME_LIMITS), Some(Input(INPUT_DATA_FREE_BYTES + 1, None)), None, false, false, false, 0, true, true, false)

  lemma LargeInputIsAdmitted(s: State)
    requires s == Init("owner", None)
    ensures Admissible(s, LARGE_INPUT_REQUEST)
    ensures StoragePart(NewRequest(s.config, LARGE_INPUT_REQUEST)) == STORAGE_PRICE_PER_BYTE
  {
  }

  /** A stale cancel really can keep the storage part of a large input: the owner raises the base fee to
      what the request paid, and its sender cancels it after the timeout. */
  lemma StaleCancelCanKeepStorage(s: State)
    requires s == Init("owner", None)
    ensures var raise := CallConfigure("owner", SetFees(Some(LARGE_INPUT_REQUEST.deposit), None, None, None));
            var cancel := CallCancelStale("user", 0, EXECUTION_TIMEOUT + 1);
            var d := After(After(After(s, CallRequest(LARGE_INPUT_REQUEST)), raise), cancel).desk;
            0 in d.ended && d.ended[0].how.CancelledStale? && d.ended[0].refund < StoragePart(d.ended[0].request)
  {
    LargeInputIsAdmitted(s);
    var r := NewRequest(s.config, LARGE_INPUT_REQUEST);
    var raise := CallConfigure("owner", SetFees(Some(r.payment), None, None, None));
    var t := After(s, CallRequest(LARGE_INPUT_REQUEST));
    var u := After(t, raise);
    assert u.desk.pending == map[0 := r] && u.config.fees.base == r.payment;
    StaleCancelAtFee(u, 0, r);
  }

  lemma StaleCancelAtFee(u: State, id: nat, r: Request)
    requires id in u.desk.pending && u.desk.pending[id] == r && !r.outputSubmitted && r.sender == "user"
    requires r.timestamp == 0 && u.config.fees.base == r.payment && StoragePart(r) > 0
    ensures var d := After(u, CallCancelStale("user", id, EXECUTION_TIMEOUT + 1)).desk;
            && id in d.ended && d.ended[id].how.CancelledStale? && d.ended[id].request == r
            && d.ended[id].refund < StoragePart(r)
  {
  }
}
