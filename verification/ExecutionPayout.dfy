/** Who receives the stablecoin of a settled call, to the unit. */
module ExecutionPayout {
  import opened Options
  import opened Sums
  import opened Charges
  import opened Execution
  import opened ExecutionLedger

  /** What the developers are due: the price, never more than was attached, less the guest's refund. */
  function DueOf(c: Config, r: Request, guestRefund: nat): nat {
    SaturatingSub(Min(PriceOf(c, r), r.attached), guestRefund)
  }

  predicate Live(c: Config, r: Request) {
    r.source.Project? && r.source.id in c.projects
  }

  /** The author's part of what is due: their share, floored; nothing on an unpriced call. */
  function AuthorShare(row: Option<PriceRow>, due: nat): nat {
    if row.Some? then SplitPayment(due, row.value.shareBp).0 else 0
  }

  function AuthorPart(c: Config, r: Request, due: nat): nat {
    AuthorShare(RowFor(c.pricing, r.source, r.input), due)
  }

  /** Every account's earnings grow by its part and by nothing else; an account that is both author
      and owner gets both. */
  lemma EarningsOf(earnings: map<Account, nat>, row: Option<PriceRow>, owner: Account, due: nat, a: Account)
    ensures Get(Earn(earnings, row, owner, due), a)
         == Get(earnings, a) + (if row.Some? && a == row.value.author then AuthorShare(row, due) else 0)
                             + (if a == owner then due - AuthorShare(row, due) else 0)
  {
  }

  /** A successful run of a live project: the owner and the author together receive exactly what is
      due, the caller all the rest. */
  lemma PaidToLiveProject(b: Books, c: Config, r: Request, guestRefund: nat, a: Account)
    requires Live(c, r)
    ensures Get(Pay(b, c, r, guestRefund).earnings, a)
         == Get(b.earnings, a)
            + (if RowFor(c.pricing, r.source, r.input).Some? && a == RowFor(c.pricing, r.source, r.input).value.author
               then AuthorPart(c, r, DueOf(c, r, guestRefund)) else 0)
            + (if a == c.projects[r.source.id]
               then DueOf(c, r, guestRefund) - AuthorPart(c, r, DueOf(c, r, guestRefund)) else 0)
    ensures Get(Pay(b, c, r, guestRefund).balances, a)
         == Get(b.balances, a) + (if a == r.sender then r.attached - DueOf(c, r, guestRefund) else 0)
  {
    EarningsOf(b.earnings, RowFor(c.pricing, r.source, r.input), c.projects[r.source.id],
               DueOf(c, r, guestRefund), a);
  }

  /** A project that is gone by settlement: the caller gets everything back. */
  lemma PaidBackWhenGone(b: Books, c: Config, r: Request, guestRefund: nat, a: Account)
    requires !Live(c, r)
    ensures Pay(b, c, r, guestRefund).earnings == b.earnings
    ensures Get(Pay(b, c, r, guestRefund).balances, a) == Get(b.balances, a) + (if a == r.sender then r.attached else 0)
  {
  }

  /** A priced call whose price row is still what it was at admission: its author and its project's
      owner share the price less the guest's refund, the author's part floored, and the caller gets
      the rest of what was attached. */
  lemma PriceIsExact(s: State, id: nat, a: Account)
    requires Inv(s) && id in s.desk.pending && id in s.desk.promises
    requires s.desk.promises[id].Resumed? && s.desk.promises[id].response.success
    requires s.desk.pending[id].admission.row.Some?
    requires RowFor(s.config.pricing, s.desk.pending[id].source, s.desk.pending[id].input)
          == s.desk.pending[id].admission.row
    ensures var r := s.desk.pending[id];
            var row := r.admission.row.value;
            var paid := SaturatingSub(row.price, s.desk.promises[id].response.refundUsd.GetOr(0));
            var split := SplitPayment(paid, row.shareBp);
            var t := OnResponse(s, id).value.books;
            if Live(s.config, r) then
              && Get(t.earnings, a) == Get(s.books.earnings, a) + (if a == row.author then split.0 else 0)
                                         + (if a == s.config.projects[r.source.id] then split.1 else 0)
              && Get(t.balances, a) == Get(s.books.balances, a) + (if a == r.sender then r.attached - paid else 0)
            else
              && t.earnings == s.books.earnings
              && Get(t.balances, a) == Get(s.books.balances, a) + (if a == r.sender then r.attached else 0)
  {
    var r := s.desk.pending[id];
    var g := s.desk.promises[id].response.refundUsd.GetOr(0);
    assert WellAdmitted(r);
    assert DueOf(s.config, r, g) == SaturatingSub(r.admission.row.value.price, g);
    if Live(s.config, r) {
      PaidToLiveProject(s.books, s.config, r, g, a);
    } else {
      PaidBackWhenGone(s.books, s.config, r, g, a);
    }
  }

  /** A failed or timed-out run pays the developers nothing and returns the whole attachment. */
  lemma NothingEarnedOnFailure(s: State, id: nat, a: Account)
    requires id in s.desk.pending && id in s.desk.promises
    requires s.desk.promises[id].Resumed? ==> !s.desk.promises[id].response.success
    ensures var t := OnResponse(s, id).value.books;
            && t.earnings == s.books.earnings
            && Get(t.balances, a)
            == Get(s.books.balances, a) + (if a == s.desk.pending[id].sender then s.desk.pending[id].attached else 0)
  {
  }

  /** A valid price table sells each operation at one price: the row found is the only one. */
  lemma OnePricePerOperation(p: Pricing, i: nat)
    requires ValidPricing(p) && i < |p.operations|
    ensures FindRow(p.operations, p.operations[i].operation) == Some(p.operations[i])
  {
    FirstMatch(p.operations, i);
  }

  lemma {:induction false} FirstMatch(ops: seq<OperationPrice>, i: nat)
    requires i < |ops| && forall j :: 0 <= j < i ==> ops[j].operation != ops[i].operation
    ensures FindRow(ops, ops[i].operation) == Some(ops[i])
  {
    if i > 0 {
      FirstMatch(ops[1..], i - 1);
    }
  }

  // ---- prices on names nobody holds ----

  predicate PricedAreLive(c: Config) {
    c.pricing.Keys <= c.projects.Keys
  }

  /** Prices stand only on live projects until a priced project goes: that is the one step that breaks it. */
  lemma PricedAreLiveStep(s: State, c: Call)
    requires PricedAreLive(s.config)
    ensures PricedAreLive(After(s, c).config) <==>
            !(c.ProjectChanged? && c.projectOwner.None? && c.project in s.config.pricing)
  {
    if c.ProjectChanged? {
      assert After(s, c).config.pricing == s.config.pricing;
      if c.projectOwner.Some? {
        assert After(s, c).config.projects.Keys == s.config.projects.Keys + {c.project};
      } else {
        assert After(s, c).config.projects.Keys == s.config.projects.Keys - {c.project};
      }
    } else if c.CallConfigure? {
      SettingKeepsPricedLive(s.config, c.caller, c.setting);
    } else {
      OthersKeepConfig(s, c);
    }
  }

  lemma SettingKeepsPricedLive(c: Config, caller: Account, change: Setting)
    requires PricedAreLive(c)
    ensures PricedAreLive(Configure(c, caller, change).GetOr(c))
  {
  }

  lemma OthersKeepConfig(s: State, c: Call)
    requires !c.ProjectChanged? && !c.CallConfigure?
    ensures After(s, c).config == s.config
  {
    if c.CallCancelPending? {
      CancelEachKeepsConfig(s, c.ids);
    } else if c.CallClearAll? {
      CancelWholeEachKeepsConfig(s, FirstPending(s.desk.pending, 0, s.desk.nextId, c.limit.GetOr(100)));
    }
  }

  lemma {:induction false} CancelEachKeepsConfig(s: State, ids: seq<nat>)
    ensures CancelEach(s, ids).config == s.config
    decreases |ids|
  {
    if ids != [] {
      CancelEachKeepsConfig(CancelListed(s, ids[0]), ids[1..]);
    }
  }

  lemma {:induction false} CancelWholeEachKeepsConfig(s: State, ids: seq<nat>)
    ensures CancelWholeEach(s, ids).config == s.config
    decreases |ids|
  {
    if ids != [] {
      CancelWholeEachKeepsConfig(if ids[0] in s.desk.pending then CancelWhole(s, ids[0]) else s, ids[1..]);
    }
  }

  /** A name that was priced, deleted and taken again, by whomever, has the old price: a run from any
      state with a live project and an acceptable table. */
  lemma PriceIsInherited(s: State, project: string, table: Pricing, newOwner: Account)
    requires project in s.config.projects && ValidPricing(table)
    ensures var priced := After(s, CallConfigure(s.config.owner, SetPricing(project, table)));
            var gone := After(priced, ProjectChanged(project, None));
            var again := After(gone, ProjectChanged(project, Some(newOwner)));
            && project !in gone.config.projects && gone.config.pricing[project] == table
            && again.config.projects[project] == newOwner && again.config.pricing[project] == table
  {
  }
}
