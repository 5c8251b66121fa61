/**
  What an admission by the service answers, and what one run comes to from its admission to
  its finalization (service.go).
 */
module Admissions {
  import opened Text
  import opened Billing
  import opened Transactions
  import opened Topup
  import opened TopupProofs
  import opened Ledger
  import opened RunRecords

  /** The organization's account when its admission starts. */
  function Opened(t: Tables, org: string): Account
  {
    if org in t.accounts then t.accounts[org] else NEW_ACCOUNT
  }

  /** What an admission reserves: the plan's limit for one run, and at least the flavor's price of a quarter hour. */
  lemma ReserveExactly(a: Account, flavor: Flavor)
    ensures ReserveCredits(a, flavor) == Max(a.perRunMax, if flavor == Plus then 2 else 1)
  {
  }

  /**
    Every refusal of an admission and its cause: missing ids; the larger flavor on a plan that
    does not name it, told by the account's text alone; and otherwise the answer of the top-up
    that a short balance calls.
   */
  lemma RefusedExactly(hash: string -> string, t: Tables, org: string, run: string, flavor: Flavor, startedAt: int,
                       purchase: Option<Purchaser>, clock: seq<Tick>)
    requires Safe(t)
    ensures var x, a := ServiceAdmit(hash, t, org, run, flavor, startedAt, purchase, clock), Opened(t, org);
            var named := run != "" && org != "";
            && (x.result == Err(MissingIds) <==> !named)
            && (!named ==> x.tables == t)
            && (x.result == Err(FlavorNotAllowed) <==>
                  named && !a.exempt && flavor == Plus && !PlusCode(a.maxFlavor))
            && (x.result.Err? && !x.result.error.MissingIds? && !x.result.error.FlavorNotAllowed? ==>
                  && a.Balance() < Max(a.perRunMax, if flavor == Plus then 2 else 1)
                  && (x.result.error.Insufficient?
                      || x.result.error in {TopupNotConfigured, PaymentFailed, RoundsExhausted}))
  {
    hide AdmitAs, AutoTopupRun, FlavorAllowed, ReserveCredits, PlusCode, AdmitTx;
    var t1, a := t.(accounts := EnsureAccount(t.accounts, org)), Opened(t, org);
    assert t1.accounts[org] == a && AccountSafe(a);
    AllowedExactly(flavor, a.maxFlavor);
    ReserveExactly(a, flavor);
    FundOutcome(hash, t1, org, ReserveCredits(a, flavor), purchase, clock);
    if run != "" && org != "" {
      FundedAdmission(hash, t, org, run, flavor, startedAt, purchase, clock);
    }
  }

  /** A balance that covers the reserve is never topped up: purchaser and clock do not matter. */
  lemma EnoughBuysNothing(hash: string -> string, t: Tables, org: string, run: string, flavor: Flavor, startedAt: int,
                          purchase: Option<Purchaser>, clock: seq<Tick>)
    requires var a := Opened(t, org);
             a.exempt || a.Balance() >= Max(a.perRunMax, if flavor == Plus then 2 else 1)
    ensures ServiceAdmit(hash, t, org, run, flavor, startedAt, purchase, clock)
         == ServiceAdmit(hash, t, org, run, flavor, startedAt, None, [])
  {
    ReserveExactly(Opened(t, org), flavor);
  }

  lemma AdmitAsReports(t: Tables, org: string, run: string, reserve: nat, flavor: Flavor, startedAt: int,
                       comped: Option<Account>)
    requires Safe(t) && org in t.accounts
    requires comped.Some? ==> t.accounts[org].exempt && comped.value == t.accounts[org]
    ensures var x := AdmitAs(t, org, run, reserve, flavor, startedAt, comped);
            x.result.Ok? ==>
              && org in x.tables.accounts && run in x.tables.reservations
              && x.result.value == Admission(x.tables.accounts[org], flavor,
                                             if comped.Some? then 0 else x.tables.reservations[run].reserved,
                                             comped.Some?, x.tables.accounts[org].Balance())
  {
  }

  /** What an admission reports is what the store holds afterwards. */
  lemma ReportsExactly(hash: string -> string, t: Tables, org: string, run: string, flavor: Flavor, startedAt: int,
                       purchase: Option<Purchaser>, clock: seq<Tick>)
    requires Safe(t)
    ensures var x, a := ServiceAdmit(hash, t, org, run, flavor, startedAt, purchase, clock), Opened(t, org);
            x.result.Ok? ==>
              && org in x.tables.accounts && run in x.tables.reservations
              && x.result.value == Admission(x.tables.accounts[org], flavor,
                                             if a.exempt then 0 else x.tables.reservations[run].reserved,
                                             a.exempt, x.tables.accounts[org].Balance())
  {
    hide AdmitAs, Fund, ReserveCredits, FlavorAllowed, AdmitTx;
    var t1, a := t.(accounts := EnsureAccount(t.accounts, org)), Opened(t, org);
    var reserve := ReserveCredits(a, flavor);
    assert t1.accounts[org] == a && AccountSafe(a) && Safe(t1);
    if run != "" && org != "" {
      if a.exempt {
        AdmitAsReports(t1, org, run, 0, flavor, startedAt, Some(a));
      } else {
        var steps := FundIsARun(hash, t1, org, reserve, purchase, clock);
        RunSafe(t1, steps);
        FundOutcome(hash, t1, org, reserve, purchase, clock);
        var funded := Fund(hash, t1, org, reserve, purchase, clock).tables;
        AdmitAsReports(funded, org, run, reserve, flavor, startedAt, None);
      }
    }
  }

  // ---------- One run, from start to end ----------

  /**
    The first run of a new organization, admitted and finalized: it has 25 credits, 4 of them
    are held while it runs, and it pays one for each quarter hour begun, 4 at most. It cannot
    take the larger flavor.
   */
  lemma FirstRun(hash: string -> string, t: Tables, org: string, run: string, startedAt: int,
                 purchase: Option<Purchaser>, clock: seq<Tick>, terminalState: string, endedAt: int, quarters: int)
    requires org != "" && run != "" && org !in t.accounts && run !in t.reservations && run !in t.meters
    requires startedAt < endedAt && RoundsUp(quarters, endedAt - startedAt, 15 * NANOS_PER_MINUTE)
    ensures var x := ServiceAdmit(hash, t, org, run, Standard, startedAt, purchase, clock);
            var y := FinalizeTx(x.tables, run, terminalState, endedAt);
            var paid := Min(quarters, 4);
            && x.result == Ok(Admission(NEW_ACCOUNT.(used := 4), Standard, 4, false, 21))
            && y.result == Ok(()) && org in y.tables.accounts && run in y.tables.reservations && run in y.tables.meters
            && y.tables.accounts[org].Balance() == 25 - paid
            && y.tables.reservations[run].captured == y.tables.meters[run].captured == paid
            && y.tables.reservations[run].released == 4 - paid
            && ServiceAdmit(hash, t, org, run, Plus, startedAt, purchase, clock).result == Err(FlavorNotAllowed)
  {
    hide ServiceAdmit, BillableCredits;
    FirstAdmission(hash, t, org, run, startedAt, purchase, clock);
    BilledExactly(startedAt, endedAt, 1, quarters);
  }

  lemma FirstAdmission(hash: string -> string, t: Tables, org: string, run: string, startedAt: int,
                       purchase: Option<Purchaser>, clock: seq<Tick>)
    requires org != "" && run != "" && org !in t.accounts && run !in t.reservations && run !in t.meters
    ensures Started(ServiceAdmit(hash, t, org, run, Standard, startedAt, purchase, clock), org, run, startedAt)
    ensures ServiceAdmit(hash, t, org, run, Plus, startedAt, purchase, clock).result == Err(FlavorNotAllowed)
  {
    hide FlavorAllowed, PlusCode, AdmitAs, Started;
    FreePlanIsStandard();
    AllowedExactly(Standard, NEW_ACCOUNT.maxFlavor);
    AllowedExactly(Plus, NEW_ACCOUNT.maxFlavor);
    assert ReserveCredits(NEW_ACCOUNT, Standard) == 4;
    FirstRecords(t.(accounts := EnsureAccount(t.accounts, org)), org, run, startedAt);
  }

  /** A new organization's run is admitted: 4 of its 25 credits are held. */
  predicate Started(x: Tx<Admission>, org: string, run: string, startedAt: int)
  {
    && org in x.tables.accounts && run in x.tables.reservations && run in x.tables.meters
    && var a, res, m := x.tables.accounts[org], x.tables.reservations[run], x.tables.meters[run];
    && a == NEW_ACCOUNT.(used := 4) && res == Reservation(org, 4, 4, 0, 0, 0, Reserved)
    && m.multiplier == 1 && m.startedAt == startedAt && m.terminalState == ""
    && x.result == Ok(Admission(a, Standard, 4, false, 21))
  }

  lemma FirstRecords(t: Tables, org: string, run: string, startedAt: int)
    requires org in t.accounts && t.accounts[org] == NEW_ACCOUNT && run !in t.reservations && run !in t.meters
    ensures Started(AdmitAs(t, org, run, 4, Standard, startedAt, None), org, run, startedAt)
  {
  }

  lemma FreePlanIsStandard()
    ensures !PlusCode(NEW_ACCOUNT.maxFlavor)
  {
    TrimIsTrimmed("standard", IsSpace);
    assert ToLower("standard") == "standard";
  }

  /** On an exempt account any run of any flavor is admitted and finalized without touching a balance. */
  lemma ExemptRun(hash: string -> string, t: Tables, org: string, run: string, flavor: Flavor, startedAt: int,
                  purchase: Option<Purchaser>, clock: seq<Tick>, terminalState: string, endedAt: int)
    requires org != "" && run != "" && run !in t.reservations
    ensures var t1 := SetExemptTx(t, org, true).tables;
            var x := ServiceAdmit(hash, t1, org, run, flavor, startedAt, purchase, clock);
            var y := FinalizeTx(x.tables, run, terminalState, endedAt);
            && x.result.Ok? && x.result.value.comped && x.result.value.reserved == 0
            && y.result == Ok(()) && y.tables.accounts == t1.accounts && y.tables.settings == t.settings
            && run in y.tables.reservations && y.tables.reservations[run].status == Comped
  {
    hide BillableCredits, Fund, FlavorAllowed, ReserveCredits, CaptureDeltas, UpsertMeterStart, FinalizeMeter;
    var t1 := SetExemptTx(t, org, true).tables;
    assert EnsureAccount(t1.accounts, org) == t1.accounts;
    var x := AdmitTx(t1, org, run, 0, flavor, startedAt);
    assert x.tables.accounts == t1.accounts && x.result.Ok?;
  }
}
