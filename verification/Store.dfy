/**
  The billing store and the billing service as objects: every method runs the statements of
  one source function in order, on tables that are fields. Each transaction is proved equal
  to its function in `Transactions`, errors included.
 */
module Store {
  import opened Text
  import opened Billing
  import opened Transactions
  import opened Topup

  class BillingStore {
    const hash: string -> string
    var accounts: map<string, Account>
    var reservations: map<string, Reservation>
    var meters: map<string, Meter>
    var settings: map<string, Settings>
    var events: set<string>

    constructor (hash: string -> string)
      ensures T() == Tables(map[], map[], map[], map[], {}) && this.hash == hash
    {
      this.hash := hash;
      accounts, reservations, meters, settings, events := map[], map[], map[], map[], {};
    }

    /** The committed tables. */
    function T(): Tables
      reads this
    {
      Tables(accounts, reservations, meters, settings, events)
    }

    // ---------- Reservations ----------

    method AdmitRun(org: string, run: string, credits: int, flavor: Flavor, startedAt: int)
      returns (result: Result<(Reservation, Account)>)
      modifies this
      ensures Tx(T(), result) == AdmitTx(old(T()), org, run, Max(credits, 0), flavor, startedAt)
    {
      var wanted := Max(credits, 0);
      if run in reservations {
        if org !in accounts {
          return Err(NoRows);
        }
        meters := UpsertMeterStart(meters, run, org, flavor, startedAt);
        return Ok((reservations[run], accounts[org]));
      }
      if org !in accounts {
        return Err(NoRows);
      }
      var account := accounts[org];
      var reservation;
      if account.exempt {
        reservation := Reservation(org, 0, 0, 0, 0, 0, Comped);
      } else {
        var available := account.Balance();
        if available < wanted {
          return Err(Insufficient(wanted, available));
        }
        var fromIncluded := Min(wanted, account.IncludedRemaining());
        var fromTopup := wanted - fromIncluded;
        account := ReserveRow(account, fromIncluded, fromTopup);
        if !account.RowOk() {
          return Err(CheckViolation);
        }
        accounts := accounts[org := account];
        reservation := Reservation(org, wanted, fromIncluded, fromTopup, 0, 0, Reserved);
      }
      reservations := reservations[run := reservation];
      meters := UpsertMeterStart(meters, run, org, flavor, startedAt);
      return Ok((reservation, account));
    }

    method FinalizeRun(run: string, terminalState: string, endedAt: int) returns (result: Result<()>)
      modifies this
      ensures run == "" ==> T() == old(T()) && result == Ok(())
      ensures run != "" ==> Tx(T(), result) == FinalizeTx(old(T()), run, terminalState, endedAt)
    {
      if run == "" || run !in meters {
        return Ok(());
      }
      var meter := meters[run];
      if meter.terminalState != "" {
        return Ok(());
      }
      var (minutes, credits) := BillableCredits(meter.startedAt, endedAt, meter.multiplier);
      var state := if terminalState == "" then "unknown" else terminalState;
      if run !in reservations {
        meters := FinalizeMeter(meters, run, endedAt, minutes, credits, state);
        return Ok(());
      }
      var res := reservations[run];
      if res.status == Comped {
        meters := FinalizeMeter(meters, run, endedAt, minutes, credits, state);
        reservations := reservations[run := res.(captured := credits, released := 0, status := Comped)];
        return Ok(());
      }
      if res.status != Reserved {
        meters := FinalizeMeter(meters, run, endedAt, minutes, credits, state);
        return Ok(());
      }
      if res.org !in accounts {
        return Err(NoRows);
      }
      if res.reserved > 0 {
        credits := Min(credits, res.reserved);
      }
      meters := FinalizeMeter(meters, run, endedAt, minutes, credits, state);
      var deltas := CaptureDeltas(res, credits);
      var includedDelta := -deltas.releasedIncluded + deltas.extra;
      accounts := accounts[res.org := CaptureRow(accounts[res.org], includedDelta, deltas.releasedTopup)];
      var released := deltas.releasedIncluded + deltas.releasedTopup;
      var status := Captured;
      if released > 0 {
        status := Released;
      }
      reservations := reservations[run := res.(captured := credits, released := released, status := status)];
      return Ok(());
    }

    // ---------- Grants and account updates ----------

    method EnsureBillingAccount(org: string) returns (account: Account)
      modifies this
      ensures T() == old(T()).(accounts := EnsureAccount(old(accounts), org))
      ensures org in accounts && account == accounts[org]
    {
      if org !in accounts {
        accounts := accounts[org := NEW_ACCOUNT];
      }
      account := accounts[org];
    }

    method GrantTopupCredits(org: string, credits: int) returns (result: Result<Account>)
      modifies this
      ensures Tx(T(), result) == GrantTx(old(T()), org, credits)
    {
      if credits <= 0 {
        return if org in accounts then Ok(accounts[org]) else Err(NoRows);
      }
      var account := EnsureBillingAccount(org);
      accounts := accounts[org := GrantRow(account, credits)];
      return Ok(accounts[org]);
    }

    method GrantTopupCreditsOnce(event: string, org: string, credits: int) returns (result: Result<(Account, bool)>)
      modifies this
      ensures Tx(T(), result) == GrantOnceTx(old(T()), event, org, credits)
    {
      if event == "" {
        var granted := GrantTopupCredits(org, credits);
        match granted {
          case Ok(a) => return Ok((a, true));
          case Err(e) => return Err(e);
        }
      }
      if credits <= 0 || event in events {
        return if org in accounts then Ok((accounts[org], false)) else Err(NoRows);
      }
      events := events + {event};
      var account := EnsureBillingAccount(org);
      accounts := accounts[org := GrantRow(account, credits)];
      return Ok((accounts[org], true));
    }

    method SetBillingExempt(org: string, exempt: bool) returns (result: Result<Account>)
      modifies this
      ensures Tx(T(), result) == SetExemptTx(old(T()), org, exempt)
    {
      var account := EnsureBillingAccount(org);
      accounts := accounts[org := account.(exempt := exempt)];
      return Ok(accounts[org]);
    }

    // ---------- Automatic top-up ----------

    method EnsureTopupSettings(org: string, month: string) returns (s: Settings)
      modifies this
      ensures s == EnsureSettings(old(settings), org, month)
      ensures T() == old(T()).(settings := old(settings)[org := s])
    {
      if org !in settings {
        settings := settings[org := NewSettings(month)];
      }
      s := settings[org];
      if s.anchorMonth != month {
        s := s.(unitsUsed := 0, spendUsed := 0, anchorMonth := month);
        settings := settings[org := s];
      }
      assert settings == old(settings)[org := s];
    }

    method PrepareAutoTopupAttempt(org: string, reserve: int, triggered: bool, target: int, month: string)
      returns (result: Result<Attempt>)
      modifies this
      ensures Tx(T(), result) == PrepareTx(hash, old(T()), org, reserve, triggered, target, month)
    {
      if org !in accounts {
        return Err(NoRows);
      }
      var account := accounts[org];
      var s := EnsureTopupSettings(org, month);
      if !s.enabled || (!triggered && account.Balance() > s.threshold) {
        return Ok(NoPurchase(account));
      }
      var goal := target;
      if goal <= 0 {
        goal := Max(s.target, reserve);
      }
      var cents := TopupUnitCents(account.planCode);
      if account.Balance() >= goal || (s.maxCents > 0 && s.spendUsed + cents > s.maxCents) {
        return Ok(NoPurchase(account));
      }
      var key := IdempotencyKey(hash, org, account.planCode, s.anchorMonth, s.unitsUsed + 1, cents);
      return Ok(Purchase(account, key, goal, cents));
    }

    method CompleteAutoTopupAttempt(org: string, invoice: string, cents: int, month: string)
      returns (result: Result<Account>)
      modifies this
      ensures Tx(T(), result) == CompleteTx(old(T()), org, invoice, cents, month)
    {
      hide TrimSpace;
      if org !in accounts {
        return Err(NoRows);
      }
      var s := EnsureTopupSettings(org, month);
      var id := TrimSpace(invoice);
      if id != "" {
        if id in events {
          return Ok(accounts[org]);
        }
        events := events + {id};
      }
      accounts := accounts[org := GrantRow(accounts[org], TOPUP_UNIT_CREDITS)];
      settings := settings[org := s.(unitsUsed := s.unitsUsed + 1, spendUsed := s.spendUsed + Max(cents, 0),
                                     anchorMonth := month)];
      return Ok(accounts[org]);
    }

    /** The body of the purchase loop: prepare, purchase, complete. */
    method AutoTopupRound(org: string, reserve: int, purchase: Option<Purchaser>, tick: Tick,
                          triggered: bool, target: int) returns (end: Round)
      modifies this
      ensures end == TopupRound(hash, old(T()), org, reserve, purchase, tick, triggered, target)
      ensures T() == if end.Stop? then end.run.tables else end.tables
    {
      var attempt := PrepareAutoTopupAttempt(org, reserve, triggered, target, tick.prepare);
      match attempt {
        case Err(e) =>
          return Stop(TopupRun(T(), Err(e), 0));
        case Ok(NoPurchase(account)) =>
          if account.Balance() < reserve {
            return Stop(TopupRun(T(), Err(Insufficient(reserve, account.Balance())), 0));
          }
          return Stop(TopupRun(T(), Ok(account), 0));
        case Ok(Purchase(_, key, goal, cents)) =>
          if purchase == None {
            return Stop(TopupRun(T(), Err(TopupNotConfigured), 0));
          }
          var invoice := purchase.value(key);
          if invoice == None {
            return Stop(TopupRun(T(), Err(PaymentFailed), 0));
          }
          var updated := CompleteAutoTopupAttempt(org, GrantKey(invoice.value, key), cents, tick.complete);
          match updated {
            case Err(e) =>
              return Stop(TopupRun(T(), Err(e), 1));
            case Ok(account) =>
              if account.Balance() >= goal {
                return Stop(TopupRun(T(), Ok(account), 1));
              }
              return Again(T(), goal);
          }
      }
    }

    /** The purchase loop, cut off when the clock has no more ticks. */
    method AutoTopup(org: string, reserve: int, purchase: Option<Purchaser>, clock: seq<Tick>)
      returns (result: Result<Account>, purchases: nat)
      modifies this
      ensures TopupRun(T(), result, purchases)
           == AutoTopupRun(hash, old(T()), org, reserve, purchase, clock, false, 0)
    {
      hide AutoTopupRun, TopupRound;
      var triggered, target := false, 0;
      purchases := 0;
      ghost var now := T();
      ghost var whole := AutoTopupRun(hash, now, org, reserve, purchase, clock, false, 0);
      for round := 0 to |clock|
        invariant now == T()
        invariant whole == Counted(
          AutoTopupRun(hash, now, org, reserve, purchase, clock[round..], triggered, target), purchases)
      {
        assert clock[round..][0] == clock[round] && clock[round..][1..] == clock[round + 1..];
        TopupEnds(hash, now, org, reserve, purchase, clock[round..], triggered, target);
        var end := AutoTopupRound(org, reserve, purchase, clock[round], triggered, target);
        match end {
          case Stop(run) =>
            return run.result, purchases + run.purchases;
          case Again(t', goal) =>
            TopupGoesOn(hash, now, org, reserve, purchase, clock[round..], triggered, target, t', goal, purchases);
            now, triggered, target, purchases := t', true, goal, purchases + 1;
        }
      }
      TopupEnds(hash, now, org, reserve, purchase, [], triggered, target);
      return Err(RoundsExhausted), purchases;
    }
  }

  class BillingService {
    const store: BillingStore
    const purchase: Option<Purchaser>

    constructor (store: BillingStore, purchase: Option<Purchaser>)
      ensures this.store == store && this.purchase == purchase
    {
      this.store := store;
      this.purchase := purchase;
    }

    /** Admission: pick the reserve, top up when the balance is short, then reserve. */
    method AdmitRun(org: string, run: string, flavor: Flavor, startedAt: int, clock: seq<Tick>)
      returns (result: Result<Admission>)
      modifies store
      ensures Tx(store.T(), result)
           == ServiceAdmit(store.hash, old(store.T()), org, run, flavor, startedAt, purchase, clock)
    {
      if run == "" || org == "" {
        return Err(MissingIds);
      }
      var account := store.EnsureBillingAccount(org);
      if account.exempt {
        var comped := store.AdmitRun(org, run, 0, flavor, startedAt);
        match comped {
          case Err(e) => return Err(e);
          case Ok(_) => return Ok(Admission(account, flavor, 0, true, account.Balance()));
        }
      }
      if !FlavorAllowed(flavor, account.maxFlavor) {
        return Err(FlavorNotAllowed);
      }
      var reserve := ReserveCredits(account, flavor);
      if account.Balance() < reserve {
        var topped, purchases := store.AutoTopup(org, reserve, purchase, clock);
        match topped {
          case Err(e) => return Err(e);
          case Ok(a) => account := a;
        }
      }
      var admitted := store.AdmitRun(org, run, reserve, flavor, startedAt);
      match admitted {
        case Err(e) => return Err(e);
        case Ok((res, a)) => return Ok(Admission(a, flavor, res.reserved, false, a.Balance()));
      }
    }
  }
}
