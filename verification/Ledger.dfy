/**
  The credit ledger over whole runs: any sequence of admissions, finalizations, grants,
  top-ups, exemption flips and account mirrors, on any number of organizations and runs.
 */
module Ledger {
  import opened Text
  import opened MapSum
  import opened Billing
  import opened Transactions

  datatype Step =
    | Admit(org: string, run: string, credits: int, flavor: Flavor, startedAt: int)
    | Finalize(run: string, terminalState: string, endedAt: int)
    | OpenAccount(org: string)
    | GrantOnce(event: string, org: string, credits: int)
    | PrepareTopup(org: string, month: string)
    | CompleteTopup(org: string, invoice: string, cents: int, month: string)
    | SetExempt(org: string, exempt: bool)
    | MirrorAccount(org: string, mirror: Mirror)

  function Apply(t: Tables, s: Step): Tables
  {
    match s
    case Admit(org, run, credits, flavor, startedAt) =>
      AdmitTx(t, org, run, Max(credits, 0), flavor, startedAt).tables
    case Finalize(run, terminalState, endedAt) => FinalizeTx(t, run, terminalState, endedAt).tables
    case OpenAccount(org) => t.(accounts := EnsureAccount(t.accounts, org))
    case GrantOnce(event, org, credits) => GrantOnceTx(t, event, org, credits).tables
    case PrepareTopup(org, month) =>
      if org in t.accounts then t.(settings := t.settings[org := EnsureSettings(t.settings, org, month)]) else t
    case CompleteTopup(org, invoice, cents, month) => CompleteTx(t, org, invoice, cents, month).tables
    case SetExempt(org, exempt) => SetExemptTx(t, org, exempt).tables
    case MirrorAccount(org, mirror) => MirrorTx(t, org, mirror).tables
  }

  function Run(t: Tables, steps: seq<Step>): Tables
    decreases |steps|
  {
    if steps == [] then t else Run(Apply(t, steps[0]), steps[1..])
  }

  /** Whatever it decides, a prepare step only makes sure that the settings row is current. */
  lemma PrepareIsAStep(hash: string -> string, t: Tables, org: string, reserve: int, triggered: bool, target: int,
                       month: string)
    ensures PrepareTx(hash, t, org, reserve, triggered, target, month).tables == Apply(t, PrepareTopup(org, month))
  {
  }

  // ---------- Safety ----------

  predicate AccountSafe(a: Account)
  {
    0 <= a.used <= a.included && 0 <= a.topup && 1 <= a.perRunMax
  }

  predicate ReservationSafe(r: Reservation)
  {
    && 0 <= r.fromIncluded && 0 <= r.fromTopup && r.fromIncluded + r.fromTopup == r.reserved
    && 0 <= r.captured && 0 <= r.released
    && match r.status
       case Reserved => r.captured == 0 && r.released == 0
       case Comped => r.reserved == 0 && r.released == 0
       case Captured => r.released == 0 && r.reserved <= r.captured && (r.reserved > 0 ==> r.captured == r.reserved)
       case Released => r.released > 0 && r.captured + r.released == r.reserved
  }

  ghost predicate Safe(t: Tables)
  {
    && (forall o :: o in t.accounts ==> AccountSafe(t.accounts[o]))
    && (forall r :: r in t.reservations ==> ReservationSafe(t.reservations[r]))
    && (forall r :: r in t.reservations ==> t.reservations[r].status != Comped ==> t.reservations[r].org in t.accounts)
  }

  /** What a reservation gives back adds up, and top-up credits come back before included ones. */
  lemma CaptureDeltasBalance(res: Reservation, captured: int)
    requires ReservationSafe(res) && 0 <= captured
    ensures var d := CaptureDeltas(res, captured);
            && captured - d.extra + d.releasedIncluded + d.releasedTopup == res.reserved
            && 0 <= d.releasedIncluded <= res.fromIncluded
            && 0 <= d.releasedTopup <= res.fromTopup
            && (d.releasedIncluded > 0 ==> d.releasedTopup == res.fromTopup)
            && (d.extra > 0 <==> captured > res.reserved)
  {
  }

  lemma CaptureSafe(res: Reservation, credits: int)
    requires ReservationSafe(res) && res.status == Reserved && 0 <= credits
    ensures var c := ChargedCredits(res, credits);
            && ReservationSafe(CapturedReservation(res, c))
            && (res.reserved > 0 ==> c <= res.reserved && CaptureDeltas(res, c).extra == 0)
  {
    CaptureDeltasBalance(res, ChargedCredits(res, credits));
  }

  /** Writing one account row and one reservation row. */
  predicate Writes(t: Tables, t': Tables, org: string, a: Account, run: string, res: Reservation)
  {
    t'.accounts == t.accounts[org := a] && t'.reservations == t.reservations[run := res]
  }

  lemma SafeAfterWrite(t: Tables, t': Tables, org: string, a: Account, run: string, res: Reservation)
    requires Safe(t) && Writes(t, t', org, a, run, res)
    requires AccountSafe(a) && ReservationSafe(res) && res.org == org
    ensures Safe(t')
  {
  }

  lemma AdmitSafe(t: Tables, org: string, run: string, credits: nat, flavor: Flavor, startedAt: int)
    requires Safe(t)
    ensures Safe(AdmitTx(t, org, run, credits, flavor, startedAt).tables)
  {
    var x := AdmitTx(t, org, run, credits, flavor, startedAt);
    if x.result.Ok? && run !in t.reservations {
      assert t.accounts[org := x.result.value.1] == x.tables.accounts;
      SafeAfterWrite(t, x.tables, org, x.result.value.1, run, x.result.value.0);
    } else {
      assert x.tables.accounts == t.accounts && x.tables.reservations == t.reservations;
    }
  }

  lemma FinalizeSafe(t: Tables, run: string, terminalState: string, endedAt: int)
    requires Safe(t)
    ensures Safe(FinalizeTx(t, run, terminalState, endedAt).tables)
  {
    var t' := FinalizeTx(t, run, terminalState, endedAt).tables;
    if run in t.meters && run in t.reservations && t.meters[run].terminalState == "" {
      var res, m := t.reservations[run], t.meters[run];
      var credits := BillableCredits(m.startedAt, endedAt, m.multiplier).1;
      if res.status == Reserved {
        var c := ChargedCredits(res, credits);
        CaptureSafe(res, credits);
        CaptureDeltasBalance(res, c);
        SafeAfterWrite(t, t', res.org, CapturedAccount(t.accounts[res.org], res, c), run, CapturedReservation(res, c));
      } else {
        assert t'.accounts == t.accounts;
      }
    }
  }

  /** Every other step leaves the reservations alone and rewrites at most its own account. */
  predicate AccountOnly(t: Tables, t': Tables, org: string)
  {
    && t'.reservations == t.reservations
    && (t'.accounts == t.accounts || (org in t'.accounts && t'.accounts == t.accounts[org := t'.accounts[org]]))
  }

  /** The used credits only shrink in a mirror. */
  predicate KeepsUsed(t: Tables, t': Tables, org: string)
  {
    org in t'.accounts ==> t'.accounts[org].used == if org in t.accounts then t.accounts[org].used else 0
  }

  lemma GrantEffect(t: Tables, org: string, credits: int)
    requires org in t.accounts ==> AccountSafe(t.accounts[org])
    ensures var t' := GrantTx(t, org, credits).tables;
            && AccountOnly(t, t', org) && KeepsUsed(t, t', org)
            && (org in t'.accounts ==> AccountSafe(t'.accounts[org]))
  {
  }

  lemma GrantOnceEffect(t: Tables, event: string, org: string, credits: int)
    requires Safe(t)
    ensures var t' := GrantOnceTx(t, event, org, credits).tables;
            && AccountOnly(t, t', org) && KeepsUsed(t, t', org)
            && (org in t'.accounts ==> AccountSafe(t'.accounts[org]))
  {
    GrantEffect(t, org, credits);
    GrantEffect(t.(events := t.events + {event}), org, credits);
  }

  lemma CompleteEffect(t: Tables, org: string, invoice: string, cents: int, month: string)
    requires Safe(t)
    ensures var t' := CompleteTx(t, org, invoice, cents, month).tables;
            && AccountOnly(t, t', org) && KeepsUsed(t, t', org)
            && (org in t'.accounts ==> AccountSafe(t'.accounts[org]))
  {
  }

  lemma MirrorEffect(t: Tables, org: string, m: Mirror)
    requires Safe(t)
    ensures var t' := MirrorTx(t, org, m).tables;
            AccountOnly(t, t', org) && AccountSafe(t'.accounts[org])
  {
  }

  lemma OtherStepEffect(t: Tables, s: Step)
    requires Safe(t) && !s.Admit? && !s.Finalize?
    ensures var t' := Apply(t, s);
            && AccountOnly(t, t', s.org)
            && (!s.MirrorAccount? ==> KeepsUsed(t, t', s.org))
            && (s.org in t'.accounts ==> AccountSafe(t'.accounts[s.org]))
  {
    match s {
      case GrantOnce(event, org, credits) => GrantOnceEffect(t, event, org, credits);
      case CompleteTopup(org, invoice, cents, month) => CompleteEffect(t, org, invoice, cents, month);
      case MirrorAccount(org, mirror) => MirrorEffect(t, org, mirror);
      case OpenAccount(org) =>
      case PrepareTopup(org, month) =>
      case SetExempt(org, exempt) =>
    }
  }

  lemma AccountOnlySafe(t: Tables, t': Tables, org: string)
    requires Safe(t) && AccountOnly(t, t', org)
    requires org in t'.accounts ==> AccountSafe(t'.accounts[org])
    ensures Safe(t')
  {
  }

  lemma StepSafe(t: Tables, s: Step)
    requires Safe(t)
    ensures Safe(Apply(t, s))
  {
    if s.Admit? {
      AdmitSafe(t, s.org, s.run, Max(s.credits, 0), s.flavor, s.startedAt);
    } else if s.Finalize? {
      FinalizeSafe(t, s.run, s.terminalState, s.endedAt);
    } else {
      OtherStepEffect(t, s);
      AccountOnlySafe(t, Apply(t, s), s.org);
    }
  }

  /** No sequence of steps, period resets and zero reserves included, overdraws an account. */
  lemma {:induction false} RunSafe(t: Tables, steps: seq<Step>)
    requires Safe(t)
    ensures Safe(Run(t, steps))
    decreases |steps|
  {
    if steps != [] {
      StepSafe(t, steps[0]);
      RunSafe(Apply(t, steps[0]), steps[1..]);
    }
  }

  // ---------- What one transaction decides ----------

  /**
    A first admission succeeds exactly for an exempt account or a sufficient balance, and
    takes top-up credits only after the included ones; an admission that is repeated answers
    with the stored reservation and moves no balance.
   */
  lemma AdmitDecides(t: Tables, org: string, run: string, credits: nat, flavor: Flavor, startedAt: int)
    requires Safe(t)
    ensures var x := AdmitTx(t, org, run, credits, flavor, startedAt);
            && (x.result.Ok? <==>
                  && org in t.accounts
                  && (run in t.reservations || t.accounts[org].exempt || credits <= t.accounts[org].Balance()))
            && (x.result.Err? ==>
                  && x.tables == t
                  && x.result.error
                       == if org in t.accounts then Insufficient(credits, t.accounts[org].Balance()) else NoRows)
            && (x.result.Ok? ==> run in x.tables.reservations && x.tables.reservations[run] == x.result.value.0
                                 && x.tables.accounts[org] == x.result.value.1)
            && (run in t.reservations ==> x.tables.accounts == t.accounts && x.tables.reservations == t.reservations)
            && (x.result.Ok? && x.result.value.0.fromTopup > 0 && run !in t.reservations ==>
                  x.result.value.1.IncludedRemaining() == 0)
  {
  }

  /** A start that is repeated keeps the start time and the end of the meter, and takes the new flavor. */
  lemma AdmitStartsMeter(t: Tables, org: string, run: string, credits: nat, flavor: Flavor, startedAt: int)
    ensures var x := AdmitTx(t, org, run, credits, flavor, startedAt);
            x.result.Ok? ==>
              && run in x.tables.meters && x.tables.meters[run].multiplier == flavor.Multiplier()
              && x.tables.meters[run].startedAt == (if run in t.meters then t.meters[run].startedAt else startedAt)
              && x.tables.meters[run].terminalState == (if run in t.meters then t.meters[run].terminalState else "")
              && forall r :: r in t.meters && r != run ==> r in x.tables.meters && x.tables.meters[r] == t.meters[r]
  {
  }

  /**
    A run that is started again is charged from its first start, at the flavor it was started
    with last, and within its first reservation.
   */
  lemma RestartedRunPrice(t: Tables, org: string, run: string, credits: nat, flavor: Flavor, startedAt: int,
                          again: nat, flavor': Flavor, startedAt': int, terminalState: string, endedAt: int)
    requires Safe(t) && run !in t.reservations && run !in t.meters
    requires AdmitTx(t, org, run, credits, flavor, startedAt).result.Ok? && !t.accounts[org].exempt
    ensures var t1 := AdmitTx(t, org, run, credits, flavor, startedAt).tables;
            var t2 := AdmitTx(t1, org, run, again, flavor', startedAt').tables;
            var t3 := FinalizeTx(t2, run, terminalState, endedAt).tables;
            var price := BillableCredits(startedAt, endedAt, flavor'.Multiplier()).1;
            && t2.accounts == t1.accounts && t2.reservations == t1.reservations
            && run in t3.meters && run in t3.reservations
            && t3.meters[run].captured == t3.reservations[run].captured
            && t3.meters[run].captured == if credits > 0 then Min(price, credits) else price
  {
    hide BillableCredits, CaptureDeltas;
    var t1 := AdmitTx(t, org, run, credits, flavor, startedAt).tables;
    AdmitStartsMeter(t, org, run, credits, flavor, startedAt);
    AdmitStartsMeter(t1, org, run, again, flavor', startedAt');
  }

  /**
    A finalization charges the metered price, capped by the reservation when there is one;
    meter and reservation record the same amount, and the rest of the reservation is released.
   */
  lemma FinalizeCharges(t: Tables, run: string, terminalState: string, endedAt: int)
    requires Safe(t) && run in t.meters && t.meters[run].terminalState == ""
    requires run in t.reservations && t.reservations[run].status == Reserved
    ensures var t' := FinalizeTx(t, run, terminalState, endedAt).tables;
            var m, res, res' := t.meters[run], t.reservations[run], t'.reservations[run];
            var price := BillableCredits(m.startedAt, endedAt, m.multiplier).1;
            && res'.captured == t'.meters[run].captured
            && res'.captured == (if res.reserved > 0 then Min(price, res.reserved) else price)
            && (res.reserved > 0 ==> res'.released == res.reserved - res'.captured)
            && (res'.status == Released <==> res'.captured < res.reserved)
            && t'.meters[run].endedAt == Some(endedAt)
  {
    var m, res := t.meters[run], t.reservations[run];
    CaptureDeltasBalance(res, ChargedCredits(res, BillableCredits(m.startedAt, endedAt, m.multiplier).1));
  }

  /** A run is finalized once: a second call changes nothing, whatever state and time it brings. */
  lemma FinalizedOnce(t: Tables, run: string, state1: string, end1: int, state2: string, end2: int)
    requires Safe(t)
    ensures var t' := FinalizeTx(t, run, state1, end1).tables;
            FinalizeTx(t', run, state2, end2) == Tx(t', Ok(()))
  {
    hide BillableCredits, CaptureDeltas;
  }

  /** One event grants once: a second grant under its id changes nothing, whatever it asks for. */
  lemma GrantedOnce(t: Tables, event: string, org: string, credits: int, other: string, more: int)
    requires event != "" && credits > 0
    ensures var t' := GrantOnceTx(t, event, org, credits).tables;
            var again := GrantOnceTx(t', event, other, more);
            again.tables == t' && (again.result.Ok? ==> !again.result.value.1)
  {
  }

  // ---------- Conservation ----------

  /** The credits of an organization that a reservation holds or has used up. */
  function Held(r: Reservation, org: string): int
  {
    if r.org != org then 0
    else
      match r.status
      case Reserved => r.reserved
      case Captured => r.captured
      case Released => r.captured
      case Comped => 0
  }

  ghost function HeldBy(org: string): Reservation -> int { r => Held(r, org) }

  ghost function BalanceOf(t: Tables, org: string): int
  {
    if org in t.accounts then t.accounts[org].Balance() else 0
  }

  /** Balance, open reservations and captured credits together. */
  ghost function Worth(t: Tables, org: string): int
  {
    BalanceOf(t, org) + Total(t.reservations, HeldBy(org))
  }

  /** The credits that a step brings in: grants that count, and the allowance of a new account. */
  ghost function Inflow(t: Tables, s: Step, org: string): int
  {
    var opening := if org !in t.accounts && org in Apply(t, s).accounts then NEW_ACCOUNT.included else 0;
    match s
    case GrantOnce(event, o, credits) =>
      opening + if o == org && credits > 0 && (event == "" || event !in t.events) then credits else 0
    case CompleteTopup(o, invoice, cents, month) =>
      var id := TrimSpace(invoice);
      opening + if o == org && o in t.accounts && (id == "" || id !in t.events) then TOPUP_UNIT_CREDITS else 0
    case _ => opening
  }

  lemma WorthAfterWrite(t: Tables, t': Tables, o: string, a: Account, run: string, res: Reservation, org: string)
    requires o in t.accounts && Writes(t, t', o, a, run, res)
    ensures Worth(t', org) - Worth(t, org)
         == Held(res, org) - (if run in t.reservations then Held(t.reservations[run], org) else 0)
            + if org == o then a.Balance() - t.accounts[o].Balance() else 0
  {
    TotalUpdate(t.reservations, HeldBy(org), run, res);
  }

  /** Where the used credits would be after a capture, if nothing were clamped. */
  function UnclampedUsed(t: Tables, run: string, endedAt: int): int
    requires run in t.meters && run in t.reservations && t.reservations[run].org in t.accounts
  {
    var res, m := t.reservations[run], t.meters[run];
    var d := CaptureDeltas(res, ChargedCredits(res, BillableCredits(m.startedAt, endedAt, m.multiplier).1));
    t.accounts[res.org].used - d.releasedIncluded + d.extra
  }

  /** The capture would leave the account's range, so its SQL clamps the used credits. */
  predicate Clamps(t: Tables, run: string, endedAt: int)
  {
    && run in t.meters && t.meters[run].terminalState == ""
    && run in t.reservations && t.reservations[run].status == Reserved
    && t.reservations[run].org in t.accounts
    && !(0 <= UnclampedUsed(t, run, endedAt) <= t.accounts[t.reservations[run].org].included)
  }

  /**
    A capture closes its reservation, gives back no more used credits than that held, and
    loses or invents exactly the credits that the clamp cuts off.
   */
  lemma CaptureEffect(t: Tables, run: string, terminalState: string, endedAt: int)
    returns (a: Account, res: Reservation)
    requires Safe(t)
    requires run in t.meters && t.meters[run].terminalState == ""
    requires run in t.reservations && t.reservations[run].status == Reserved
    ensures var t', old' := FinalizeTx(t, run, terminalState, endedAt).tables, t.reservations[run];
            var used := UnclampedUsed(t, run, endedAt);
            && Writes(t, t', old'.org, a, run, res)
            && res.org == old'.org && res.status in {Captured, Released} && res.reserved == old'.reserved
            && a.used >= t.accounts[old'.org].used - old'.fromIncluded
            && a.Balance() + res.captured - t.accounts[old'.org].Balance() - old'.reserved
                 == Max(used - t.accounts[old'.org].included, 0) - Max(-used, 0)
  {
    hide BillableCredits;
    var old', m := t.reservations[run], t.meters[run];
    var c := ChargedCredits(old', BillableCredits(m.startedAt, endedAt, m.multiplier).1);
    CaptureDeltasBalance(old', c);
    a, res := CapturedAccount(t.accounts[old'.org], old', c), CapturedReservation(old', c);
  }

  /** Any other finalization leaves the accounts alone and no reservation open that was closed. */
  lemma NoCaptureEffect(t: Tables, run: string, terminalState: string, endedAt: int)
    requires Safe(t)
    requires run in t.meters && t.meters[run].terminalState == "" && run in t.reservations ==>
               t.reservations[run].status != Reserved
    ensures var t' := FinalizeTx(t, run, terminalState, endedAt).tables;
            && t'.accounts == t.accounts
            && (t'.reservations == t.reservations
                || (run in t.reservations && run in t'.reservations
                    && t.reservations[run].status == Comped && t'.reservations[run].status == Comped
                    && t'.reservations == t.reservations[run := t'.reservations[run]]))
  {
    hide BillableCredits, CaptureDeltas;
  }

  /** Finalizing a run keeps every organization's worth exactly when no clamp bites. */
  lemma FinalizeConserves(t: Tables, run: string, terminalState: string, endedAt: int)
    requires Safe(t)
    ensures (forall org :: Worth(FinalizeTx(t, run, terminalState, endedAt).tables, org) == Worth(t, org))
       <==> !Clamps(t, run, endedAt)
  {
    hide FinalizeTx, BillableCredits, Worth;
    var t' := FinalizeTx(t, run, terminalState, endedAt).tables;
    if run in t.meters && t.meters[run].terminalState == ""
       && run in t.reservations && t.reservations[run].status == Reserved {
      var a, res := CaptureEffect(t, run, terminalState, endedAt);
      forall org
        ensures Worth(t', org) - Worth(t, org)
             == if org != res.org then 0
                else a.Balance() + res.captured - t.accounts[org].Balance() - t.reservations[run].reserved
      {
        WorthAfterWrite(t, t', res.org, a, run, res, org);
      }
      assert Worth(t', res.org) == Worth(t, res.org) <==> !Clamps(t, run, endedAt);
    } else {
      NoCaptureEffect(t, run, terminalState, endedAt);
      forall org
        ensures Worth(t', org) == Worth(t, org)
      {
        NoCaptureWorth(t, t', run, org);
      }
    }
  }

  lemma NoCaptureWorth(t: Tables, t': Tables, run: string, org: string)
    requires t'.accounts == t.accounts
    requires t'.reservations == t.reservations
          || (run in t.reservations && run in t'.reservations
              && t.reservations[run].status == Comped && t'.reservations[run].status == Comped
              && t'.reservations == t.reservations[run := t'.reservations[run]])
    ensures Worth(t', org) == Worth(t, org)
  {
    if t'.reservations != t.reservations {
      TotalUpdate(t.reservations, HeldBy(org), run, t'.reservations[run]);
    }
  }

  /** What a first admission takes from the balance its reservation holds. */
  lemma AdmitEffect(t: Tables, org: string, run: string, credits: nat, flavor: Flavor, startedAt: int)
    requires Safe(t)
    ensures var x := AdmitTx(t, org, run, credits, flavor, startedAt);
            if x.result.Ok? && run !in t.reservations then
              var (res, a) := x.result.value;
              && Writes(t, x.tables, org, a, run, res) && org in t.accounts
              && res.org == org && a.Balance() + Held(res, org) == t.accounts[org].Balance()
              && a.used == t.accounts[org].used + res.fromIncluded
              && (if t.accounts[org].exempt then res.status == Comped && res.fromIncluded == 0
                  else res.status == Reserved && res.reserved == credits)
            else x.tables.accounts == t.accounts && x.tables.reservations == t.reservations
  {
    if org in t.accounts {
      assert t.accounts[org := t.accounts[org]] == t.accounts;
    }
  }

  lemma AdmitConserves(t: Tables, s: Step, org: string)
    requires Safe(t) && s.Admit?
    ensures Worth(Apply(t, s), org) == Worth(t, org)
  {
    var credits := Max(s.credits, 0);
    var x := AdmitTx(t, s.org, s.run, credits, s.flavor, s.startedAt);
    AdmitEffect(t, s.org, s.run, credits, s.flavor, s.startedAt);
    if x.result.Ok? && s.run !in t.reservations {
      WorthAfterWrite(t, x.tables, s.org, x.result.value.1, s.run, x.result.value.0, org);
    }
  }

  lemma GrantOnceInflow(t: Tables, event: string, o: string, credits: int, org: string)
    requires Safe(t)
    ensures var t' := GrantOnceTx(t, event, o, credits).tables;
            BalanceOf(t', org) - BalanceOf(t, org) == Inflow(t, GrantOnce(event, o, credits), org)
  {
  }

  lemma CompleteInflow(t: Tables, o: string, invoice: string, cents: int, month: string, org: string)
    requires Safe(t)
    ensures var t' := CompleteTx(t, o, invoice, cents, month).tables;
            BalanceOf(t', org) - BalanceOf(t, org) == Inflow(t, CompleteTopup(o, invoice, cents, month), org)
  {
  }

  /** One step moves the worth of every organization by its inflow, unless it mirrors or clamps. */
  lemma StepConserves(t: Tables, s: Step, org: string)
    requires Safe(t) && !s.MirrorAccount?
    requires s.Finalize? ==> !Clamps(t, s.run, s.endedAt)
    ensures Worth(Apply(t, s), org) == Worth(t, org) + Inflow(t, s, org)
  {
    if s.Admit? {
      AdmitConserves(t, s, org);
    } else if s.Finalize? {
      FinalizeConserves(t, s.run, s.terminalState, s.endedAt);
    } else {
      OtherStepEffect(t, s);
      match s {
        case GrantOnce(event, o, credits) => GrantOnceInflow(t, event, o, credits, org);
        case CompleteTopup(o, invoice, cents, month) => CompleteInflow(t, o, invoice, cents, month, org);
        case OpenAccount(_) =>
        case PrepareTopup(_, _) =>
        case SetExempt(_, _) =>
      }
    }
  }

  // ---------- Runs that never clamp ----------

  /** The included credits that an open reservation holds. */
  function OpenIncluded(r: Reservation, org: string): int
  {
    if r.org == org && r.status == Reserved then r.fromIncluded else 0
  }

  ghost function OpenIncludedBy(org: string): Reservation -> int { r => OpenIncluded(r, org) }

  /** Used credits cover the open reservations, and only comped reservations are empty. */
  ghost predicate Backed(t: Tables)
  {
    && Safe(t)
    && (forall o :: o in t.accounts ==> Total(t.reservations, OpenIncludedBy(o)) <= t.accounts[o].used)
    && (forall r :: r in t.reservations ==> t.reservations[r].status != Comped ==> 1 <= t.reservations[r].reserved)
    && (forall r, o :: r in t.reservations && o !in t.accounts ==> OpenIncluded(t.reservations[r], o) == 0)
  }

  /** What Service.AdmitRun asks for: a positive reserve, or nothing on an exempt account. */
  predicate Disciplined(t: Tables, s: Step)
  {
    && !s.MirrorAccount?
    && (s.Admit? ==> s.credits >= 1 || (s.org in t.accounts && t.accounts[s.org].exempt))
  }

  lemma BackedNeverClamps(t: Tables, run: string, endedAt: int)
    requires Backed(t)
    ensures !Clamps(t, run, endedAt)
  {
    if run in t.meters && run in t.reservations && t.reservations[run].status == Reserved {
      var res, m := t.reservations[run], t.meters[run];
      CaptureDeltasBalance(res, ChargedCredits(res, BillableCredits(m.startedAt, endedAt, m.multiplier).1));
      TotalBounds(t.reservations, OpenIncludedBy(res.org));
      assert OpenIncludedBy(res.org)(res) == res.fromIncluded;
    }
  }

  lemma CoveredAfterWrite(t: Tables, t': Tables, org: string, a: Account, run: string, res: Reservation, o: string)
    requires Writes(t, t', org, a, run, res) && org in t.accounts && res.org == org && o in t.accounts
    requires run in t.reservations ==> t.reservations[run].org == org
    requires Total(t.reservations, OpenIncludedBy(o)) <= t.accounts[o].used
    requires a.used - t.accounts[org].used
          >= OpenIncluded(res, org) - (if run in t.reservations then OpenIncluded(t.reservations[run], org) else 0)
    ensures Total(t'.reservations, OpenIncludedBy(o)) <= t'.accounts[o].used
  {
    TotalUpdate(t.reservations, OpenIncludedBy(o), run, res);
  }

  lemma BackedAfterWrite(t: Tables, t': Tables, org: string, a: Account, run: string, res: Reservation)
    requires Backed(t) && Safe(t') && Writes(t, t', org, a, run, res)
    requires org in t.accounts && res.org == org
    requires run in t.reservations ==> t.reservations[run].org == org
    requires a.used - t.accounts[org].used
          >= OpenIncluded(res, org) - (if run in t.reservations then OpenIncluded(t.reservations[run], org) else 0)
    requires res.status != Comped ==> 1 <= res.reserved
    ensures Backed(t')
  {
    hide Safe;
    forall o | o in t'.accounts
      ensures Total(t'.reservations, OpenIncludedBy(o)) <= t'.accounts[o].used
    {
      CoveredAfterWrite(t, t', org, a, run, res, o);
    }
    forall r, o | r in t'.reservations && o !in t'.accounts
      ensures OpenIncluded(t'.reservations[r], o) == 0
    {
      assert r != run ==> t'.reservations[r] == t.reservations[r];
    }
  }

  lemma ClosedRowBacked(t: Tables, t': Tables, run: string, res: Reservation)
    requires Backed(t) && Safe(t') && t'.accounts == t.accounts
    requires t'.reservations == t.reservations[run := res]
    requires run in t.reservations && t.reservations[run].status == Comped && res.status == Comped
    ensures Backed(t')
  {
    hide Safe;
    forall o | o in t.accounts
      ensures Total(t'.reservations, OpenIncludedBy(o)) == Total(t.reservations, OpenIncludedBy(o))
    {
      TotalUpdate(t.reservations, OpenIncludedBy(o), run, res);
    }
  }

  lemma AdmitBacked(t: Tables, org: string, run: string, credits: nat, flavor: Flavor, startedAt: int)
    requires Backed(t)
    requires credits >= 1 || (org in t.accounts && t.accounts[org].exempt)
    ensures Backed(AdmitTx(t, org, run, credits, flavor, startedAt).tables)
  {
    hide AdmitTx;
    var x := AdmitTx(t, org, run, credits, flavor, startedAt);
    AdmitSafe(t, org, run, credits, flavor, startedAt);
    AdmitEffect(t, org, run, credits, flavor, startedAt);
    if x.result.Ok? && run !in t.reservations {
      BackedAfterWrite(t, x.tables, org, x.result.value.1, run, x.result.value.0);
    }
  }

  lemma FinalizeBacked(t: Tables, run: string, terminalState: string, endedAt: int)
    requires Backed(t)
    ensures Backed(FinalizeTx(t, run, terminalState, endedAt).tables)
  {
    var t' := FinalizeTx(t, run, terminalState, endedAt).tables;
    FinalizeSafe(t, run, terminalState, endedAt);
    if run in t.meters && run in t.reservations
       && t.meters[run].terminalState == "" && t.reservations[run].status == Reserved {
      var a, res := CaptureEffect(t, run, terminalState, endedAt);
      BackedAfterWrite(t, t', res.org, a, run, res);
    } else {
      NoCaptureEffect(t, run, terminalState, endedAt);
      if t'.reservations != t.reservations {
        ClosedRowBacked(t, t', run, t'.reservations[run]);
      }
    }
  }

  lemma AccountOnlyBacked(t: Tables, t': Tables, org: string)
    requires Backed(t) && Safe(t') && AccountOnly(t, t', org) && KeepsUsed(t, t', org)
    ensures Backed(t')
  {
    if org !in t.accounts {
      TotalZero(t.reservations, OpenIncludedBy(org));
    }
  }

  lemma StepBacked(t: Tables, s: Step)
    requires Backed(t) && Disciplined(t, s)
    ensures Backed(Apply(t, s))
  {
    if s.Admit? {
      AdmitBacked(t, s.org, s.run, Max(s.credits, 0), s.flavor, s.startedAt);
    } else if s.Finalize? {
      FinalizeBacked(t, s.run, s.terminalState, s.endedAt);
    } else {
      StepSafe(t, s);
      OtherStepEffect(t, s);
      AccountOnlyBacked(t, Apply(t, s), s.org);
    }
  }

  ghost predicate DisciplinedRun(t: Tables, steps: seq<Step>)
    decreases |steps|
  {
    steps != [] ==> Disciplined(t, steps[0]) && DisciplinedRun(Apply(t, steps[0]), steps[1..])
  }

  ghost function TotalInflow(t: Tables, steps: seq<Step>, org: string): int
    decreases |steps|
  {
    if steps == [] then 0
    else Inflow(t, steps[0], org) + TotalInflow(Apply(t, steps[0]), steps[1..], org)
  }

  /**
    Conservation: over every disciplined run, each organization's balance, open reservations
    and captured credits together grow by exactly what was granted to it. Used credits stay
    at least the open included credits, and no captured amount exceeds its reservation.
   */
  lemma {:induction false} RunConserves(t: Tables, steps: seq<Step>, org: string)
    requires Backed(t) && DisciplinedRun(t, steps)
    ensures Worth(Run(t, steps), org) == Worth(t, org) + TotalInflow(t, steps, org)
    ensures Backed(Run(t, steps))
    ensures forall r :: r in Run(t, steps).reservations && Run(t, steps).reservations[r].status != Comped ==>
      Run(t, steps).reservations[r].captured <= Run(t, steps).reservations[r].reserved
    decreases |steps|
  {
    if steps != [] {
      StepBacked(t, steps[0]);
      if steps[0].Finalize? {
        BackedNeverClamps(t, steps[0].run, steps[0].endedAt);
      }
      StepConserves(t, steps[0], org);
      RunConserves(Apply(t, steps[0]), steps[1..], org);
    }
  }

  lemma {:induction false} RunConcat(t: Tables, a: seq<Step>, b: seq<Step>)
    ensures Run(t, a + b) == Run(Run(t, a), b)
    ensures DisciplinedRun(t, a) && DisciplinedRun(Run(t, a), b) ==> DisciplinedRun(t, a + b)
    decreases |a|
  {
    if a == [] {
      assert a + b == b;
    } else {
      assert (a + b)[0] == a[0] && (a + b)[1..] == a[1..] + b;
      RunConcat(Apply(t, a[0]), a[1..], b);
    }
  }

  /** A capture in backed tables charges nothing beyond its reservation. */
  lemma BackedChargesNoExtra(t: Tables, run: string, endedAt: int)
    requires Backed(t) && run in t.meters && run in t.reservations && t.reservations[run].status == Reserved
    ensures var res, m := t.reservations[run], t.meters[run];
            var c := ChargedCredits(res, BillableCredits(m.startedAt, endedAt, m.multiplier).1);
            c <= res.reserved && CaptureDeltas(res, c).extra == 0
  {
    var m := t.meters[run];
    CaptureSafe(t.reservations[run], BillableCredits(m.startedAt, endedAt, m.multiplier).1);
  }

  lemma EmptyBacked(settings: map<string, Settings>, events: set<string>, org: string)
    ensures Backed(Tables(map[], map[], map[], settings, events))
    ensures Worth(Tables(map[], map[], map[], settings, events), org) == 0
  {
    var none: map<string, Reservation> := map[];
    TotalZero(none, HeldBy(org));
  }

  /** From empty tables, an organization's worth is always exactly what was granted to it. */
  lemma WorthIsWhatCameIn(settings: map<string, Settings>, events: set<string>, steps: seq<Step>, org: string)
    requires DisciplinedRun(Tables(map[], map[], map[], settings, events), steps)
    ensures var t := Tables(map[], map[], map[], settings, events);
            Worth(Run(t, steps), org) == TotalInflow(t, steps, org)
  {
    EmptyBacked(settings, events, org);
    RunConserves(Tables(map[], map[], map[], settings, events), steps, org);
  }

  // ---------- Where conservation stops ----------

  /**
    A run admitted with nothing reserved on a paying account is charged without a cap; on any
    spent account the clamp swallows the charge. Exemption that ends between the service's
    check and the store's transaction leads here.
   */
  lemma ZeroReserveBreaksConservation(t: Tables, org: string, run: string, flavor: Flavor, startedAt: int,
                                      terminalState: string, endedAt: int)
    requires Safe(t) && org in t.accounts && !t.accounts[org].exempt && t.accounts[org].used == t.accounts[org].included
    requires run !in t.reservations && run !in t.meters && startedAt < endedAt
    ensures var t1 := AdmitTx(t, org, run, 0, flavor, startedAt).tables;
            && Clamps(t1, run, endedAt)
            && !forall o :: Worth(FinalizeTx(t1, run, terminalState, endedAt).tables, o) == Worth(t1, o)
  {
    hide BillableCredits, FinalizeTx, Worth;
    var t1 := AdmitTx(t, org, run, 0, flavor, startedAt).tables;
    var price := BillableCredits(startedAt, endedAt, flavor.Multiplier()).1;
    assert price >= 1 by {
      CreditsAreQuarterHours(startedAt, endedAt, flavor.Multiplier());
      MulMonotone(flavor.Multiplier(), 1, CeilDiv(endedAt - startedAt, 15 * NANOS_PER_MINUTE));
    }
    AdmitSafe(t, org, run, 0, flavor, startedAt);
    FinalizeConserves(t1, run, terminalState, endedAt);
  }

  /**
    A mirror moves the worth of its organization by the allowance that is left afterwards less
    the one that was left before. A new account or period leaves the whole new allowance, used
    credits of open reservations included; within a period the used credits stay used. So the
    worth stays exactly if the new period's allowance is what was left of the old, or within a
    period if the allowance is the same or none is left of either.
   */
  lemma MirrorMovesWorth(t: Tables, org: string, m: Mirror)
    requires Safe(t)
    ensures var t' := MirrorTx(t, org, m).tables;
            var allowance := Max(m.included, 0);
            var was := if org in t.accounts then t.accounts[org] else NEW_ACCOUNT.(included := 0);
            var before := if org in t.accounts then was.IncludedRemaining() else 0;
            var renewed := org !in t.accounts || was.periodStart != m.periodStart || was.periodEnd != m.periodEnd;
            var after := if renewed then allowance else Max(allowance - was.used, 0);
            && Worth(t', org) == Worth(t, org) + after - before
            && (Worth(t', org) == Worth(t, org) <==>
                  if renewed then allowance == before
                  else allowance == was.included || (before == 0 && allowance <= was.used))
            && forall o :: o != org ==> Worth(t', o) == Worth(t, o)
  {
  }

  // ---------- How often a run can touch a balance ----------

  /** A step of run `r` that changes the account table. */
  predicate Touches(t: Tables, s: Step, r: string)
  {
    (s.Admit? || s.Finalize?) && s.run == r && Apply(t, s).accounts != t.accounts
  }

  ghost function Admissions(t: Tables, steps: seq<Step>, r: string): nat
    decreases |steps|
  {
    if steps == [] then 0
    else (if steps[0].Admit? && Touches(t, steps[0], r) then 1 else 0) + Admissions(Apply(t, steps[0]), steps[1..], r)
  }

  ghost function Captures(t: Tables, steps: seq<Step>, r: string): nat
    decreases |steps|
  {
    if steps == [] then 0
    else (if steps[0].Finalize? && Touches(t, steps[0], r) then 1 else 0) + Captures(Apply(t, steps[0]), steps[1..], r)
  }

  function AdmissionsLeft(t: Tables, r: string): nat
  {
    if r in t.reservations then 0 else 1
  }

  function CapturesLeft(t: Tables, r: string): nat
  {
    if r in t.reservations && t.reservations[r].status != Reserved then 0 else 1
  }

  /**
    From any tables whatever, however often a run is admitted and finalized again and whatever
    else happens in between, it changes a balance at most once by admission and at most once
    by capture; once comped or captured, never again.
   */
  lemma {:induction false} TouchesAtMostTwice(t: Tables, steps: seq<Step>, r: string)
    ensures Admissions(t, steps, r) <= AdmissionsLeft(t, r)
    ensures Captures(t, steps, r) <= CapturesLeft(t, r)
    decreases |steps|
  {
    if steps != [] {
      var s, t' := steps[0], Apply(t, steps[0]);
      assert s.Admit? && Touches(t, s, r) ==> r !in t.reservations && r in t'.reservations;
      assert s.Finalize? && Touches(t, s, r) ==> CapturesLeft(t, r) == 1 && CapturesLeft(t', r) == 0;
      assert AdmissionsLeft(t', r) <= AdmissionsLeft(t, r) && CapturesLeft(t', r) <= CapturesLeft(t, r);
      TouchesAtMostTwice(t', steps[1..], r);
    }
  }
}
