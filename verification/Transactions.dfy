/**
  The transaction bodies of the billing store as functions on the tables: reservation.go,
  the prepare and complete steps of topup.go, and the grant and settings code of store.go.
  A body that returns an error is rolled back, so its tables are the ones it started from.
 */
module Transactions {
  import opened Text
  import opened Billing

  const TOPUP_UNIT_CREDITS := 100

  // ---------- Reservations ----------

  function AdmitTx(t: Tables, org: string, run: string, credits: int, flavor: Flavor, startedAt: int)
    : Tx<(Reservation, Account)>
  {
    if org !in t.accounts then Tx(t, Err(NoRows))
    else
      var meters := UpsertMeterStart(t.meters, run, org, flavor, startedAt);
      var a := t.accounts[org];
      if run in t.reservations then
        Tx(t.(meters := meters), Ok((t.reservations[run], a)))
      else if a.exempt then
        var res := Reservation(org, 0, 0, 0, 0, 0, Comped);
        Tx(t.(reservations := t.reservations[run := res], meters := meters), Ok((res, a)))
      else if a.Balance() < credits then
        Tx(t, Err(Insufficient(credits, a.Balance())))
      else
        var fromIncluded := Min(credits, a.IncludedRemaining());
        var a' := ReserveRow(a, fromIncluded, credits - fromIncluded);
        var res := Reservation(org, credits, fromIncluded, credits - fromIncluded, 0, 0, Reserved);
        if !a'.RowOk() then Tx(t, Err(CheckViolation))
        else
          Tx(t.(accounts := t.accounts[org := a'], reservations := t.reservations[run := res], meters := meters),
             Ok((res, a')))
  }

  datatype Deltas = Deltas(releasedIncluded: int, releasedTopup: int, extra: int)

  function CaptureDeltas(res: Reservation, captured: int): Deltas
  {
    var c := Max(captured, 0);
    var capturedIncluded := Min(c, res.fromIncluded);
    var capturedTopup := Min(Max(c - capturedIncluded, 0), res.fromTopup);
    Deltas(Max(res.fromIncluded - capturedIncluded, 0),
           Max(res.fromTopup - capturedTopup, 0),
           Max(c - res.reserved, 0))
  }

  /** The credits a run is charged: capped by its reservation, unless nothing was reserved. */
  function ChargedCredits(res: Reservation, credits: int): int
  {
    if res.reserved > 0 then Min(credits, res.reserved) else credits
  }

  /** The reservation row that a capture of `captured` credits leaves behind. */
  function CapturedReservation(res: Reservation, captured: int): Reservation
  {
    var d := CaptureDeltas(res, captured);
    var released := d.releasedIncluded + d.releasedTopup;
    res.(captured := captured, released := released, status := if released > 0 then Released else Captured)
  }

  function CapturedAccount(a: Account, res: Reservation, captured: int): Account
  {
    var d := CaptureDeltas(res, captured);
    CaptureRow(a, -d.releasedIncluded + d.extra, d.releasedTopup)
  }

  function FinalizeTx(t: Tables, run: string, terminalState: string, endedAt: int): Tx<()>
  {
    if run !in t.meters || t.meters[run].terminalState != "" then Tx(t, Ok(()))
    else
      var m := t.meters[run];
      var (minutes, credits) := BillableCredits(m.startedAt, endedAt, m.multiplier);
      var state := if terminalState == "" then "unknown" else terminalState;
      if run !in t.reservations || t.reservations[run].status in {Captured, Released} then
        Tx(t.(meters := FinalizeMeter(t.meters, run, endedAt, minutes, credits, state)), Ok(()))
      else
        var res := t.reservations[run];
        if res.status == Comped then
          Tx(t.(meters := FinalizeMeter(t.meters, run, endedAt, minutes, credits, state),
                reservations := t.reservations[run := res.(captured := credits, released := 0)]), Ok(()))
        else if res.org !in t.accounts then Tx(t, Err(NoRows))
        else
          var charged := ChargedCredits(res, credits);
          Tx(t.(meters := FinalizeMeter(t.meters, run, endedAt, minutes, charged, state),
                accounts := t.accounts[res.org := CapturedAccount(t.accounts[res.org], res, charged)],
                reservations := t.reservations[run := CapturedReservation(res, charged)]), Ok(()))
  }

  // ---------- Grants ----------

  function GrantTx(t: Tables, org: string, credits: int): Tx<Account>
  {
    if credits <= 0 then
      Tx(t, if org in t.accounts then Ok(t.accounts[org]) else Err(NoRows))
    else
      var accounts := EnsureAccount(t.accounts, org);
      var a := GrantRow(accounts[org], credits);
      Tx(t.(accounts := accounts[org := a]), Ok(a))
  }

  /** The flag of the result says whether this call was the one that processed the event. */
  function GrantOnceTx(t: Tables, event: string, org: string, credits: int): Tx<(Account, bool)>
  {
    if event == "" then
      var g := GrantTx(t, org, credits);
      Tx(g.tables, if g.result.Ok? then Ok((g.result.value, true)) else Err(g.result.error))
    else if credits <= 0 || event in t.events then
      Tx(t, if org in t.accounts then Ok((t.accounts[org], false)) else Err(NoRows))
    else
      var g := GrantTx(t.(events := t.events + {event}), org, credits);
      Tx(g.tables, Ok((g.tables.accounts[org], true)))
  }

  function SetExemptTx(t: Tables, org: string, exempt: bool): Tx<Account>
  {
    var a := EnsureAccount(t.accounts, org)[org].(exempt := exempt);
    Tx(t.(accounts := t.accounts[org := a]), Ok(a))
  }

  datatype Mirror = Mirror(
    planCode: string,
    periodStart: int,
    periodEnd: int,
    included: int,
    maxFlavor: string,
    perRunMax: int,
    exempt: bool)

  /** UpsertAccountMirror: a new billing period forgets the used credits, otherwise they are capped. */
  function MirrorTx(t: Tables, org: string, m: Mirror): Tx<Account>
  {
    var plan := if m.planCode == "" then "free" else m.planCode;
    var maxFlavor := if m.maxFlavor == "" then "standard" else m.maxFlavor;
    var perRunMax := if m.perRunMax < 1 then 4 else m.perRunMax;
    var included := Max(m.included, 0);
    var a :=
      if org !in t.accounts then
        Account(plan, m.periodStart, m.periodEnd, included, 0, 0, maxFlavor, perRunMax, m.exempt)
      else
        var o := t.accounts[org];
        var used := if o.periodStart != m.periodStart || o.periodEnd != m.periodEnd then 0 else Min(o.used, included);
        Account(plan, m.periodStart, m.periodEnd, included, used, o.topup, maxFlavor, perRunMax, o.exempt || m.exempt);
    Tx(t.(accounts := t.accounts[org := a]), Ok(a))
  }

  // ---------- Automatic top-up ----------

  /** The column defaults of billing_topup_settings. */
  function NewSettings(month: string): Settings
  {
    Settings(false, 2, 10, 0, 0, 0, 0, month)
  }

  /** ensureTopupSettings: insert the defaults, and start a new month's counters at zero. */
  function EnsureSettings(settings: map<string, Settings>, org: string, month: string): Settings
  {
    var s := if org in settings then settings[org] else NewSettings(month);
    if s.anchorMonth == month then s else s.(unitsUsed := 0, spendUsed := 0, anchorMonth := month)
  }

  /** The text that autoTopupIdempotencyKey hashes. */
  function KeyText(org: string, plan: string, month: string, unit: nat, cents: nat): string
  {
    org + "|" + plan + "|" + month + "|" + Itoa(unit) + "|" + Itoa(cents)
  }

  function IdempotencyKey(hash: string -> string, org: string, plan: string, month: string, unit: nat,
                          cents: nat): string
  {
    "hetchy-auto-topup-" + hash(KeyText(org, plan, month, unit, cents))
  }

  datatype Attempt =
    | NoPurchase(account: Account)
    | Purchase(account: Account, key: string, target: int, cents: nat)

  /** prepareAutoTopupAttempt. */
  function PrepareTx(hash: string -> string, t: Tables, org: string, reserve: int, triggered: bool, target: int,
                     month: string)
    : Tx<Attempt>
  {
    if org !in t.accounts then Tx(t, Err(NoRows))
    else
      var a := t.accounts[org];
      var s := EnsureSettings(t.settings, org, month);
      var t' := t.(settings := t.settings[org := s]);
      if !s.enabled || (!triggered && a.Balance() > s.threshold) then Tx(t', Ok(NoPurchase(a)))
      else
        var goal := if target <= 0 then Max(s.target, reserve) else target;
        var cents := TopupUnitCents(a.planCode);
        if a.Balance() >= goal || (s.maxCents > 0 && s.spendUsed + cents > s.maxCents) then
          Tx(t', Ok(NoPurchase(a)))
        else
          var key := IdempotencyKey(hash, org, a.planCode, s.anchorMonth, s.unitsUsed + 1, cents);
          Tx(t', Ok(Purchase(a, key, goal, cents)))
  }

  /** The id under which a paid attempt is recorded: the invoice, or the key when there is none. */
  function GrantKey(invoice: string, key: string): string
  {
    var id := TrimSpace(invoice);
    if id == "" then key else id
  }

  /** completeAutoTopupAttempt: record the invoice, and only the first time grant and count it. */
  function CompleteTx(t: Tables, org: string, invoice: string, cents: int, month: string): Tx<Account>
  {
    if org !in t.accounts then Tx(t, Err(NoRows))
    else
      var id := TrimSpace(invoice);
      var s := EnsureSettings(t.settings, org, month);
      if id != "" && id in t.events then
        Tx(t.(settings := t.settings[org := s]), Ok(t.accounts[org]))
      else
        var a := GrantRow(t.accounts[org], TOPUP_UNIT_CREDITS);
        var s' := s.(unitsUsed := s.unitsUsed + 1, spendUsed := s.spendUsed + Max(cents, 0), anchorMonth := month);
        Tx(t.(accounts := t.accounts[org := a],
              settings := t.settings[org := s'],
              events := if id == "" then t.events else t.events + {id}),
           Ok(a))
  }
}
