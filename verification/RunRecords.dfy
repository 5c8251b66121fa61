/**
  The records that a run leaves behind: the rows of its admission and of its finalization in
  every branch, and what one run of a new organization comes to (reservation.go, store.go).
 */
module RunRecords {
  import opened Text
  import opened Billing
  import opened Transactions
  import opened Ledger

  /** The meter of a run as its start leaves it: opened, or with a new flavor only. */
  function StartedMeter(t: Tables, org: string, run: string, flavor: Flavor, startedAt: int): Meter
  {
    var code, multiplier := if flavor == Plus then "plus" else "standard", if flavor == Plus then 2 else 1;
    if run in t.meters then t.meters[run].(flavor := code, multiplier := multiplier)
    else Meter(org, code, multiplier, startedAt, None, 0, 0, "")
  }

  /**
    The rows of a first admission: a comped reservation of nothing on an exempt account, and
    otherwise one of all the credits, which takes top-up credits when nothing else is left.
   */
  lemma AdmitRecords(t: Tables, org: string, run: string, credits: nat, flavor: Flavor, startedAt: int)
    requires Safe(t) && org in t.accounts && run !in t.reservations
    requires t.accounts[org].exempt || credits <= t.accounts[org].Balance()
    ensures var x := AdmitTx(t, org, run, credits, flavor, startedAt);
            var t', a := x.tables, t.accounts[org];
            && run in t'.reservations && org in t'.accounts
            && var res, a' := t'.reservations[run], t'.accounts[org];
            && x.result == Ok((res, a'))
            && t' == t.(accounts := t.accounts[org := a'], reservations := t.reservations[run := res],
                        meters := t.meters[run := StartedMeter(t, org, run, flavor, startedAt)])
            && res.org == org && res.captured == 0 && res.released == 0
            && (if a.exempt then res.status == Comped && res.reserved == 0 && a' == a
                else
                  && res.status == Reserved && res.reserved == credits
                  && a' == a.(used := a.used + res.fromIncluded, topup := a.topup - res.fromTopup)
                  && (res.fromTopup > 0 ==> a'.used == a'.included))
            && res.fromIncluded + res.fromTopup == res.reserved && res.fromIncluded >= 0 && res.fromTopup >= 0
  {
  }

  /** What a finalization writes to the meter, whatever becomes of the reservation. */
  predicate MeterClosed(m: Meter, m': Meter, terminalState: string, endedAt: int)
  {
    && m' == m.(endedAt := Some(endedAt), minutes := m'.minutes, captured := m'.captured,
                terminalState := m'.terminalState)
    && m'.terminalState == (if terminalState == "" then "unknown" else terminalState)
    && (if m.startedAt < endedAt then RoundsUp(m'.minutes, endedAt - m.startedAt, NANOS_PER_MINUTE)
        else m'.minutes == 0)
  }

  /** The quarter hours begun in the time of a run. */
  predicate Quarters(m: Meter, endedAt: int, quarters: int)
  {
    if m.startedAt < endedAt then RoundsUp(quarters, endedAt - m.startedAt, 15 * NANOS_PER_MINUTE) else quarters == 0
  }

  /**
    The rows of a finalization in every branch. A run without a reservation, with one that is
    closed already, or with a comped one moves no balance and records the metered price; an
    open reservation is charged at most what it holds, unless it holds nothing. Only an open
    reservation of a lost account fails.
   */
  lemma FinalizeRecords(t: Tables, run: string, terminalState: string, endedAt: int, quarters: int)
    requires run in t.meters && t.meters[run].terminalState == "" && Quarters(t.meters[run], endedAt, quarters)
    ensures var x := FinalizeTx(t, run, terminalState, endedAt);
            var t', m, price := x.tables, t.meters[run], quarters * Max(t.meters[run].multiplier, 1);
            var open := run in t.reservations && t.reservations[run].status == Reserved;
            var lost := open && t.reservations[run].org !in t.accounts;
            && x.result == (if lost then Err(NoRows) else Ok(()))
            && (lost ==> t' == t)
            && (!lost ==>
                  && run in t'.meters && MeterClosed(m, t'.meters[run], terminalState, endedAt)
                  && t'.meters == t.meters[run := t'.meters[run]] && t'.settings == t.settings && t'.events == t.events
                  && (!open ==>
                        && t'.accounts == t.accounts && t'.meters[run].captured == price
                        && t'.reservations ==
                             if run in t.reservations && t.reservations[run].status == Comped
                             then t.reservations[run := t.reservations[run].(captured := price, released := 0)]
                             else t.reservations)
                  && (open ==>
                        var res := t.reservations[run];
                        var captured := if res.reserved > 0 then Min(price, res.reserved) else price;
                        && t'.meters[run].captured == captured && run in t'.reservations
                        && var res' := t'.reservations[run];
                        && t'.reservations == t.reservations[run := res']
                        && res' == res.(captured := captured, released := res'.released, status := res'.status)))
  {
    hide CaptureDeltas, CaptureRow;
    var m := t.meters[run];
    if m.startedAt < endedAt {
      BilledExactly(m.startedAt, endedAt, m.multiplier, quarters);
    }
    assert BillableCredits(m.startedAt, endedAt, m.multiplier).1 == quarters * Max(m.multiplier, 1);
    hide BillableCredits;
  }

  // ---------- Exemption and grants ----------

  /** Setting the exemption and setting it back leaves nothing behind but the account it opened. */
  lemma ExemptAndBack(t: Tables, org: string, exempt: bool)
    ensures var before := t.(accounts := EnsureAccount(t.accounts, org));
            var x := SetExemptTx(t, org, exempt);
            && org in x.tables.accounts && x.result == Ok(x.tables.accounts[org])
            && x.tables.accounts[org].exempt == exempt
            && SetExemptTx(x.tables, org, before.accounts[org].exempt).tables == before
  {
    var before := t.(accounts := EnsureAccount(t.accounts, org));
    var t' := SetExemptTx(t, org, exempt).tables;
    assert SetExemptTx(t', org, before.accounts[org].exempt).tables.accounts == before.accounts;
  }

  /**
    A mirror that is repeated changes nothing. It never lifts an exemption and never takes
    top-up credits; blank texts stand for the free plan, and a limit below one for that plan's.
   */
  lemma MirrorSettles(t: Tables, org: string, m: Mirror)
    ensures var x := MirrorTx(t, org, m);
            && org in x.tables.accounts && x.result == Ok(x.tables.accounts[org])
            && MirrorTx(x.tables, org, m).tables.accounts == x.tables.accounts
            && var a := x.tables.accounts[org];
            && a.exempt == (m.exempt || (org in t.accounts && t.accounts[org].exempt))
            && a.topup == (if org in t.accounts then t.accounts[org].topup else 0)
            && a.included == Max(m.included, 0) && a.periodStart == m.periodStart && a.periodEnd == m.periodEnd
            && a.planCode == (if m.planCode == "" then "free" else m.planCode)
            && a.maxFlavor == (if m.maxFlavor == "" then "standard" else m.maxFlavor)
            && a.perRunMax == if m.perRunMax < 1 then 4 else m.perRunMax
  {
    var t' := MirrorTx(t, org, m).tables;
    assert MirrorTx(t', org, m).tables.accounts[org] == t'.accounts[org];
  }

  /**
    A grant counts when it asks for credits and its event is new; a grant without an event
    counts every time. The answer says whether this call processed the event, and the credits
    go to the account, opened with its first allowance if need be.
   */
  lemma GrantExactly(t: Tables, event: string, org: string, credits: int)
    ensures var x := GrantOnceTx(t, event, org, credits);
            var t', counts := x.tables, credits > 0 && (event == "" || event !in t.events);
            && (x.result.Err? <==> org !in t.accounts && !counts) && (x.result.Err? ==> x == Tx(t, Err(NoRows)))
            && (x.result.Ok? ==>
                  && org in t'.accounts && x.result == Ok((t'.accounts[org], counts || event == "")))
            && (!counts ==> t' == t)
            && (counts ==>
                  var a := if org in t.accounts then t.accounts[org] else NEW_ACCOUNT;
                  t' == t.(accounts := t.accounts[org := a.(topup := a.topup + credits)],
                           events := if event == "" then t.events else t.events + {event}))
  {
  }
}
