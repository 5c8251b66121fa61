/**
  The monthly counters of the top-up settings over any run (store.go:275-293, topup.go): what
  the row of a month holds is what was counted in that month, and nothing from before.
 */
module TopupMonths {
  import opened Text
  import opened Billing
  import opened Transactions
  import opened Ledger
  import opened TopupProtocol

  /** The month that an action reads off the clock, if it can touch the organization's settings row. */
  function ClockOf(c: Config, a: Action): Option<string>
  {
    match a
    case PrepareStep(_, m) => Some(m)
    case CompleteStep(_, m) => Some(m)
    case Configure(_, _, _, _, _, m) => Some(m)
    case Other(PrepareTopup(org, m)) => if org == c.org then Some(m) else None
    case Other(CompleteTopup(org, _, _, m)) => if org == c.org then Some(m) else None
    case _ => None
  }

  function MonthAt(c: Config, a: Action, now: string): string
  {
    match ClockOf(c, a) case Some(m) => m case None => now
  }

  /** The clock does not go back to a month that is over. */
  predicate Ordered(c: Config, actions: seq<Action>, now: string, past: set<string>)
    decreases |actions|
  {
    actions != [] ==>
      var m := MonthAt(c, actions[0], now);
      m !in past && Ordered(c, actions[1..], m, if m == now then past else past + {now})
  }

  function LastMonth(c: Config, actions: seq<Action>, now: string): string
  {
    if actions == [] then now else LastMonth(c, actions[1..], MonthAt(c, actions[0], now))
  }

  /** Units and cents. */
  datatype Count = Count(units: nat, cents: nat)

  const NOTHING := Count(0, 0)

  predicate IsNew(t: Tables, bill: string)
  {
    TrimSpace(bill) == "" || TrimSpace(bill) !in t.events
  }

  /** What an action counts: a completion under a new id counts one unit at its price. */
  function Counts(c: Config, w: World, a: Action): Count
  {
    match a
    case CompleteStep(l, _) =>
      if l in w.loops && w.loops[l].Paid? && c.org in w.tables.accounts && IsNew(w.tables, w.loops[l].bill) then
        Count(1, w.loops[l].cents)
      else NOTHING
    case Other(CompleteTopup(org, invoice, cents, _)) =>
      if org == c.org && c.org in w.tables.accounts && IsNew(w.tables, invoice) then Count(1, Max(cents, 0))
      else NOTHING
    case _ => NOTHING
  }

  /** What the actions of a run counted in one month. */
  function Tally(c: Config, w: World, actions: seq<Action>, month: string): Count
    decreases |actions|
  {
    if actions == [] then NOTHING
    else
      var here := if ClockOf(c, actions[0]) == Some(month) then Counts(c, w, actions[0]) else NOTHING;
      var rest := Tally(c, Next(c, w, actions[0]), actions[1..], month);
      Count(here.units + rest.units, here.cents + rest.cents)
  }

  /** What the row holds for a month. */
  function Stored(c: Config, t: Tables, month: string): Count
  {
    if c.org in t.settings && t.settings[c.org].anchorMonth == month then
      Count(t.settings[c.org].unitsUsed, t.settings[c.org].spendUsed)
    else NOTHING
  }

  predicate RowDated(c: Config, t: Tables, months: set<string>)
  {
    c.org in t.settings ==> t.settings[c.org].anchorMonth in months
  }

  /** One transaction: what it adds to the row of its month, and whose month the row is then. */
  predicate Adds(c: Config, t: Tables, t': Tables, month: string, count: Count)
  {
    && Stored(c, t', month).units == Stored(c, t, month).units + count.units
    && Stored(c, t', month).cents == Stored(c, t, month).cents + count.cents
    && (c.org in t'.settings ==>
          || t'.settings[c.org].anchorMonth == month
          || (c.org in t.settings && t'.settings[c.org].anchorMonth == t.settings[c.org].anchorMonth))
  }

  lemma CompleteAdds(c: Config, t: Tables, bill: string, cents: int, month: string)
    ensures Adds(c, t, CompleteTx(t, c.org, bill, cents, month).tables, month,
                 if c.org in t.accounts && IsNew(t, bill) then Count(1, Max(cents, 0)) else NOTHING)
  {
    hide TrimSpace;
  }

  lemma PrepareAdds(c: Config, w: World, l: nat, month: string)
    requires l in w.loops && w.loops[l].Ready?
    ensures Adds(c, w.tables, Prepare(c, w, l, month).tables, month, NOTHING)
  {
    hide IdempotencyKey, TopupUnitCents;
  }

  /** A step that reads no month leaves the row as it is. */
  lemma OtherLeaves(c: Config, t: Tables, step: Step)
    requires ClockOf(c, Other(step)).None?
    ensures var t' := Apply(t, step);
            && (c.org in t'.settings <==> c.org in t.settings)
            && (c.org in t.settings ==> t'.settings[c.org] == t.settings[c.org])
  {
    hide AdmitTx, FinalizeTx, GrantOnceTx, CompleteTx;
    match step {
      case Admit(org, run, credits, flavor, startedAt) =>
        AdmitBalancesOnly(t, org, run, Max(credits, 0), flavor, startedAt, c.org);
      case Finalize(run, terminalState, endedAt) =>
        FinalizeBalancesOnly(t, run, terminalState, endedAt, c.org);
      case GrantOnce(event, org, credits) =>
        GrantKeepsSettings(t, event, org, credits, c.org);
      case CompleteTopup(org, invoice, cents, m) =>
        CompleteKeepsOthers(t, org, invoice, cents, m, c.org);
      case _ =>
    }
  }

  lemma ActionAdds(c: Config, w: World, a: Action, month: string)
    requires ClockOf(c, a) == Some(month)
    ensures Adds(c, w.tables, Next(c, w, a).tables, month, Counts(c, w, a))
  {
    hide PrepareTx, CompleteTx, IsNew, TrimSpace;
    match a {
      case PrepareStep(l, m) =>
        if l in w.loops && w.loops[l].Ready? {
          PrepareAdds(c, w, l, m);
        }
      case CompleteStep(l, m) =>
        if l in w.loops && w.loops[l].Paid? {
          CompleteAdds(c, w.tables, w.loops[l].bill, w.loops[l].cents, m);
        }
      case Configure(_, _, _, _, _, m) =>
      case Other(CompleteTopup(org, invoice, cents, m)) =>
        CompleteAdds(c, w.tables, invoice, cents, m);
      case _ =>
    }
  }

  lemma ActionLeaves(c: Config, w: World, a: Action, month: string)
    requires ClockOf(c, a).None?
    ensures Adds(c, w.tables, Next(c, w, a).tables, month, NOTHING)
  {
    hide Apply;
    if a.Other? {
      OtherLeaves(c, w.tables, a.step);
    }
  }

  lemma {:induction false} LastIsLater(c: Config, actions: seq<Action>, now: string, past: set<string>)
    requires Ordered(c, actions, now, past) && now !in past
    ensures LastMonth(c, actions, now) !in past
    decreases |actions|
  {
    if actions != [] {
      var m := MonthAt(c, actions[0], now);
      LastIsLater(c, actions[1..], m, if m == now then past else past + {now});
    }
  }

  /**
    Over any run whose clock does not go back, whatever the plans, caps and interleavings: the
    counters of the last month are what the row held for it at the start and one unit, at the
    price it was bought for, for each purchase first recorded in that month.
   */
  lemma {:induction false} MonthIsTallied(c: Config, w: World, actions: seq<Action>, now: string, past: set<string>)
    requires now !in past && RowDated(c, w.tables, past + {now}) && Ordered(c, actions, now, past)
    ensures var month := LastMonth(c, actions, now);
            var start, end := Stored(c, w.tables, month), Stored(c, RunWorld(c, w, actions).tables, month);
            var tally := Tally(c, w, actions, month);
            end.units == start.units + tally.units && end.cents == start.cents + tally.cents
    decreases |actions|
  {
    hide Next, Counts;
    if actions != [] {
      var a, m := actions[0], MonthAt(c, actions[0], now);
      var w', past' := Next(c, w, a), if m == now then past else past + {now};
      var month := LastMonth(c, actions, now);
      if ClockOf(c, a).Some? {
        ActionAdds(c, w, a, m);
      } else {
        ActionLeaves(c, w, a, m);
      }
      assert past' + {m} == past + {now} + {m};
      MonthIsTallied(c, w', actions[1..], m, past');
      LastIsLater(c, actions[1..], m, past');
      assert month != m ==> Stored(c, w.tables, month) == NOTHING == Stored(c, w'.tables, month);
    }
  }

  lemma {:induction false} AllowedIsOrdered(c: Config, w: World, actions: seq<Action>, now: string, past: set<string>)
    requires AllowedMonths(c, w, actions, now, past)
    ensures Ordered(c, actions, now, past)
    decreases |actions|
  {
    hide Next;
    if actions != [] {
      var m := MonthOf(c, actions[0], now);
      assert m == MonthAt(c, actions[0], now);
      AllowedIsOrdered(c, Next(c, w, actions[0]), actions[1..], m, if m == now then past else past + {now});
    }
  }

  /**
    So where the cap is safe, a month that began during the run holds exactly what was counted
    in it, within its cap: whatever an earlier month spent is forgotten.
   */
  lemma NewMonthHoldsItsOwn(c: Config, w: World, actions: seq<Action>, now: string, past: set<string>)
    requires c.org in w.tables.accounts && now !in past && Dated(c, w, past + {now}) && NoneInFlight(w, now)
    requires CapOk(c, w.tables) && AllowedMonths(c, w, actions, now, past) && LastMonth(c, actions, now) != now
    ensures var t, month := RunWorld(c, w, actions).tables, LastMonth(c, actions, now);
            var tally := Tally(c, w, actions, month);
            && Stored(c, t, month).units == tally.units && Stored(c, t, month).cents == tally.cents
            && (c.org in t.settings && t.settings[c.org].anchorMonth == month && t.settings[c.org].maxCents > 0 ==>
                  tally.cents <= t.settings[c.org].maxCents)
  {
    hide Tally, CapOk, Inv;
    AllowedIsOrdered(c, w, actions, now, past);
    LastIsLater(c, actions, now, past);
    MonthIsTallied(c, w, actions, now, past);
    CapHoldsOverMonths(c, w, actions, now, past);
    CapOkAtEnd(c, w, actions);
    var t := RunWorld(c, w, actions).tables;
    if c.org in t.settings && t.settings[c.org].maxCents > 0 {
      CapOkReads(c, t);
    }
  }

  lemma CapOkReads(c: Config, t: Tables)
    requires CapOk(c, t) && c.org in t.settings && t.settings[c.org].maxCents > 0
    ensures t.settings[c.org].spendUsed <= t.settings[c.org].maxCents
  {
  }

  lemma {:induction false} CapOkAtEnd(c: Config, w: World, actions: seq<Action>)
    requires CapStays(c, w, actions)
    ensures CapOk(c, RunWorld(c, w, actions).tables)
    decreases |actions|
  {
    if actions != [] {
      CapOkAtEnd(c, Next(c, w, actions[0]), actions[1..]);
    }
  }
}
