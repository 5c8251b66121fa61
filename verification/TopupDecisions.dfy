/**
  What each step of the top-up loop decides, told by the row that is stored, and which
  purchases have the same idempotency key (topup.go, store.go:275-293).
 */
module TopupDecisions {
  import opened Text
  import opened Billing
  import opened Transactions
  import opened Topup
  import opened TopupProofs

  // ---------- The month's counters ----------

  /** A counter of the stored row as this month sees it: last month's count is forgotten. */
  function ThisMonth(s: Settings, month: string, count: nat): nat
  {
    if s.anchorMonth == month then count else 0
  }

  /** The settings row is there and of this month; nothing but the counters of an older month has changed. */
  predicate MadeCurrent(t: Tables, t': Tables, org: string, month: string)
  {
    && org in t'.settings && t' == t.(settings := t.settings[org := t'.settings[org]])
    && t'.settings[org].anchorMonth == month
    && if org !in t.settings then t'.settings[org] == Settings(false, 2, 10, 0, 0, 0, 0, month)
       else
         var s, s' := t.settings[org], t'.settings[org];
         && s'.unitsUsed == ThisMonth(s, month, s.unitsUsed) && s'.spendUsed == ThisMonth(s, month, s.spendUsed)
         && s' == s.(unitsUsed := s'.unitsUsed, spendUsed := s'.spendUsed, anchorMonth := month)
  }

  // ---------- Preparing ----------

  function GoalOf(s: Settings, reserve: int, target: int): int
  {
    if target > 0 then target else Max(s.target, reserve)
  }

  /**
    Top-up is enabled, was triggered or the balance is at the threshold or below, the balance
    is below the goal, and one more unit fits the cap on what was spent this month.
   */
  predicate Buys(t: Tables, org: string, reserve: int, triggered: bool, target: int, month: string)
  {
    && org in t.accounts && org in t.settings
    && var a, s := t.accounts[org], t.settings[org];
    && s.enabled && (triggered || a.Balance() <= s.threshold) && a.Balance() < GoalOf(s, reserve, target)
    && (s.maxCents == 0 || ThisMonth(s, month, s.spendUsed) + TopupUnitCents(a.planCode) <= s.maxCents)
  }

  /** The key of the month's next unit. */
  function NextKey(hash: string -> string, t: Tables, org: string, month: string): string
    requires org in t.accounts && org in t.settings
  {
    var s, plan := t.settings[org], t.accounts[org].planCode;
    IdempotencyKey(hash, org, plan, month, ThisMonth(s, month, s.unitsUsed) + 1, TopupUnitCents(plan))
  }

  /** A prepare step makes the row current and buys the month's next unit, or nothing. */
  lemma PrepareExactly(hash: string -> string, t: Tables, org: string, reserve: int, triggered: bool, target: int,
                       month: string)
    ensures var p := PrepareTx(hash, t, org, reserve, triggered, target, month);
            if org !in t.accounts then p == Tx(t, Err(NoRows))
            else
              var a := t.accounts[org];
              && MadeCurrent(t, p.tables, org, month)
              && p.result == Ok(if Buys(t, org, reserve, triggered, target, month)
                                then Purchase(a, NextKey(hash, t, org, month), GoalOf(t.settings[org], reserve, target),
                                              TopupUnitCents(a.planCode))
                                else NoPurchase(a))
  {
    hide IdempotencyKey, TopupUnitCents;
  }

  /**
    In a new month, a loop that is enabled, triggered and short buys exactly when there is no
    cap or one unit fits it, whatever was spent in the months before.
   */
  lemma NewMonthBuysExactly(hash: string -> string, t: Tables, org: string, reserve: int, triggered: bool, target: int,
                            month: string)
    requires org in t.accounts && org in t.settings && t.settings[org].anchorMonth != month
    requires var s, a := t.settings[org], t.accounts[org];
             && s.enabled && (triggered || a.Balance() <= s.threshold)
             && a.Balance() < if target > 0 then target else Max(s.target, reserve)
    ensures var p := PrepareTx(hash, t, org, reserve, triggered, target, month);
            var s, cents := t.settings[org], TopupUnitCents(t.accounts[org].planCode);
            p.result.Ok? && (p.result.value.Purchase? <==> s.maxCents == 0 || cents <= s.maxCents)
  {
    hide PrepareTx, IdempotencyKey, TopupUnitCents;
    PrepareExactly(hash, t, org, reserve, triggered, target, month);
  }

  /** The price of a unit falls with the plan; a plan without a price of its own pays the default one. */
  lemma UnitPrices(plan: string)
    ensures TopupUnitCents("business") < TopupUnitCents("growth") < TopupUnitCents("free") < TopupUnitCents("starter")
    ensures TopupUnitCents("starter") == 2500 && TopupUnitCents("growth") == 2000 && TopupUnitCents("business") == 1600
    ensures plan !in {"starter", "growth", "business"} ==> TopupUnitCents(plan) == 2200
  {
  }

  // ---------- Completing ----------

  /** The id that a paid attempt is recorded under is the provider's invoice, or the key when it names none. */
  lemma RecordedUnder(buy: Purchaser, hash: string -> string, org: string, plan: string, month: string, unit: nat,
                      cents: nat)
    ensures var key := IdempotencyKey(hash, org, plan, month, unit, cents);
            buy(key).Some? ==>
              var invoice := TrimSpace(buy(key).value);
              && RecordedId(buy, key) != ""
              && RecordedId(buy, key) == if invoice == "" then TrimSpace(key) else invoice
  {
    var key := IdempotencyKey(hash, org, plan, month, unit, cents);
    RecordedIdNotBlank(buy, hash, org, plan, month, unit, cents);
    if buy(key).Some? {
      TrimIsTrimmed(buy(key).value, IsSpace);
      TrimIsTrimmed(TrimSpace(buy(key).value), IsSpace);
    }
    hide Trim, IdempotencyKey;
  }

  /**
    A completion under an id that is recorded moves nothing; any other one, and every one
    without an id, grants 100 credits and counts a unit and its price in this month.
   */
  lemma CompleteExactly(t: Tables, org: string, invoice: string, cents: int, month: string)
    ensures var x, id := CompleteTx(t, org, invoice, cents, month), TrimSpace(invoice);
            var t' := x.tables;
            if org !in t.accounts then x == Tx(t, Err(NoRows))
            else
              && org in t'.accounts && x.result == Ok(t'.accounts[org])
              && if id != "" && id in t.events then MadeCurrent(t, t', org, month)
                 else
                   var a, s := t.accounts[org], if org in t.settings then t.settings[org] else NewSettings(month);
                   && t'.accounts == t.accounts[org := a.(topup := a.topup + 100)]
                   && t'.settings == t.settings[org := s.(unitsUsed := ThisMonth(s, month, s.unitsUsed) + 1,
                                                          spendUsed := ThisMonth(s, month, s.spendUsed) + Max(cents, 0),
                                                          anchorMonth := month)]
                   && t'.events == (if id == "" then t.events else t.events + {id})
                   && t'.reservations == t.reservations && t'.meters == t.meters
  {
    hide TrimSpace;
  }

  // ---------- One round ----------

  /**
    The ways out of a round and their causes. Without a purchase nothing but the settings row
    moves. A paid purchase adds 100 credits if its id is new, and the loop is done when the
    balance reaches the goal.
   */
  lemma RoundExactly(hash: string -> string, t: Tables, org: string, reserve: int, purchase: Option<Purchaser>,
                     tick: Tick, triggered: bool, target: int)
    requires org in t.accounts
    ensures var end := TopupRound(hash, t, org, reserve, purchase, tick, triggered, target);
            var t', balance := if end.Stop? then end.run.tables else end.tables, t.accounts[org].Balance();
            if !Buys(t, org, reserve, triggered, target, tick.prepare) then
              && end.Stop? && end.run.purchases == 0 && MadeCurrent(t, t', org, tick.prepare)
              && end.run.result
                   == if balance < reserve then Err(Insufficient(reserve, balance)) else Ok(t.accounts[org])
            else
              var key := NextKey(hash, t, org, tick.prepare);
              if purchase == None || purchase.value(key) == None then
                && end.Stop? && end.run.purchases == 0 && MadeCurrent(t, t', org, tick.prepare)
                && end.run.result == if purchase == None then Err(TopupNotConfigured) else Err(PaymentFailed)
              else
                var id, goal := RecordedId(purchase.value, key), GoalOf(t.settings[org], reserve, target);
                && org in t'.accounts && t'.events == t.events + {id}
                && t'.accounts[org].Balance() == balance + (if id in t.events then 0 else 100)
                && end == if t'.accounts[org].Balance() >= goal then Stop(TopupRun(t', Ok(t'.accounts[org]), 1))
                          else Again(t', goal)
  {
    hide PrepareTx, CompleteTx, IdempotencyKey, TopupUnitCents, Buys, MadeCurrent, TrimSpace;
    var p := PrepareTx(hash, t, org, reserve, triggered, target, tick.prepare);
    PrepareExactly(hash, t, org, reserve, triggered, target, tick.prepare);
    if Buys(t, org, reserve, triggered, target, tick.prepare) {
      BuysNeeds(t, org, reserve, triggered, target, tick.prepare);
      CurrentKeeps(t, p.tables, org, tick.prepare);
      var key, s, a := NextKey(hash, t, org, tick.prepare), t.settings[org], t.accounts[org];
      if purchase.Some? && purchase.value(key).Some? {
        RecordedIdNotBlank(purchase.value, hash, org, a.planCode, tick.prepare,
                           ThisMonth(s, tick.prepare, s.unitsUsed) + 1, TopupUnitCents(a.planCode));
        var bill := GrantKey(purchase.value(key).value, key);
        PaidCompletes(p.tables, org, bill, TopupUnitCents(a.planCode), tick.complete);
      }
    }
  }

  lemma PaidCompletes(t: Tables, org: string, bill: string, cents: nat, month: string)
    requires org in t.accounts && TrimSpace(bill) != ""
    ensures var x, id := CompleteTx(t, org, bill, cents, month), TrimSpace(bill);
            && org in x.tables.accounts && x.result == Ok(x.tables.accounts[org])
            && x.tables.events == t.events + {id}
            && x.tables.accounts[org].Balance() == t.accounts[org].Balance() + if id in t.events then 0 else 100
  {
    hide CompleteTx, TrimSpace;
    CompleteExactly(t, org, bill, cents, month);
    var id := TrimSpace(bill);
    assert id in t.events ==> t.events + {id} == t.events;
  }

  lemma BuysNeeds(t: Tables, org: string, reserve: int, triggered: bool, target: int, month: string)
    requires Buys(t, org, reserve, triggered, target, month)
    ensures org in t.settings
  {
  }

  lemma CurrentKeeps(t: Tables, t': Tables, org: string, month: string)
    requires MadeCurrent(t, t', org, month)
    ensures t'.accounts == t.accounts && t'.events == t.events
  {
  }

  // ---------- Idempotency keys ----------

  lemma SameAfterBar(a: string, b: string, x: string, y: string)
    requires '|' !in x && '|' !in y && a + "|" + x == b + "|" + y
    ensures a == b && x == y
  {
    var s := a + "|" + x;
    assert s[|a|] == '|' && s[|b|] == '|';
    assert forall i :: |a| < i < |s| ==> s[i] == x[i - |a| - 1];
    assert forall i :: |b| < i < |s| ==> s[i] == y[i - |b| - 1];
    assert |a| == |b|;
    assert s[..|a|] == a && s[..|b|] == b && s[|a| + 1..] == x && s[|b| + 1..] == y;
  }

  /**
    The text of a key tells organization, plan, month, unit and price apart, as long as no plan
    and no month has a bar in it; an organization may have one.
   */
  lemma KeyTextTells(org: string, plan: string, month: string, unit: nat, cents: nat,
                     org': string, plan': string, month': string, unit': nat, cents': nat)
    requires '|' !in plan && '|' !in plan' && '|' !in month && '|' !in month'
    requires KeyText(org, plan, month, unit, cents) == KeyText(org', plan', month', unit', cents')
    ensures org == org' && plan == plan' && month == month' && unit == unit' && cents == cents'
  {
    hide Itoa;
    var a1, b1 := org + "|" + plan, org' + "|" + plan';
    var a2, b2 := a1 + "|" + month, b1 + "|" + month';
    var a3, b3 := a2 + "|" + Itoa(unit), b2 + "|" + Itoa(unit');
    SameAfterBar(a3, b3, Itoa(cents), Itoa(cents'));
    SameAfterBar(a2, b2, Itoa(unit), Itoa(unit'));
    SameAfterBar(a1, b1, month, month');
    SameAfterBar(org, org', plan, plan');
    ItoaInjective(unit, unit');
    ItoaInjective(cents, cents');
  }

  /** A bar in a plan's code would let two organizations share a key. */
  lemma BarInPlanCollides(a: string, b: string, c: string, month: string, unit: nat, cents: nat)
    ensures KeyText(a + "|" + b, c, month, unit, cents) == KeyText(a, b + "|" + c, month, unit, cents)
  {
    assert a + "|" + b + "|" + c == a + "|" + (b + "|" + c);
  }

  /** With a hash that keeps the two texts apart, equal keys are keys of one unit of one organization. */
  lemma KeysTell(hash: string -> string, org: string, plan: string, month: string, unit: nat, cents: nat,
                 org': string, plan': string, month': string, unit': nat, cents': nat)
    requires '|' !in plan && '|' !in plan' && '|' !in month && '|' !in month'
    requires var x, y := KeyText(org, plan, month, unit, cents), KeyText(org', plan', month', unit', cents');
             hash(x) == hash(y) ==> x == y
    ensures IdempotencyKey(hash, org, plan, month, unit, cents)
              == IdempotencyKey(hash, org', plan', month', unit', cents')
       <==> org == org' && plan == plan' && month == month' && unit == unit' && cents == cents'
  {
    hide KeyText;
    var x, y := KeyText(org, plan, month, unit, cents), KeyText(org', plan', month', unit', cents');
    var prefix := "hetchy-auto-topup-";
    if prefix + hash(x) == prefix + hash(y) {
      assert (prefix + hash(x))[|prefix|..] == hash(x) && (prefix + hash(y))[|prefix|..] == hash(y);
      KeyTextTells(org, plan, month, unit, cents, org', plan', month', unit', cents');
    }
  }
}
