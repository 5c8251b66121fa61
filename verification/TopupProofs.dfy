/**
  What the top-up loop and the admission service guarantee when they run on their own, and
  how they decompose into the steps of the ledger.
 */
module TopupProofs {
  import opened Text
  import opened Billing
  import opened Transactions
  import opened Topup
  import opened Ledger

  // ---------- Induction over rounds ----------

  predicate EndKeeps(end: Round, inv: (Tables, bool, int) -> bool, good: (Tables, Result<Account>) -> bool)
  {
    if end.Stop? then good(end.run.tables, end.run.result) else inv(end.tables, true, end.goal)
  }

  predicate EndSpends(end: Round, missing: (Tables, bool, int, nat) -> bool, n: nat)
  {
    if end.Stop? then end.run.result != Err(RoundsExhausted) && end.run.purchases <= Min(1, n)
    else n >= 2 && missing(end.tables, true, end.goal, n - 1)
  }

  predicate EndSpins(end: Round, stuck: (Tables, bool, int) -> bool, t: Tables)
  {
    end.Again? && end.tables.accounts == t.accounts && stuck(end.tables, true, end.goal)
  }

  /** What every round keeps and every way to stop gives, the loop gives. */
  lemma {:induction false} RoundsKeep(round: (Tick, Tables, bool, int) -> Round, inv: (Tables, bool, int) -> bool,
                                      good: (Tables, Result<Account>) -> bool,
                                      clock: seq<Tick>, t: Tables, triggered: bool, target: int)
    requires inv(t, triggered, target)
    requires forall tick, t, tr, ta :: inv(t, tr, ta) ==> EndKeeps(round(tick, t, tr, ta), inv, good)
    requires forall t, tr, ta :: inv(t, tr, ta) ==> good(t, Err(RoundsExhausted))
    ensures var r := Rounds(round, clock, t, triggered, target);
            good(r.tables, r.result)
    decreases |clock|
  {
    if clock != [] {
      var end := round(clock[0], t, triggered, target);
      assert EndKeeps(end, inv, good);
      if end.Again? {
        RoundsKeep(round, inv, good, clock[1..], end.tables, true, end.goal);
      }
    }
  }

  lemma SameTick(tick: Tick, rounds: nat)
    requires rounds > 0
    ensures var clock := Same(tick, rounds);
            clock != [] && clock[0] == tick && clock[1..] == Same(tick, rounds - 1)
  {
  }

  /** When a round that goes on always leaves one purchase less to make, the loop ends in time. */
  lemma {:induction false} RoundsEnd(round: (Tick, Tables, bool, int) -> Round,
                                     missing: (Tables, bool, int, nat) -> bool,
                                     tick: Tick, t: Tables, triggered: bool, target: int, units: nat, rounds: nat)
    requires missing(t, triggered, target, units)
    requires forall t, tr, ta, n :: missing(t, tr, ta, n) ==> EndSpends(round(tick, t, tr, ta), missing, n)
    requires rounds >= 1 && rounds >= units
    ensures var r := Rounds(round, Same(tick, rounds), t, triggered, target);
            r.result != Err(RoundsExhausted) && r.purchases <= units
    decreases rounds
  {
    SameTick(tick, rounds);
    var end := round(tick, t, triggered, target);
    assert EndSpends(end, missing, units);
    if end.Again? {
      RoundsEnd(round, missing, tick, end.tables, true, end.goal, units - 1, rounds - 1);
    }
  }

  /** When every round goes on, the loop uses up whatever rounds it has. */
  lemma {:induction false} RoundsExhaust(round: (Tick, Tables, bool, int) -> Round,
                                         stuck: (Tables, bool, int) -> bool,
                                         tick: Tick, t: Tables, triggered: bool, target: int, rounds: nat)
    requires stuck(t, triggered, target)
    requires forall t, tr, ta :: stuck(t, tr, ta) ==> EndSpins(round(tick, t, tr, ta), stuck, t)
    ensures var r := Rounds(round, Same(tick, rounds), t, triggered, target);
            r.result == Err(RoundsExhausted) && r.purchases == rounds && r.tables.accounts == t.accounts
    decreases rounds
  {
    if rounds > 0 {
      SameTick(tick, rounds);
      var end := round(tick, t, triggered, target);
      assert EndSpins(end, stuck, t);
      RoundsExhaust(round, stuck, tick, end.tables, true, end.goal, rounds - 1);
    }
  }

  // ---------- The answer of the loop ----------

  lemma RoundCovers(hash: string -> string, t: Tables, org: string, reserve: int, purchase: Option<Purchaser>,
                    tick: Tick, triggered: bool, target: int)
    requires target <= 0 || reserve <= target
    ensures match TopupRound(hash, t, org, reserve, purchase, tick, triggered, target)
            case Again(t', goal) => goal <= 0 || reserve <= goal
            case Stop(r) =>
              r.result.Ok? ==> org in r.tables.accounts && r.tables.accounts[org] == r.result.value
                               && r.result.value.Balance() >= reserve
  {
  }

  /** When the loop succeeds, the account it returns is the stored one and covers the reserve. */
  lemma AutoTopupCovers(hash: string -> string, t: Tables, org: string, reserve: int, purchase: Option<Purchaser>,
                        clock: seq<Tick>)
    ensures var r := AutoTopupRun(hash, t, org, reserve, purchase, clock, false, 0);
            r.result.Ok? ==> org in r.tables.accounts && r.tables.accounts[org] == r.result.value
                             && r.result.value.Balance() >= reserve
  {
    ghost var inv := (t: Tables, tr: bool, target: int) => target <= 0 || reserve <= target;
    var good := (t: Tables, r: Result<Account>) =>
      r.Ok? ==> org in t.accounts && t.accounts[org] == r.value && r.value.Balance() >= reserve;
    forall tick, t, tr, ta | inv(t, tr, ta)
      ensures EndKeeps(RoundOf(hash, org, reserve, purchase)(tick, t, tr, ta), inv, good)
    {
      RoundCovers(hash, t, org, reserve, purchase, tick, tr, ta);
    }
    RoundsKeep(RoundOf(hash, org, reserve, purchase), inv, good, clock, t, false, 0);
  }

  // ---------- Progress ----------

  /** The id under which a purchase with this key ends up in the event table. */
  function RecordedId(buy: Purchaser, key: string): string
  {
    match buy(key)
    case None => ""
    case Some(invoice) => TrimSpace(GrantKey(invoice, key))
  }

  /** An idempotency key is never blank, so a paid attempt is always recorded under some id. */
  lemma RecordedIdNotBlank(buy: Purchaser, hash: string -> string, org: string, plan: string, month: string, unit: nat,
                           cents: nat)
    ensures var key := IdempotencyKey(hash, org, plan, month, unit, cents);
            buy(key).Some? ==> RecordedId(buy, key) != ""
  {
    var key := IdempotencyKey(hash, org, plan, month, unit, cents);
    if buy(key).Some? {
      var id := TrimSpace(buy(key).value);
      TrimIsTrimmed(buy(key).value, IsSpace);
      TrimIsTrimmed(id, IsSpace);
      assert key[0] == 'h';
      TrimLeftSuffix(key, IsSpace);
      assert TrimLeft(key, IsSpace) == key;
      TrimRightPrefix(key, IsSpace);
    }
  }

  /**
    A paid round makes progress exactly when its id is new: the balance and the month's units
    move together, or nothing but the settings row's currency changes.
   */
  lemma CompleteProgress(t: Tables, org: string, invoice: string, cents: nat, month: string)
    requires org in t.accounts && TrimSpace(invoice) != ""
    ensures var id := TrimSpace(invoice);
            var t' := CompleteTx(t, org, invoice, cents, month).tables;
            var s := EnsureSettings(t.settings, org, month);
            && CompleteTx(t, org, invoice, cents, month).result == Ok(t'.accounts[org])
            && (id !in t.events ==>
                  && t'.accounts[org] == GrantRow(t.accounts[org], TOPUP_UNIT_CREDITS)
                  && t'.settings[org] == s.(unitsUsed := s.unitsUsed + 1, spendUsed := s.spendUsed + cents)
                  && t'.events == t.events + {id})
            && (id in t.events ==>
                  t'.accounts == t.accounts && t'.events == t.events && t'.settings == t.settings[org := s])
  {
  }

  /** The key of the `unit`-th unit of this month on the account's plan. */
  function UnitKey(hash: string -> string, t: Tables, org: string, month: string, unit: nat): string
    requires org in t.accounts
  {
    var plan := t.accounts[org].planCode;
    IdempotencyKey(hash, org, plan, month, unit, TopupUnitCents(plan))
  }

  function Goal(t: Tables, org: string, reserve: int, month: string, target: int): int
  {
    if target <= 0 then Max(EnsureSettings(t.settings, org, month).target, reserve) else target
  }

  /** The units still missing to the goal. */
  function Shortfall(t: Tables, org: string, goal: int): nat
    requires org in t.accounts
  {
    (Max(goal - t.accounts[org].Balance(), 0) + TOPUP_UNIT_CREDITS - 1) / TOPUP_UNIT_CREDITS
  }

  /** What a prepare step that decides to buy has read. */
  lemma PrepareReads(hash: string -> string, t: Tables, org: string, reserve: int, month: string, triggered: bool,
                     target: int)
    ensures var p := PrepareTx(hash, t, org, reserve, triggered, target, month);
            p.result.Ok? && p.result.value.Purchase? ==>
              && org in t.accounts && p.result.value.account == t.accounts[org]
              && p.result.value.target == Goal(t, org, reserve, month, target)
              && t.accounts[org].Balance() < p.result.value.target
              && p.result.value.cents == TopupUnitCents(t.accounts[org].planCode)
              && p.result.value.key
                   == UnitKey(hash, t, org, month, EnsureSettings(t.settings, org, month).unitsUsed + 1)
              && p.tables == t.(settings := t.settings[org := EnsureSettings(t.settings, org, month)])
  {
  }

  lemma MissingUnits(t: Tables, org: string, goal: int, k: nat)
    requires org in t.accounts
    ensures k < Shortfall(t, org, goal) <==> t.accounts[org].Balance() + TOPUP_UNIT_CREDITS * k < goal
  {
  }

  // ---------- Purchases in a row ----------

  /** The first `n` ids are new and all different. */
  predicate NewIds(id: nat -> string, events: set<string>, n: nat)
  {
    && (forall i: nat :: 1 <= i <= n ==> id(i) !in events)
    && (forall i: nat, j: nat :: 1 <= i < j <= n ==> id(i) != id(j))
  }

  /** By the time of purchase `k + 1` its id is recorded. */
  predicate OldId(id: nat -> string, events: set<string>, k: nat)
  {
    id(k + 1) in events || exists i: nat :: 1 <= i <= k && id(i) == id(k + 1)
  }

  predicate AllPaid(buy: Purchaser, key: nat -> string, n: nat)
  {
    forall i: nat :: 1 <= i <= n ==> buy(key(i)).Some?
  }

  /** Recording the first id and counting from there moves every number by one. */
  lemma IdsShift(id: nat -> string, id': nat -> string, events: set<string>, k: nat)
    requires id(1) !in events
    requires forall i: nat :: id'(i) == id(i + 1)
    ensures NewIds(id', events + {id(1)}, k) <==> NewIds(id, events, k + 1)
    ensures OldId(id', events + {id(1)}, k) <==> OldId(id, events, k + 1)
  {
    if NewIds(id', events + {id(1)}, k) {
      forall i: nat, j: nat | 1 <= i <= k + 1
        ensures id(i) !in events && (i < j <= k + 1 ==> id(i) != id(j))
      {
        assert i > 1 ==> id(i) == id'(i - 1);
        assert j > 1 ==> id(j) == id'(j - 1);
      }
    }
    assert id'(k + 1) == id(k + 2);
    if OldId(id, events, k + 1) && id(k + 2) !in events + {id(1)} {
      var i: nat :| 1 <= i <= k + 1 && id(i) == id(k + 2);
      assert id'(i - 1) == id'(k + 1);
    }
  }

  lemma PaidShift(buy: Purchaser, key: nat -> string, key': nat -> string, k: nat)
    requires forall i: nat :: key'(i) == key(i + 1)
    requires buy(key(1)).Some?
    ensures AllPaid(buy, key', k) <==> AllPaid(buy, key, k + 1)
  {
    if AllPaid(buy, key', k) {
      forall i: nat | 1 <= i <= k + 1
        ensures buy(key(i)).Some?
      {
        assert i > 1 ==> key(i) == key'(i - 1);
      }
    }
  }

  /** The keys of the next purchases; the first from here is number 1. */
  function Keys(hash: string -> string, t: Tables, org: string, month: string): nat -> string
    requires org in t.accounts
  {
    (i: nat) => UnitKey(hash, t, org, month, EnsureSettings(t.settings, org, month).unitsUsed + i)
  }

  /** The ids under which the next purchases would be recorded. */
  function Ids(hash: string -> string, t: Tables, org: string, buy: Purchaser, month: string): nat -> string
    requires org in t.accounts
  {
    (i: nat) => RecordedId(buy, UnitKey(hash, t, org, month, EnsureSettings(t.settings, org, month).unitsUsed + i))
  }

  /** The month's cap leaves room for `n` more units. */
  predicate CapAllows(t: Tables, org: string, month: string, n: nat)
    requires org in t.accounts
  {
    var s := EnsureSettings(t.settings, org, month);
    s.maxCents == 0 || s.spendUsed + n * TopupUnitCents(t.accounts[org].planCode) <= s.maxCents
  }

  predicate Starts(t: Tables, org: string, month: string, triggered: bool)
    requires org in t.accounts
  {
    var s := EnsureSettings(t.settings, org, month);
    s.enabled && (triggered || t.accounts[org].Balance() <= s.threshold)
  }

  /** The loop buys `k` units under new ids, is still short, and then buys one under an old id. */
  predicate SpinsAfter(hash: string -> string, t: Tables, org: string, reserve: int, buy: Purchaser, month: string,
                       triggered: bool, target: int, k: nat)
  {
    && org in t.accounts && Starts(t, org, month, triggered)
    && k < Shortfall(t, org, Goal(t, org, reserve, month, target))
    && CapAllows(t, org, month, k + 1) && AllPaid(buy, Keys(hash, t, org, month), k + 1)
    && NewIds(Ids(hash, t, org, buy, month), t.events, k) && OldId(Ids(hash, t, org, buy, month), t.events, k)
  }

  ghost predicate Spins(hash: string -> string, t: Tables, org: string, reserve: int, buy: Purchaser, month: string,
                        triggered: bool, target: int)
  {
    exists k: nat :: SpinsAfter(hash, t, org, reserve, buy, month, triggered, target, k)
  }

  // ---------- One round ----------

  /** What a paid round leaves for the next one, told by whether its id was new. */
  predicate Bought(hash: string -> string, t: Tables, t': Tables, org: string, buy: Purchaser, month: string)
    requires org in t.accounts
  {
    var s, a, id := EnsureSettings(t.settings, org, month), t.accounts[org], Ids(hash, t, org, buy, month)(1);
    && org in t'.accounts && t'.accounts[org].planCode == a.planCode && t'.events == t.events + {id}
    && t'.accounts[org].Balance() == (if id in t.events then a.Balance() else a.Balance() + TOPUP_UNIT_CREDITS)
    && EnsureSettings(t'.settings, org, month)
         == if id in t.events then s
            else s.(unitsUsed := s.unitsUsed + 1, spendUsed := s.spendUsed + TopupUnitCents(a.planCode))
  }

  /** The round may buy, can buy, and is short even with what it buys. */
  predicate GoesOn(hash: string -> string, t: Tables, org: string, reserve: int, buy: Purchaser, month: string,
                   triggered: bool, target: int)
    requires org in t.accounts
  {
    var goal := Goal(t, org, reserve, month, target);
    && Starts(t, org, month, triggered) && CapAllows(t, org, month, 1)
    && AllPaid(buy, Keys(hash, t, org, month), 1)
    && (if Ids(hash, t, org, buy, month)(1) in t.events then 0 else 1) < Shortfall(t, org, goal)
  }

  lemma PrepareDecides(hash: string -> string, t: Tables, org: string, reserve: int, month: string, triggered: bool,
                       target: int)
    requires org in t.accounts
    ensures var p := PrepareTx(hash, t, org, reserve, triggered, target, month);
            && p.result.Ok? && p.tables.events == t.events && p.tables.accounts == t.accounts
            && (p.result.value.Purchase? <==>
                  && Starts(t, org, month, triggered) && CapAllows(t, org, month, 1)
                  && t.accounts[org].Balance() < Goal(t, org, reserve, month, target))
  {
    hide IdempotencyKey;
  }

  lemma PrepareBuys(hash: string -> string, t: Tables, org: string, reserve: int, month: string, triggered: bool,
                    target: int, s: Settings, key: string, goal: int, cents: nat)
    requires org in t.accounts && Starts(t, org, month, triggered) && CapAllows(t, org, month, 1)
    requires t.accounts[org].Balance() < goal == Goal(t, org, reserve, month, target)
    requires s == EnsureSettings(t.settings, org, month) && key == UnitKey(hash, t, org, month, s.unitsUsed + 1)
    requires cents == TopupUnitCents(t.accounts[org].planCode)
    ensures PrepareTx(hash, t, org, reserve, triggered, target, month)
         == Tx(t.(settings := t.settings[org := s]), Ok(Purchase(t.accounts[org], key, goal, cents)))
  {
    hide IdempotencyKey, TopupUnitCents;
  }

  /** What paying the bill of a prepared purchase does. */
  lemma PaidBuys(hash: string -> string, t: Tables, org: string, buy: Purchaser, month: string)
    requires org in t.accounts && AllPaid(buy, Keys(hash, t, org, month), 1)
    ensures var s, key := EnsureSettings(t.settings, org, month), Keys(hash, t, org, month)(1);
            buy(key).Some? &&
            var c := CompleteTx(t.(settings := t.settings[org := s]), org, GrantKey(buy(key).value, key),
                                TopupUnitCents(t.accounts[org].planCode), month);
            c.result == Ok(c.tables.accounts[org]) && Bought(hash, t, c.tables, org, buy, month)
            && EnsureSettings(c.tables.settings, org, month).target == s.target
  {
    hide TrimSpace, IdempotencyKey;
    var s, key, a := EnsureSettings(t.settings, org, month), Keys(hash, t, org, month)(1), t.accounts[org];
    assert buy(key).Some?;
    RecordedIdNotBlank(buy, hash, org, a.planCode, month, s.unitsUsed + 1, TopupUnitCents(a.planCode));
    CompleteProgress(t.(settings := t.settings[org := s]), org, GrantKey(buy(key).value, key),
                     TopupUnitCents(a.planCode), month);
  }

  lemma RoundGoesOn(hash: string -> string, t: Tables, org: string, reserve: int, buy: Purchaser, month: string,
                    triggered: bool, target: int)
    requires org in t.accounts
    ensures var end := TopupRound(hash, t, org, reserve, Some(buy), Tick(month, month), triggered, target);
            var goal := Goal(t, org, reserve, month, target);
            && (end.Again? <==> GoesOn(hash, t, org, reserve, buy, month, triggered, target))
            && (end.Again? ==>
                  && end.goal == goal && Bought(hash, t, end.tables, org, buy, month)
                  && Goal(end.tables, org, reserve, month, goal) == goal)
            && (end.Stop? ==>
                  end.run.result != Err(RoundsExhausted) && end.run.purchases <= Min(1, Shortfall(t, org, goal)))
  {
    hide PrepareTx, CompleteTx, IdempotencyKey;
    var p := PrepareTx(hash, t, org, reserve, triggered, target, month);
    var goal := Goal(t, org, reserve, month, target);
    PrepareReads(hash, t, org, reserve, month, triggered, target);
    PrepareDecides(hash, t, org, reserve, month, triggered, target);
    MissingUnits(t, org, goal, 0);
    MissingUnits(t, org, goal, 1);
    if p.result.value.Purchase? {
      var key := p.result.value.key;
      assert Keys(hash, t, org, month)(1) == key;
      if buy(key).Some? {
        PaidBuys(hash, t, org, buy, month);
      } else {
        assert !AllPaid(buy, Keys(hash, t, org, month), 1);
      }
    }
  }

  lemma CapShift(t: Tables, t': Tables, org: string, month: string, n: nat)
    requires org in t.accounts && org in t'.accounts && t'.accounts[org].planCode == t.accounts[org].planCode
    requires var s, s' := EnsureSettings(t.settings, org, month), EnsureSettings(t'.settings, org, month);
             s'.maxCents == s.maxCents && s'.spendUsed == s.spendUsed + TopupUnitCents(t.accounts[org].planCode)
    ensures CapAllows(t', org, month, n) <==> CapAllows(t, org, month, n + 1)
  {
    var cents := TopupUnitCents(t.accounts[org].planCode);
    assert (n + 1) * cents == n * cents + cents;
  }

  lemma CapMonotone(t: Tables, org: string, month: string, n: nat)
    requires org in t.accounts && CapAllows(t, org, month, n + 1)
    ensures CapAllows(t, org, month, 1)
  {
    var cents := TopupUnitCents(t.accounts[org].planCode);
    assert (n + 1) * cents == n * cents + cents && n * cents >= 0;
  }

  /** A round under a new id leaves one unit less to buy, and one purchase less before the old id. */
  lemma SpinsShift(hash: string -> string, t: Tables, t': Tables, org: string, reserve: int, buy: Purchaser,
                   month: string, triggered: bool, target: int, k: nat)
    requires org in t.accounts && GoesOn(hash, t, org, reserve, buy, month, triggered, target)
    requires Bought(hash, t, t', org, buy, month) && Ids(hash, t, org, buy, month)(1) !in t.events
    requires Goal(t', org, reserve, month, Goal(t, org, reserve, month, target)) == Goal(t, org, reserve, month, target)
    ensures SpinsAfter(hash, t', org, reserve, buy, month, true, Goal(t, org, reserve, month, target), k)
       <==> SpinsAfter(hash, t, org, reserve, buy, month, triggered, target, k + 1)
  {
    hide IdempotencyKey, RecordedId;
    var goal := Goal(t, org, reserve, month, target);
    var id, id' := Ids(hash, t, org, buy, month), Ids(hash, t', org, buy, month);
    var key, key' := Keys(hash, t, org, month), Keys(hash, t', org, month);
    var used := EnsureSettings(t.settings, org, month).unitsUsed;
    var used' := EnsureSettings(t'.settings, org, month).unitsUsed;
    assert used' == used + 1;
    forall i: nat
      ensures id'(i) == id(i + 1) && key'(i) == key(i + 1)
    {
      assert UnitKey(hash, t', org, month, used' + i) == UnitKey(hash, t, org, month, used + (i + 1));
    }
    IdsShift(id, id', t.events, k);
    assert buy(key(1)).Some?;
    PaidShift(buy, key, key', k + 1);
    CapShift(t, t', org, month, k + 1);
    MissingUnits(t, org, goal, k + 1);
    MissingUnits(t', org, goal, k);
  }

  /** An old id at the next purchase stays the next purchase. */
  lemma SpinsStays(hash: string -> string, t: Tables, t': Tables, org: string, reserve: int, buy: Purchaser,
                   month: string, triggered: bool, target: int)
    requires org in t.accounts && GoesOn(hash, t, org, reserve, buy, month, triggered, target)
    requires Bought(hash, t, t', org, buy, month) && Ids(hash, t, org, buy, month)(1) in t.events
    requires Goal(t', org, reserve, month, Goal(t, org, reserve, month, target)) == Goal(t, org, reserve, month, target)
    ensures SpinsAfter(hash, t, org, reserve, buy, month, triggered, target, 0)
    ensures SpinsAfter(hash, t', org, reserve, buy, month, true, Goal(t, org, reserve, month, target), 0)
  {
    hide IdempotencyKey, RecordedId;
    var id, id' := Ids(hash, t, org, buy, month), Ids(hash, t', org, buy, month);
    assert id'(1) == id(1);
    assert Keys(hash, t', org, month)(1) == Keys(hash, t, org, month)(1);
  }

  /** A loop that spins has a next round, and so has every loop after it; no other loop gets there. */
  lemma RoundSpins(hash: string -> string, t: Tables, org: string, reserve: int, buy: Purchaser, month: string,
                   triggered: bool, target: int)
    requires org in t.accounts
    ensures var end := TopupRound(hash, t, org, reserve, Some(buy), Tick(month, month), triggered, target);
            && (Spins(hash, t, org, reserve, buy, month, triggered, target) <==>
                  end.Again? && Spins(hash, end.tables, org, reserve, buy, month, true, end.goal))
            && (end.Again? && !Spins(hash, t, org, reserve, buy, month, triggered, target) ==>
                  Ids(hash, t, org, buy, month)(1) !in t.events)
  {
    hide SpinsAfter, TopupRound, GoesOn, Bought, Goal;
    var end := TopupRound(hash, t, org, reserve, Some(buy), Tick(month, month), triggered, target);
    RoundGoesOn(hash, t, org, reserve, buy, month, triggered, target);
    if Spins(hash, t, org, reserve, buy, month, triggered, target) {
      var k: nat :| SpinsAfter(hash, t, org, reserve, buy, month, triggered, target, k);
      SpinningGoesOn(hash, t, org, reserve, buy, month, triggered, target, k);
    }
    if end.Again? {
      if Ids(hash, t, org, buy, month)(1) in t.events {
        SpinsStays(hash, t, end.tables, org, reserve, buy, month, triggered, target);
      } else {
        forall k: nat
          ensures SpinsAfter(hash, end.tables, org, reserve, buy, month, true, end.goal, k)
             <==> SpinsAfter(hash, t, org, reserve, buy, month, triggered, target, k + 1)
        {
          SpinsShift(hash, t, end.tables, org, reserve, buy, month, triggered, target, k);
        }
        if Spins(hash, t, org, reserve, buy, month, triggered, target) {
          var k: nat :| SpinsAfter(hash, t, org, reserve, buy, month, triggered, target, k);
          SpinningGoesOn(hash, t, org, reserve, buy, month, triggered, target, k);
          assert SpinsAfter(hash, end.tables, org, reserve, buy, month, true, end.goal, k - 1);
        }
      }
    }
  }

  lemma SpinningGoesOn(hash: string -> string, t: Tables, org: string, reserve: int, buy: Purchaser, month: string,
                       triggered: bool, target: int, k: nat)
    requires SpinsAfter(hash, t, org, reserve, buy, month, triggered, target, k)
    ensures GoesOn(hash, t, org, reserve, buy, month, triggered, target)
    ensures Ids(hash, t, org, buy, month)(1) in t.events <==> k == 0
  {
    hide IdempotencyKey, RecordedId;
    CapMonotone(t, org, month, k);
  }

  // ---------- When the loop ends ----------

  /** Unless the loop spins, every round that goes on leaves exactly one unit less to buy. */
  lemma RoundProgress(hash: string -> string, t: Tables, org: string, reserve: int, buy: Purchaser, month: string,
                      triggered: bool, target: int)
    requires org in t.accounts && !Spins(hash, t, org, reserve, buy, month, triggered, target)
    ensures var end := TopupRound(hash, t, org, reserve, Some(buy), Tick(month, month), triggered, target);
            var goal := Goal(t, org, reserve, month, target);
            end.Again? ==>
              && org in end.tables.accounts && end.goal == goal == Goal(end.tables, org, reserve, month, goal)
              && Shortfall(t, org, goal) >= 2 && Shortfall(end.tables, org, goal) == Shortfall(t, org, goal) - 1
              && !Spins(hash, end.tables, org, reserve, buy, month, true, goal)
  {
    hide TopupRound, Spins, Goal;
    RoundGoesOn(hash, t, org, reserve, buy, month, triggered, target);
    RoundSpins(hash, t, org, reserve, buy, month, triggered, target);
  }

  /** Without a purchaser, or with one that never brings the loop to an old id, the loop may end. */
  ghost predicate MayEnd(hash: string -> string, t: Tables, org: string, reserve: int, purchase: Option<Purchaser>,
                         month: string, triggered: bool, target: int)
  {
    purchase.Some? ==> !Spins(hash, t, org, reserve, purchase.value, month, triggered, target)
  }

  lemma RoundSpends(hash: string -> string, t: Tables, org: string, reserve: int, purchase: Option<Purchaser>,
                    month: string, triggered: bool, target: int)
    requires org in t.accounts && MayEnd(hash, t, org, reserve, purchase, month, triggered, target)
    ensures var end := TopupRound(hash, t, org, reserve, purchase, Tick(month, month), triggered, target);
            var n := Shortfall(t, org, Goal(t, org, reserve, month, target));
            if end.Stop? then end.run.result != Err(RoundsExhausted) && end.run.purchases <= Min(1, n)
            else
              && n >= 2 && org in end.tables.accounts
              && Shortfall(end.tables, org, Goal(end.tables, org, reserve, month, end.goal)) == n - 1
              && MayEnd(hash, end.tables, org, reserve, purchase, month, true, end.goal)
  {
    if purchase.Some? {
      hide TopupRound, Spins, Goal;
      RoundGoesOn(hash, t, org, reserve, purchase.value, month, triggered, target);
      RoundProgress(hash, t, org, reserve, purchase.value, month, triggered, target);
    } else {
      hide TrimSpace, IdempotencyKey;
    }
  }

  /** Within one month, a loop that does not spin ends within one purchase for each missing unit. */
  lemma AutoTopupTerminates(hash: string -> string, t: Tables, org: string, reserve: int, purchase: Option<Purchaser>,
                            month: string, triggered: bool, target: int, rounds: nat)
    requires org in t.accounts && MayEnd(hash, t, org, reserve, purchase, month, triggered, target)
    requires rounds >= 1 && rounds >= Shortfall(t, org, Goal(t, org, reserve, month, target))
    ensures var r := AutoTopupRun(hash, t, org, reserve, purchase, OneMonth(month, rounds), triggered, target);
            && r.result != Err(RoundsExhausted)
            && r.purchases <= Shortfall(t, org, Goal(t, org, reserve, month, target))
  {
    ghost var missing := (t: Tables, tr: bool, target: int, n: nat) =>
      && org in t.accounts && MayEnd(hash, t, org, reserve, purchase, month, tr, target)
      && n == Shortfall(t, org, Goal(t, org, reserve, month, target));
    forall t, tr, ta, n | missing(t, tr, ta, n)
      ensures EndSpends(RoundOf(hash, org, reserve, purchase)(Tick(month, month), t, tr, ta), missing, n)
    {
      RoundSpends(hash, t, org, reserve, purchase, month, tr, ta);
    }
    RoundsEnd(RoundOf(hash, org, reserve, purchase), missing, Tick(month, month), t, triggered, target,
              Shortfall(t, org, Goal(t, org, reserve, month, target)), rounds);
  }

  /** New ids for the units that are missing are enough for that; no other unit matters. */
  lemma NewIdsEnd(hash: string -> string, t: Tables, org: string, reserve: int, buy: Purchaser, month: string,
                  triggered: bool, target: int)
    requires org in t.accounts
    requires NewIds(Ids(hash, t, org, buy, month), t.events, Shortfall(t, org, Goal(t, org, reserve, month, target)))
    ensures !Spins(hash, t, org, reserve, buy, month, triggered, target)
  {
    hide IdempotencyKey, RecordedId;
  }

  /** Once a loop spins, it has a next round whatever it has done. */
  lemma {:induction false} RoundsSpin(round: (Tick, Tables, bool, int) -> Round, spins: (Tables, bool, int) -> bool,
                                      tick: Tick, t: Tables, triggered: bool, target: int, rounds: nat)
    requires spins(t, triggered, target)
    requires forall t, tr, ta :: spins(t, tr, ta) ==>
      round(tick, t, tr, ta).Again? && spins(round(tick, t, tr, ta).tables, true, round(tick, t, tr, ta).goal)
    ensures var r := Rounds(round, Same(tick, rounds), t, triggered, target);
            r.result == Err(RoundsExhausted) && r.purchases == rounds
    decreases rounds
  {
    if rounds > 0 {
      SameTick(tick, rounds);
      var end := round(tick, t, triggered, target);
      RoundsSpin(round, spins, tick, end.tables, true, end.goal, rounds - 1);
    }
  }

  lemma SpinningNeverEnds(hash: string -> string, t: Tables, org: string, reserve: int, buy: Purchaser, month: string,
                          triggered: bool, target: int, rounds: nat)
    requires Spins(hash, t, org, reserve, buy, month, triggered, target)
    ensures var r := AutoTopupRun(hash, t, org, reserve, Some(buy), OneMonth(month, rounds), triggered, target);
            r.result == Err(RoundsExhausted) && r.purchases == rounds
  {
    ghost var spins := (t: Tables, tr: bool, ta: int) => Spins(hash, t, org, reserve, buy, month, tr, ta);
    forall t, tr, ta | spins(t, tr, ta)
      ensures var end := RoundOf(hash, org, reserve, Some(buy))(Tick(month, month), t, tr, ta);
              end.Again? && spins(end.tables, true, end.goal)
    {
      hide TopupRound;
      assert org in t.accounts;
      RoundSpins(hash, t, org, reserve, buy, month, tr, ta);
    }
    RoundsSpin(RoundOf(hash, org, reserve, Some(buy)), spins, Tick(month, month), t, triggered, target, rounds);
  }

  /**
    Within one month the loop never ends exactly when some purchase it gets to comes under an id
    that is recorded by then: the units before it, fewer than are missing, are paid, within the
    cap and under new ids. In every other state it ends within one round for each missing unit.
   */
  lemma NeverEndsExactly(hash: string -> string, t: Tables, org: string, reserve: int, buy: Purchaser, month: string,
                         triggered: bool, target: int)
    requires org in t.accounts
    ensures (forall n: nat ::
               AutoTopupRun(hash, t, org, reserve, Some(buy), OneMonth(month, n), triggered, target).result
                 == Err(RoundsExhausted))
       <==> Spins(hash, t, org, reserve, buy, month, triggered, target)
  {
    hide AutoTopupRun;
    if Spins(hash, t, org, reserve, buy, month, triggered, target) {
      forall n: nat
        ensures AutoTopupRun(hash, t, org, reserve, Some(buy), OneMonth(month, n), triggered, target).result
             == Err(RoundsExhausted)
      {
        SpinningNeverEnds(hash, t, org, reserve, buy, month, triggered, target, n);
      }
    } else {
      var n := Max(1, Shortfall(t, org, Goal(t, org, reserve, month, target)));
      AutoTopupTerminates(hash, t, org, reserve, Some(buy), month, triggered, target, n);
    }
  }

  /** A loop that has not ended after a round for each missing unit never ends in that month. */
  lemma EndsInTimeOrNever(hash: string -> string, t: Tables, org: string, reserve: int, purchase: Option<Purchaser>,
                          month: string, triggered: bool, target: int, rounds: nat, n: nat)
    requires org in t.accounts
    requires rounds >= 1 && rounds >= Shortfall(t, org, Goal(t, org, reserve, month, target))
    requires AutoTopupRun(hash, t, org, reserve, purchase, OneMonth(month, rounds), triggered, target).result
          == Err(RoundsExhausted)
    ensures AutoTopupRun(hash, t, org, reserve, purchase, OneMonth(month, n), triggered, target).result
         == Err(RoundsExhausted)
  {
    hide AutoTopupRun;
    if MayEnd(hash, t, org, reserve, purchase, month, triggered, target) {
      AutoTopupTerminates(hash, t, org, reserve, purchase, month, triggered, target, rounds);
    } else {
      SpinningNeverEnds(hash, t, org, reserve, purchase.value, month, triggered, target, n);
    }
  }

  /** The next attempt would buy, and the provider answers with an id that is already recorded. */
  predicate Stuck(hash: string -> string, t: Tables, org: string, reserve: int, buy: Purchaser, month: string,
                  triggered: bool, target: int)
  {
    match PrepareTx(hash, t, org, reserve, triggered, target, month).result
    case Ok(Purchase(_, key, _, _)) => buy(key).Some? && RecordedId(buy, key) in t.events
    case _ => false
  }

  lemma StuckRound(hash: string -> string, t: Tables, org: string, reserve: int, buy: Purchaser, month: string,
                   triggered: bool, target: int)
    requires Stuck(hash, t, org, reserve, buy, month, triggered, target)
    ensures var end := TopupRound(hash, t, org, reserve, Some(buy), Tick(month, month), triggered, target);
            end.Again? && end.tables.accounts == t.accounts
              && Stuck(hash, end.tables, org, reserve, buy, month, true, end.goal)
  {
    hide TrimSpace, IdempotencyKey;
    var p := PrepareTx(hash, t, org, reserve, triggered, target, month);
    var key := p.result.value.key;
    var a := t.accounts[org];
    var s := EnsureSettings(t.settings, org, month);
    RecordedIdNotBlank(buy, hash, org, a.planCode, s.anchorMonth, s.unitsUsed + 1, TopupUnitCents(a.planCode));
    CompleteProgress(p.tables, org, GrantKey(buy(key).value, key), TopupUnitCents(a.planCode), month);
    var t' := CompleteTx(p.tables, org, GrantKey(buy(key).value, key), TopupUnitCents(a.planCode), month).tables;
    assert t'.settings[org] == s;
  }

  /** From there the loop buys in every round of the month and ends in none. */
  lemma AutoTopupStalls(hash: string -> string, t: Tables, org: string, reserve: int, buy: Purchaser,
                        month: string, triggered: bool, target: int, rounds: nat)
    requires Stuck(hash, t, org, reserve, buy, month, triggered, target)
    ensures var r := AutoTopupRun(hash, t, org, reserve, Some(buy), OneMonth(month, rounds), triggered, target);
            r.result == Err(RoundsExhausted) && r.purchases == rounds && r.tables.accounts == t.accounts
  {
    var stuck := (t: Tables, tr: bool, target: int) => Stuck(hash, t, org, reserve, buy, month, tr, target);
    forall t, tr, ta | stuck(t, tr, ta)
      ensures EndSpins(RoundOf(hash, org, reserve, Some(buy))(Tick(month, month), t, tr, ta), stuck, t)
    {
      StuckRound(hash, t, org, reserve, buy, month, tr, ta);
    }
    RoundsExhaust(RoundOf(hash, org, reserve, Some(buy)), stuck, Tick(month, month), t, triggered, target, rounds);
  }

  /**
    The provider's own invoice webhook can get there first: after the purchase is paid and
    before it is completed, it grants the credits under the invoice's id. The completion then
    counts nothing; the loop ends if the credits reach its goal, and otherwise not in that month.
   */
  lemma WebhookFirstStalls(hash: string -> string, t: Tables, org: string, reserve: int, buy: Purchaser, month: string,
                           triggered: bool, target: int, rounds: nat)
    requires org in t.accounts
    requires var p := PrepareTx(hash, t, org, reserve, triggered, target, month);
             && p.result.Ok? && p.result.value.Purchase? && buy(p.result.value.key).Some?
             && RecordedId(buy, p.result.value.key) !in t.events
    ensures var p := PrepareTx(hash, t, org, reserve, triggered, target, month);
            var attempt := p.result.value;
            var bill := GrantKey(buy(attempt.key).value, attempt.key);
            var hooked := GrantOnceTx(p.tables, RecordedId(buy, attempt.key), org, TOPUP_UNIT_CREDITS).tables;
            var c := CompleteTx(hooked, org, bill, attempt.cents, month);
            && c.result == Ok(c.tables.accounts[org])
            && c.result.value.Balance() == t.accounts[org].Balance() + TOPUP_UNIT_CREDITS
            && c.tables.settings[org] == EnsureSettings(t.settings, org, month)
            && (c.result.value.Balance() < attempt.target ==>
                  var later := OneMonth(month, rounds);
                  AutoTopupRun(hash, c.tables, org, reserve, Some(buy), later, true, attempt.target).result
                    == Err(RoundsExhausted))
  {
    hide TrimSpace, IdempotencyKey, AutoTopupRun;
    var p := PrepareTx(hash, t, org, reserve, triggered, target, month);
    var attempt := p.result.value;
    var a, s := t.accounts[org], EnsureSettings(t.settings, org, month);
    var id, bill := RecordedId(buy, attempt.key), GrantKey(buy(attempt.key).value, attempt.key);
    RecordedIdNotBlank(buy, hash, org, a.planCode, s.anchorMonth, s.unitsUsed + 1, TopupUnitCents(a.planCode));
    var hooked := GrantOnceTx(p.tables, id, org, TOPUP_UNIT_CREDITS).tables;
    assert hooked.settings[org] == s && hooked.accounts[org] == GrantRow(a, TOPUP_UNIT_CREDITS) && id in hooked.events;
    CompleteProgress(hooked, org, bill, attempt.cents, month);
    var c := CompleteTx(hooked, org, bill, attempt.cents, month);
    if c.result.value.Balance() < attempt.target {
      assert Stuck(hash, c.tables, org, reserve, buy, month, true, attempt.target);
      AutoTopupStalls(hash, c.tables, org, reserve, buy, month, true, attempt.target, rounds);
    }
  }

  // ---------- Any clock ----------

  lemma GoalAnyMonth(t: Tables, org: string, reserve: int, m: string, m': string, target: int)
    ensures Goal(t, org, reserve, m, target) == Goal(t, org, reserve, m', target)
  {
  }

  /** The first round of a new month has a new key: if that is paid under a new id, a stuck loop goes forward. */
  lemma NewMonthGoesForward(hash: string -> string, t: Tables, org: string, reserve: int, buy: Purchaser,
                            month: string, month': string, triggered: bool, target: int)
    requires Stuck(hash, t, org, reserve, buy, month, triggered, target)
    requires t.settings[org].anchorMonth != month'
    requires var key := UnitKey(hash, t, org, month', 1); buy(key).Some? && RecordedId(buy, key) !in t.events
    ensures var end := TopupRound(hash, t, org, reserve, Some(buy), Tick(month', month'), triggered, target);
            var t' := if end.Stop? then end.run.tables else end.tables;
            var goal := Goal(t, org, reserve, month, target);
            && org in t'.accounts && t'.accounts[org] == GrantRow(t.accounts[org], TOPUP_UNIT_CREDITS)
            && end == if t'.accounts[org].Balance() >= goal then Stop(TopupRun(t', Ok(t'.accounts[org]), 1))
                      else Again(t', goal)
  {
    hide TrimSpace, IdempotencyKey, TopupUnitCents;
    var a, s := t.accounts[org], EnsureSettings(t.settings, org, month');
    var key, goal := UnitKey(hash, t, org, month', 1), Goal(t, org, reserve, month, target);
    PrepareBuys(hash, t, org, reserve, month', triggered, target, s, key, goal, TopupUnitCents(a.planCode));
    RecordedIdNotBlank(buy, hash, org, a.planCode, month', 1, TopupUnitCents(a.planCode));
    CompleteProgress(t.(settings := t.settings[org := s]), org, GrantKey(buy(key).value, key),
                     TopupUnitCents(a.planCode), month');
  }

  /** How many rounds of a loop went on and were stuck. */
  function StuckRounds(hash: string -> string, t: Tables, org: string, reserve: int, buy: Purchaser, clock: seq<Tick>,
                       triggered: bool, target: int): nat
    decreases |clock|
  {
    if clock == [] then 0
    else
      match TopupRound(hash, t, org, reserve, Some(buy), clock[0], triggered, target)
      case Stop(_) => 0
      case Again(t', goal) =>
        (if Stuck(hash, t, org, reserve, buy, clock[0].prepare, triggered, target) then 1 else 0)
        + StuckRounds(hash, t', org, reserve, buy, clock[1..], true, goal)
  }

  lemma RoundMoves(hash: string -> string, t: Tables, org: string, reserve: int, buy: Purchaser, tick: Tick,
                   triggered: bool, target: int)
    ensures var end := TopupRound(hash, t, org, reserve, Some(buy), tick, triggered, target);
            var goal := Goal(t, org, reserve, tick.prepare, target);
            && (end.Stop? ==> end.run.result != Err(RoundsExhausted))
            && (end.Again? ==>
                  && org in t.accounts && org in end.tables.accounts
                  && end.goal == goal == Goal(end.tables, org, reserve, tick.prepare, goal)
                  && 1 <= Shortfall(end.tables, org, goal)
                  && Shortfall(t, org, goal) == Shortfall(end.tables, org, goal)
                       + if Stuck(hash, t, org, reserve, buy, tick.prepare, triggered, target) then 0 else 1)
  {
    hide TrimSpace, IdempotencyKey, TopupUnitCents;
    var end := TopupRound(hash, t, org, reserve, Some(buy), tick, triggered, target);
    if end.Again? {
      var p := PrepareTx(hash, t, org, reserve, triggered, target, tick.prepare);
      var key, cents := p.result.value.key, p.result.value.cents;
      var a, s := t.accounts[org], EnsureSettings(t.settings, org, tick.prepare);
      RecordedIdNotBlank(buy, hash, org, a.planCode, s.anchorMonth, s.unitsUsed + 1, TopupUnitCents(a.planCode));
      CompleteProgress(p.tables, org, GrantKey(buy(key).value, key), cents, tick.complete);
    }
  }

  /**
    Whatever the clock reads in each step, over any number of months: a loop that used up its
    rounds and is not done has bought one missing unit in every round that was not stuck.
   */
  lemma {:induction false} AnyClockCounts(hash: string -> string, t: Tables, org: string, reserve: int, buy: Purchaser,
                                          clock: seq<Tick>, month: string, triggered: bool, target: int)
    requires org in t.accounts
    requires AutoTopupRun(hash, t, org, reserve, Some(buy), clock, triggered, target).result == Err(RoundsExhausted)
    ensures var r := AutoTopupRun(hash, t, org, reserve, Some(buy), clock, triggered, target);
            var goal := Goal(t, org, reserve, month, target);
            && org in r.tables.accounts && (clock != [] ==> 1 <= Shortfall(r.tables, org, goal))
            && Shortfall(t, org, goal) - Shortfall(r.tables, org, goal)
                 == |clock| - StuckRounds(hash, t, org, reserve, buy, clock, triggered, target)
    decreases |clock|
  {
    hide TopupRound, Stuck, Goal, Shortfall;
    if clock != [] {
      var end := TopupRound(hash, t, org, reserve, Some(buy), clock[0], triggered, target);
      var goal := Goal(t, org, reserve, month, target);
      TopupEnds(hash, t, org, reserve, Some(buy), clock, triggered, target);
      RoundMoves(hash, t, org, reserve, buy, clock[0], triggered, target);
      GoalAnyMonth(t, org, reserve, month, clock[0].prepare, target);
      GoalAnyMonth(end.tables, org, reserve, month, clock[0].prepare, goal);
      TopupGoesOn(hash, t, org, reserve, Some(buy), clock, triggered, target, end.tables, goal, 0);
      AnyClockCounts(hash, end.tables, org, reserve, buy, clock[1..], month, true, goal);
    }
  }

  /** So a loop ends once it has had a round for each missing unit beside its stuck ones. */
  lemma AnyClockEnds(hash: string -> string, t: Tables, org: string, reserve: int, buy: Purchaser, clock: seq<Tick>,
                     month: string, triggered: bool, target: int)
    requires org in t.accounts && clock != []
    requires |clock| >= Shortfall(t, org, Goal(t, org, reserve, month, target))
                        + StuckRounds(hash, t, org, reserve, buy, clock, triggered, target)
    ensures AutoTopupRun(hash, t, org, reserve, Some(buy), clock, triggered, target).result != Err(RoundsExhausted)
  {
    hide AutoTopupRun, StuckRounds, Shortfall;
    if AutoTopupRun(hash, t, org, reserve, Some(buy), clock, triggered, target).result == Err(RoundsExhausted) {
      AnyClockCounts(hash, t, org, reserve, buy, clock, month, triggered, target);
    }
  }

  // ---------- The service as ledger steps ----------

  lemma OneStep(t: Tables, s: Step)
    ensures Run(t, [s]) == Apply(t, s)
    ensures Disciplined(t, s) ==> DisciplinedRun(t, [s])
  {
    assert [s][1..] == [];
    assert Run(Apply(t, s), []) == Apply(t, s);
  }

  lemma RoundSteps(hash: string -> string, t: Tables, org: string, reserve: int, purchase: Option<Purchaser>,
                   tick: Tick, triggered: bool, target: int) returns (steps: seq<Step>)
    ensures var end := TopupRound(hash, t, org, reserve, purchase, tick, triggered, target);
            Run(t, steps) == if end.Stop? then end.run.tables else end.tables
    ensures TopupOnly(steps)
  {
    hide TrimSpace, IdempotencyKey, GrantKey;
    var p := PrepareTx(hash, t, org, reserve, triggered, target, tick.prepare);
    var s0 := PrepareTopup(org, tick.prepare);
    PrepareIsAStep(hash, t, org, reserve, triggered, target, tick.prepare);
    OneStep(t, s0);
    steps := [s0];
    if p.result.Ok? && p.result.value.Purchase? && purchase.Some? && purchase.value(p.result.value.key).Some? {
      var key := p.result.value.key;
      var s1 := CompleteTopup(org, GrantKey(purchase.value(key).value, key), p.result.value.cents, tick.complete);
      OneStep(p.tables, s1);
      RunConcat(t, steps, [s1]);
      steps := steps + [s1];
    }
  }

  predicate TopupOnly(steps: seq<Step>)
  {
    forall s :: s in steps ==> s.PrepareTopup? || s.CompleteTopup?
  }

  lemma TopupSteps(hash: string -> string, t: Tables, org: string, reserve: int, purchase: Option<Purchaser>,
                   clock: seq<Tick>) returns (steps: seq<Step>)
    ensures Run(t, steps) == AutoTopupRun(hash, t, org, reserve, purchase, clock, false, 0).tables
    ensures TopupOnly(steps)
  {
    ghost var inv := (u: Tables, tr: bool, target: int) => exists steps :: TopupOnly(steps) && Run(t, steps) == u;
    ghost var good := (u: Tables, r: Result<Account>) => exists steps :: TopupOnly(steps) && Run(t, steps) == u;
    forall tick, u, tr, ta | inv(u, tr, ta)
      ensures EndKeeps(RoundOf(hash, org, reserve, purchase)(tick, u, tr, ta), inv, good)
    {
      var before :| TopupOnly(before) && Run(t, before) == u;
      var more := RoundSteps(hash, u, org, reserve, purchase, tick, tr, ta);
      RunConcat(t, before, more);
      assert TopupOnly(before + more);
    }
    assert TopupOnly([]) && Run(t, []) == t;
    RoundsKeep(RoundOf(hash, org, reserve, purchase), inv, good, clock, t, false, 0);
    steps :| TopupOnly(steps)
          && Run(t, steps) == AutoTopupRun(hash, t, org, reserve, purchase, clock, false, 0).tables;
  }

  lemma {:induction false} TopupStepsDisciplined(t: Tables, steps: seq<Step>)
    requires TopupOnly(steps)
    ensures DisciplinedRun(t, steps)
    decreases |steps|
  {
    if steps != [] {
      assert steps[0] in steps;
      TopupStepsDisciplined(Apply(t, steps[0]), steps[1..]);
    }
  }

  /** One more step at the end of a disciplined run. */
  lemma StepAfter(t: Tables, steps: seq<Step>, s: Step)
    requires DisciplinedRun(t, steps) && Disciplined(Run(t, steps), s)
    ensures DisciplinedRun(t, steps + [s]) && Run(t, steps + [s]) == Apply(Run(t, steps), s)
  {
    OneStep(Run(t, steps), s);
    RunConcat(t, steps, [s]);
  }

  /** The balance check is a run of top-up steps. */
  lemma FundIsARun(hash: string -> string, t: Tables, org: string, reserve: int, purchase: Option<Purchaser>,
                   clock: seq<Tick>) returns (steps: seq<Step>)
    requires org in t.accounts
    ensures DisciplinedRun(t, steps) && Run(t, steps) == Fund(hash, t, org, reserve, purchase, clock).tables
  {
    steps := [];
    if t.accounts[org].Balance() < reserve {
      steps := TopupSteps(hash, t, org, reserve, purchase, clock);
      TopupStepsDisciplined(t, steps);
    }
  }

  /** Every admission by the service is a disciplined run of the ledger, whatever its outcome. */
  lemma ServiceAdmitIsARun(hash: string -> string, t: Tables, org: string, run: string, flavor: Flavor, startedAt: int,
                           purchase: Option<Purchaser>, clock: seq<Tick>) returns (steps: seq<Step>)
    ensures DisciplinedRun(t, steps)
    ensures Run(t, steps) == ServiceAdmit(hash, t, org, run, flavor, startedAt, purchase, clock).tables
  {
    hide AutoTopupRun, AdmitTx, Fund, FlavorAllowed, ReserveCredits;
    steps := [];
    if run != "" && org != "" {
      var t1 := Apply(t, OpenAccount(org));
      OneStep(t, OpenAccount(org));
      steps := [OpenAccount(org)];
      var account := t1.accounts[org];
      if account.exempt {
        var s := Admit(org, run, 0, flavor, startedAt);
        StepAfter(t, steps, s);
        steps := steps + [s];
      } else if FlavorAllowed(flavor, account.maxFlavor) {
        var reserve := ReserveCredits(account, flavor);
        var funded := Fund(hash, t1, org, reserve, purchase, clock);
        var more := FundIsARun(hash, t1, org, reserve, purchase, clock);
        RunConcat(t, steps, more);
        steps := steps + more;
        if funded.result.Ok? {
          var s := Admit(org, run, reserve, flavor, startedAt);
          StepAfter(t, steps, s);
          steps := steps + [s];
        }
      }
    }
  }

  lemma AdmitAsOutcome(t: Tables, org: string, run: string, reserve: nat, flavor: Flavor, startedAt: int,
                       comped: Option<Account>)
    requires org in t.accounts && AccountSafe(t.accounts[org])
    requires t.accounts[org].exempt || reserve <= t.accounts[org].Balance()
    ensures var x := AdmitAs(t, org, run, reserve, flavor, startedAt, comped);
            && x.result.Ok? && run in x.tables.reservations && run in x.tables.meters
            && (run !in t.reservations ==>
                  x.tables.reservations[run].reserved == if t.accounts[org].exempt then 0 else reserve)
  {
  }

  lemma FundOutcome(hash: string -> string, t: Tables, org: string, reserve: int, purchase: Option<Purchaser>,
                    clock: seq<Tick>)
    requires org in t.accounts && AccountSafe(t.accounts[org])
    ensures var f := Fund(hash, t, org, reserve, purchase, clock);
            && Keeps(t, f.tables, org) && TopupAnswer(f.result)
            && (f.result.Ok? ==> reserve <= f.tables.accounts[org].Balance())
  {
    TopupKeeps(hash, t, org, reserve, purchase, clock);
    AutoTopupCovers(hash, t, org, reserve, purchase, clock);
  }

  /**
    The service answers with a reservation, a refusal by plan, or the failure of the top-up
    loop: once the loop succeeds, the store has the reserve and cannot turn the run away.
   */
  lemma FundedAdmission(hash: string -> string, t: Tables, org: string, run: string, flavor: Flavor, startedAt: int,
                        purchase: Option<Purchaser>, clock: seq<Tick>)
    requires Safe(t) && run != "" && org != ""
    ensures var x := ServiceAdmit(hash, t, org, run, flavor, startedAt, purchase, clock);
            var t1 := t.(accounts := EnsureAccount(t.accounts, org));
            var a := t1.accounts[org];
            var reserve := ReserveCredits(a, flavor);
            && (x.result.Ok? <==>
                  || a.exempt
                  || (FlavorAllowed(flavor, a.maxFlavor)
                    && Fund(hash, t1, org, reserve, purchase, clock).result.Ok?))
            && (x.result.Ok? ==> run in x.tables.reservations && run in x.tables.meters)
            && (x.result.Ok? && run !in t.reservations ==>
                  x.tables.reservations[run].reserved == if a.exempt then 0 else reserve)
            && (x.result.Err? ==> x.tables.reservations == t.reservations)
  {
    var t1 := t.(accounts := EnsureAccount(t.accounts, org));
    var account := t1.accounts[org];
    assert AccountSafe(account);
    if account.exempt {
      AdmitAsOutcome(t1, org, run, 0, flavor, startedAt, Some(account));
    } else if FlavorAllowed(flavor, account.maxFlavor) {
      var reserve := ReserveCredits(account, flavor);
      var f := Fund(hash, t1, org, reserve, purchase, clock);
      FundOutcome(hash, t1, org, reserve, purchase, clock);
      if f.result.Ok? {
        AdmitAsOutcome(f.tables, org, run, reserve, flavor, startedAt, None);
      }
    }
  }

  /** The reservations and the exemption stay, and the account stays safe. */
  predicate Keeps(t: Tables, t': Tables, org: string)
    requires org in t.accounts
  {
    && t'.reservations == t.reservations && org in t'.accounts && AccountSafe(t'.accounts[org])
    && t'.accounts[org].exempt == t.accounts[org].exempt
  }

  /** The ways in which the loop can fail. */
  predicate TopupAnswer(r: Result<Account>)
  {
    r.Err? ==> r.error.Insufficient? || r.error in {TopupNotConfigured, PaymentFailed, RoundsExhausted}
  }

  lemma RoundKeeps(hash: string -> string, t: Tables, org: string, reserve: int, purchase: Option<Purchaser>,
                   tick: Tick, triggered: bool, target: int)
    requires org in t.accounts && AccountSafe(t.accounts[org])
    ensures var end := TopupRound(hash, t, org, reserve, purchase, tick, triggered, target);
            var t' := if end.Stop? then end.run.tables else end.tables;
            && Keeps(t, t', org)
            && (end.Stop? ==> TopupAnswer(end.run.result))
  {
  }

  lemma TopupKeeps(hash: string -> string, t: Tables, org: string, reserve: int, purchase: Option<Purchaser>,
                   clock: seq<Tick>)
    requires org in t.accounts && AccountSafe(t.accounts[org])
    ensures var r := AutoTopupRun(hash, t, org, reserve, purchase, clock, false, 0);
            Keeps(t, r.tables, org) && TopupAnswer(r.result)
  {
    var inv := (u: Tables, tr: bool, target: int) => Keeps(t, u, org);
    var good := (u: Tables, r: Result<Account>) => Keeps(t, u, org) && TopupAnswer(r);
    forall tick, u, tr, ta | inv(u, tr, ta)
      ensures EndKeeps(RoundOf(hash, org, reserve, purchase)(tick, u, tr, ta), inv, good)
    {
      RoundKeeps(hash, u, org, reserve, purchase, tick, tr, ta);
    }
    RoundsKeep(RoundOf(hash, org, reserve, purchase), inv, good, clock, t, false, 0);
  }
}
