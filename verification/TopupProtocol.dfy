/**
  Any number of top-up loops of one organization at once, interleaved at their prepare,
  purchase and complete steps, with every other billing transaction in between (topup.go).
 */
module TopupProtocol {
  import opened Text
  import opened Billing
  import opened Transactions
  import opened Topup
  import opened TopupProofs
  import opened Ledger

  /** Where one loop stands; a prepared attempt remembers the month it was prepared in. */
  datatype Loop =
    | Ready(reserve: int, triggered: bool, target: int)
    | Prepared(reserve: int, key: string, goal: int, cents: nat, month: string)
    | Paid(reserve: int, bill: string, goal: int, cents: nat, month: string)
    | Ended(result: Result<Account>)

  datatype World = World(tables: Tables, loops: map<nat, Loop>)

  datatype Config = Config(hash: string -> string, org: string, buy: Purchaser)

  datatype Action =
    | Begin(loop: nat, reserve: int)
    | PrepareStep(loop: nat, month: string)
    | Pay(loop: nat, fails: bool)
    | CompleteStep(loop: nat, month: string)
    | Configure(enabled: bool, threshold: nat, target: nat, maxUnits: nat, cap: nat, month: string)
    | Other(step: Step)

  function Next(c: Config, w: World, a: Action): World
  {
    match a
    case Begin(l, reserve) => if l in w.loops then w else w.(loops := w.loops[l := Ready(reserve, false, 0)])
    case PrepareStep(l, month) => if l in w.loops && w.loops[l].Ready? then Prepare(c, w, l, month) else w
    case Pay(l, fails) =>
      if l in w.loops && w.loops[l].Prepared? then w.(loops := w.loops[l := PaidLoop(c, w.loops[l], fails)])
      else w
    case CompleteStep(l, month) => if l in w.loops && w.loops[l].Paid? then Complete(c, w, l, month) else w
    case Configure(enabled, threshold, target, maxUnits, cap, month) =>
      var s := EnsureSettings(w.tables.settings, c.org, month);
      var s' := s.(enabled := enabled, threshold := threshold, target := target, maxUnits := maxUnits, maxCents := cap);
      w.(tables := w.tables.(accounts := EnsureAccount(w.tables.accounts, c.org),
                             settings := w.tables.settings[c.org := s']))
    case Other(step) => w.(tables := Apply(w.tables, step))
  }

  function Prepare(c: Config, w: World, l: nat, month: string): World
    requires l in w.loops && w.loops[l].Ready?
  {
    var r := w.loops[l];
    var p := PrepareTx(c.hash, w.tables, c.org, r.reserve, r.triggered, r.target, month);
    var loop :=
      match p.result
      case Err(e) => Ended(Err(e))
      case Ok(NoPurchase(a)) =>
        Ended(if a.Balance() < r.reserve then Err(Insufficient(r.reserve, a.Balance())) else Ok(a))
      case Ok(Purchase(_, key, goal, cents)) => Prepared(r.reserve, key, goal, cents, month);
    World(p.tables, w.loops[l := loop])
  }

  function PaidLoop(c: Config, p: Loop, fails: bool): Loop
    requires p.Prepared?
  {
    if fails || c.buy(p.key) == None then Ended(Err(PaymentFailed))
    else Paid(p.reserve, GrantKey(c.buy(p.key).value, p.key), p.goal, p.cents, p.month)
  }

  function Complete(c: Config, w: World, l: nat, month: string): World
    requires l in w.loops && w.loops[l].Paid?
  {
    var p := w.loops[l];
    var x := CompleteTx(w.tables, c.org, p.bill, p.cents, month);
    var loop :=
      match x.result
      case Err(e) => Ended(Err(e))
      case Ok(a) => if a.Balance() >= p.goal then Ended(Ok(a)) else Ready(p.reserve, true, p.goal);
    World(x.tables, w.loops[l := loop])
  }

  function RunWorld(c: Config, w: World, actions: seq<Action>): World
    decreases |actions|
  {
    if actions == [] then w else RunWorld(c, Next(c, w, actions[0]), actions[1..])
  }

  /** What an action does in the month its clock reads, when only the loops complete top-ups of this organization. */
  predicate Proper(c: Config, w: World, a: Action, month: string)
  {
    match a
    case Begin(_, _) => true
    case Pay(_, _) => true
    case PrepareStep(_, m) => m == month
    case CompleteStep(l, m) => m == month && (l in w.loops && w.loops[l].Paid? ==> w.loops[l].month == month)
    case Configure(_, _, _, _, _, m) => m == month
    case Other(step) =>
      && (step.CompleteTopup? ==> step.org != c.org)
      && (step.PrepareTopup? && step.org == c.org ==> step.month == month)
  }

  /** The action changes neither the plan, which sets the price, nor the cap. */
  predicate SameTerms(c: Config, w: World, a: Action)
  {
    && (a.Configure? ==> a.cap == Now(c, w, a.month).maxCents)
    && (a.Other? && a.step.MirrorAccount? && a.step.org == c.org && c.org in w.tables.accounts ==>
          Apply(w.tables, a.step).accounts[c.org].planCode == w.tables.accounts[c.org].planCode)
  }

  /**
    One calendar month on one plan and under one cap: every action reads the same month, an
    attempt is completed in the month it was prepared, and only the loops complete top-ups of
    this organization. Webhook grants under any id, configuration of everything but the cap,
    and all other transactions of all organizations are allowed.
   */
  predicate Allowed(c: Config, w: World, a: Action, month: string)
  {
    Proper(c, w, a, month) && SameTerms(c, w, a)
  }

  ghost predicate AllowedRun(c: Config, w: World, actions: seq<Action>, month: string)
    decreases |actions|
  {
    actions != [] ==> Allowed(c, w, actions[0], month) && AllowedRun(c, Next(c, w, actions[0]), actions[1..], month)
  }

  // ---------- The invariant ----------

  /** What is known about the start: recorded ids, this month's counters and cap, and the plan. */
  datatype Base = Base(events: set<string>, units: nat, spend: nat, cap: nat, plan: string)
  {
    function Cents(): nat { TopupUnitCents(plan) }
  }

  function Now(c: Config, w: World, month: string): Settings
  {
    EnsureSettings(w.tables.settings, c.org, month)
  }

  function StartOf(c: Config, w: World, month: string): Base
    requires c.org in w.tables.accounts
  {
    var s := Now(c, w, month);
    Base(w.tables.events, s.unitsUsed, s.spendUsed, s.maxCents, w.tables.accounts[c.org].planCode)
  }

  function Key(c: Config, b: Base, month: string, unit: nat): string
  {
    IdempotencyKey(c.hash, c.org, b.plan, month, unit, b.Cents())
  }

  /** The id under which the purchase of a unit is recorded. */
  function Id(c: Config, b: Base, month: string, unit: nat): string
  {
    RecordedId(c.buy, Key(c, b, month, unit))
  }

  /** A loop holds the key of a unit that is counted already or comes next, and the next fits the cap. */
  predicate Holds(b: Base, s: Settings, unit: nat)
  {
    b.units < unit <= s.unitsUsed + 1 && (unit == s.unitsUsed + 1 && b.cap > 0 ==> s.spendUsed + b.Cents() <= b.cap)
  }

  predicate InFlight(l: Loop) { l.Prepared? || l.Paid? }

  /** An attempt of this month is for a unit that a prepare step of this month offered. */
  ghost predicate LoopOk(c: Config, b: Base, month: string, s: Settings, l: Loop)
  {
    match l
    case Prepared(_, key, _, cents, m) =>
      m == month ==> cents == b.Cents() && exists unit: nat :: Holds(b, s, unit) && key == Key(c, b, month, unit)
    case Paid(_, bill, _, cents, m) =>
      m == month ==>
        && cents == b.Cents() && TrimSpace(bill) != ""
        && exists unit: nat :: Holds(b, s, unit) && TrimSpace(bill) == Id(c, b, month, unit)
    case _ => true
  }

  /** Exactly the ids of the counted units have been recorded by the loops, each once. */
  ghost predicate Recorded(c: Config, b: Base, month: string, s: Settings, events: set<string>)
  {
    && b.events <= events
    && (forall u: nat :: b.units < u <= s.unitsUsed ==>
          Id(c, b, month, u) in events && Id(c, b, month, u) !in b.events)
    && (forall u: nat, v: nat :: b.units < u < v <= s.unitsUsed ==> Id(c, b, month, u) != Id(c, b, month, v))
  }

  predicate Counted(b: Base, s: Settings)
  {
    && b.units <= s.unitsUsed && s.maxCents == b.cap
    && s.spendUsed == b.spend + b.Cents() * (s.unitsUsed - b.units)
    && (b.cap > 0 && b.spend <= b.cap ==> s.spendUsed <= b.cap)
  }

  ghost predicate Inv(c: Config, b: Base, month: string, w: World)
  {
    var s := Now(c, w, month);
    && c.org in w.tables.accounts && w.tables.accounts[c.org].planCode == b.plan
    && Counted(b, s)
    && Recorded(c, b, month, s, w.tables.events)
    && forall l :: l in w.loops ==> LoopOk(c, b, month, s, w.loops[l])
  }

  lemma PrepareInv(c: Config, b: Base, month: string, w: World, l: nat)
    requires Inv(c, b, month, w) && l in w.loops && w.loops[l].Ready?
    ensures Inv(c, b, month, Prepare(c, w, l, month))
    ensures Now(c, Prepare(c, w, l, month), month) == Now(c, w, month)
  {
    var r, s := w.loops[l], Now(c, w, month);
    var w' := Prepare(c, w, l, month);
    var p := PrepareTx(c.hash, w.tables, c.org, r.reserve, r.triggered, r.target, month);
    assert w'.tables.accounts == w.tables.accounts && w'.tables.events == w.tables.events;
    if p.result.Ok? && p.result.value.Purchase? {
      PrepareReads(c.hash, w.tables, c.org, r.reserve, month, r.triggered, r.target);
      assert Holds(b, s, s.unitsUsed + 1) && p.result.value.key == Key(c, b, month, s.unitsUsed + 1);
      assert LoopOk(c, b, month, s, w'.loops[l]);
    }
  }

  lemma PayInv(c: Config, b: Base, month: string, w: World, l: nat, fails: bool)
    requires Inv(c, b, month, w) && l in w.loops && w.loops[l].Prepared?
    ensures LoopOk(c, b, month, Now(c, w, month), PaidLoop(c, w.loops[l], fails))
  {
    var p, s := w.loops[l], Now(c, w, month);
    if !fails && c.buy(p.key).Some? && p.month == month {
      var unit: nat :| Holds(b, s, unit) && p.key == Key(c, b, month, unit);
      RecordedIdNotBlank(c.buy, c.hash, c.org, b.plan, month, unit, b.Cents());
      assert TrimSpace(PaidLoop(c, p, fails).bill) == Id(c, b, month, unit);
    }
  }

  lemma Times(c: nat, n: nat)
    ensures c * (n + 1) == c * n + c
  {
  }

  lemma RecordOne(c: Config, b: Base, month: string, s: Settings, s': Settings, events: set<string>, id: string)
    requires Recorded(c, b, month, s, events)
    requires s'.unitsUsed == s.unitsUsed + 1 && id == Id(c, b, month, s'.unitsUsed) && id !in events
    ensures Recorded(c, b, month, s', events + {id})
  {
    forall u: nat | b.units < u <= s'.unitsUsed
      ensures Id(c, b, month, u) in events + {id} && Id(c, b, month, u) !in b.events
    {
      if u == s'.unitsUsed {
        assert Id(c, b, month, u) == id;
      }
    }
    forall u: nat, v: nat | b.units < u < v <= s'.unitsUsed
      ensures Id(c, b, month, u) != Id(c, b, month, v)
    {
      if v == s'.unitsUsed {
        assert Id(c, b, month, u) in events;
      }
    }
  }

  lemma LoopStaysOk(c: Config, b: Base, month: string, s: Settings, s': Settings, l: Loop)
    requires LoopOk(c, b, month, s, l)
    requires s'.unitsUsed == s.unitsUsed + 1
    ensures LoopOk(c, b, month, s', l)
  {
    if InFlight(l) && l.month == month {
      if l.Prepared? {
        var unit: nat :| Holds(b, s, unit) && l.key == Key(c, b, month, unit);
        assert Holds(b, s', unit);
      } else {
        var unit: nat :| Holds(b, s, unit) && TrimSpace(l.bill) == Id(c, b, month, unit);
        assert Holds(b, s', unit);
      }
    }
  }

  lemma CompleteInv(c: Config, b: Base, month: string, w: World, l: nat)
    requires Inv(c, b, month, w) && l in w.loops && w.loops[l].Paid? && w.loops[l].month == month
    ensures Inv(c, b, month, Complete(c, w, l, month))
    ensures var w' := Complete(c, w, l, month);
            w'.tables.accounts[c.org].topup - w.tables.accounts[c.org].topup
            == TOPUP_UNIT_CREDITS * (Now(c, w', month).unitsUsed - Now(c, w, month).unitsUsed)
  {
    hide IdempotencyKey, TrimSpace;
    var p, s := w.loops[l], Now(c, w, month);
    var w' := Complete(c, w, l, month);
    CompleteProgress(w.tables, c.org, p.bill, p.cents, month);
    var unit: nat :| Holds(b, s, unit) && TrimSpace(p.bill) == Id(c, b, month, unit);
    var s' := Now(c, w', month);
    if TrimSpace(p.bill) in w.tables.events {
      assert s' == s;
      assert w'.tables.accounts == w.tables.accounts && w'.tables.events == w.tables.events;
    } else {
      assert unit == s.unitsUsed + 1;
      assert s' == s.(unitsUsed := s.unitsUsed + 1, spendUsed := s.spendUsed + b.Cents());
      Times(b.Cents(), s.unitsUsed - b.units);
      RecordOne(c, b, month, s, s', w.tables.events, TrimSpace(p.bill));
      forall k | k in w'.loops
        ensures LoopOk(c, b, month, s', w'.loops[k])
      {
        if k != l {
          LoopStaysOk(c, b, month, s, s', w.loops[k]);
        }
      }
    }
  }

  /** A reservation or a capture rewrites balances only. */
  predicate BalancesOnly(t: Tables, t': Tables, org: string)
  {
    && (org in t.accounts ==> org in t'.accounts && t'.accounts[org].planCode == t.accounts[org].planCode)
    && t'.settings == t.settings && t'.events == t.events
  }

  lemma AdmitBalancesOnly(t: Tables, org: string, run: string, credits: int, flavor: Flavor, startedAt: int, o: string)
    ensures BalancesOnly(t, AdmitTx(t, org, run, credits, flavor, startedAt).tables, o)
  {
  }

  lemma FinalizeBalancesOnly(t: Tables, run: string, terminalState: string, endedAt: int, o: string)
    ensures BalancesOnly(t, FinalizeTx(t, run, terminalState, endedAt).tables, o)
  {
    hide BillableCredits, CaptureDeltas;
  }

  lemma GrantKeepsSettings(t: Tables, event: string, org: string, credits: int, o: string)
    ensures var t' := GrantOnceTx(t, event, org, credits).tables;
            && (o in t.accounts ==> o in t'.accounts && t'.accounts[o].planCode == t.accounts[o].planCode)
            && t'.settings == t.settings && t.events <= t'.events
  {
  }

  lemma CompleteKeepsOthers(t: Tables, org: string, invoice: string, cents: int, month: string, o: string)
    requires o != org
    ensures var t' := CompleteTx(t, org, invoice, cents, month).tables;
            && (o in t.accounts ==> o in t'.accounts && t'.accounts[o] == t.accounts[o])
            && (o in t'.settings <==> o in t.settings)
            && (o in t.settings ==> t'.settings[o] == t.settings[o])
            && t.events <= t'.events
  {
    hide TrimSpace;
  }

  /** No other transaction touches the counters, the plan, or an event that is recorded. */
  lemma OtherKeeps(c: Config, w: World, step: Step, month: string)
    requires c.org in w.tables.accounts && Allowed(c, w, Other(step), month)
    ensures var t := Apply(w.tables, step);
            && c.org in t.accounts && t.accounts[c.org].planCode == w.tables.accounts[c.org].planCode
            && EnsureSettings(t.settings, c.org, month) == Now(c, w, month)
            && w.tables.events <= t.events
  {
    hide AdmitTx, FinalizeTx, GrantOnceTx, CompleteTx;
    match step {
      case Admit(org, run, credits, flavor, startedAt) =>
        AdmitBalancesOnly(w.tables, org, run, Max(credits, 0), flavor, startedAt, c.org);
      case Finalize(run, terminalState, endedAt) =>
        FinalizeBalancesOnly(w.tables, run, terminalState, endedAt, c.org);
      case GrantOnce(event, org, credits) =>
        GrantKeepsSettings(w.tables, event, org, credits, c.org);
      case CompleteTopup(org, invoice, cents, m) =>
        CompleteKeepsOthers(w.tables, org, invoice, cents, m, c.org);
      case _ =>
    }
  }

  lemma NextInv(c: Config, b: Base, month: string, w: World, a: Action)
    requires Inv(c, b, month, w) && Allowed(c, w, a, month)
    ensures Inv(c, b, month, Next(c, w, a))
    ensures Credited(c, w, a)
         == TOPUP_UNIT_CREDITS * (Now(c, Next(c, w, a), month).unitsUsed - Now(c, w, month).unitsUsed)
  {
    match a {
      case Begin(l, reserve) =>
      case PrepareStep(l, m) =>
        if l in w.loops && w.loops[l].Ready? {
          PrepareInv(c, b, month, w, l);
        }
      case Pay(l, fails) =>
        if l in w.loops && w.loops[l].Prepared? {
          PayInv(c, b, month, w, l, fails);
        }
      case CompleteStep(l, m) =>
        if l in w.loops && w.loops[l].Paid? {
          CompleteInv(c, b, month, w, l);
        }
      case Configure(_, _, _, _, _, _) =>
        ConfigureInv(c, b, month, w, a);
      case Other(step) =>
        OtherKeeps(c, w, step, month);
    }
  }

  lemma ConfigureInv(c: Config, b: Base, month: string, w: World, a: Action)
    requires Inv(c, b, month, w) && Allowed(c, w, a, month) && a.Configure?
    ensures Inv(c, b, month, Next(c, w, a))
    ensures Now(c, Next(c, w, a), month).unitsUsed == Now(c, w, month).unitsUsed
  {
    var s, s' := Now(c, w, month), Now(c, Next(c, w, a), month);
    assert s'.unitsUsed == s.unitsUsed && s'.spendUsed == s.spendUsed && s'.maxCents == s.maxCents;
    forall l | l in w.loops
      ensures LoopOk(c, b, month, s', w.loops[l])
    {
      assert forall unit: nat :: Holds(b, s, unit) ==> Holds(b, s', unit);
    }
  }

  // ---------- The theorem ----------

  /** The top-up credits that an action of a loop puts on the account. */
  function Credited(c: Config, w: World, a: Action): int
  {
    if a.CompleteStep? && c.org in w.tables.accounts && c.org in Next(c, w, a).tables.accounts then
      Next(c, w, a).tables.accounts[c.org].topup - w.tables.accounts[c.org].topup
    else 0
  }

  ghost function LoopCredits(c: Config, w: World, actions: seq<Action>): int
    decreases |actions|
  {
    if actions == [] then 0
    else Credited(c, w, actions[0]) + LoopCredits(c, Next(c, w, actions[0]), actions[1..])
  }

  lemma {:induction false} RunInv(c: Config, b: Base, month: string, w: World, actions: seq<Action>)
    requires Inv(c, b, month, w) && AllowedRun(c, w, actions, month)
    ensures Inv(c, b, month, RunWorld(c, w, actions))
    ensures LoopCredits(c, w, actions)
         == TOPUP_UNIT_CREDITS * (Now(c, RunWorld(c, w, actions), month).unitsUsed - Now(c, w, month).unitsUsed)
    decreases |actions|
  {
    if actions != [] {
      NextInv(c, b, month, w, actions[0]);
      RunInv(c, b, month, Next(c, w, actions[0]), actions[1..]);
    }
  }

  /**
    Whatever the interleaving: the units counted are exactly the purchases that the loops
    recorded, each id once and none twice; the loops granted 100 credits for each; the spend
    moved by the unit price for each; and a monthly cap that held at the start still holds.
    The purchase function and the hash are arbitrary.
   */
  lemma ConcurrentTopupsAreSafe(c: Config, w: World, actions: seq<Action>, month: string)
    requires c.org in w.tables.accounts
    requires NoneInFlight(w, month) && AllowedRun(c, w, actions, month)
    ensures var b := StartOf(c, w, month);
            var w' := RunWorld(c, w, actions);
            var s := Now(c, w', month);
            && b.units <= s.unitsUsed
            && LoopCredits(c, w, actions) == TOPUP_UNIT_CREDITS * (s.unitsUsed - b.units)
            && s.spendUsed == b.spend + b.Cents() * (s.unitsUsed - b.units)
            && (b.cap > 0 && b.spend <= b.cap ==> s.spendUsed <= s.maxCents == b.cap)
            && Recorded(c, b, month, s, w'.tables.events)
  {
    hide TopupUnitCents, EnsureSettings, Recorded, LoopOk, RunWorld, LoopCredits, AllowedRun;
    var b := StartOf(c, w, month);
    StartInv(c, w, month);
    RunInv(c, b, month, w, actions);
  }

  // ---------- When the cap holds ----------

  /** The month's spend is within the cap, or there is no cap. */
  predicate CapOk(c: Config, t: Tables)
  {
    c.org in t.settings ==> var s := t.settings[c.org]; s.maxCents == 0 || s.spendUsed <= s.maxCents
  }

  /** A completion counts nothing, or what it counts still fits the cap of the month it completes in. */
  predicate Fits(c: Config, w: World, bill: string, cents: int, month: string)
  {
    var s, id := Now(c, w, month), TrimSpace(bill);
    (id != "" && id in w.tables.events) || s.maxCents == 0 || s.spendUsed + Max(cents, 0) <= s.maxCents
  }

  /** The guard that completing an attempt and lowering the cap would need, and do not have. */
  predicate HasRoom(c: Config, w: World, a: Action)
  {
    match a
    case CompleteStep(l, m) =>
      l in w.loops && w.loops[l].Paid? && c.org in w.tables.accounts ==>
        Fits(c, w, w.loops[l].bill, w.loops[l].cents, m)
    case Configure(_, _, _, _, cap, m) => cap == 0 || Now(c, w, m).spendUsed <= cap
    case Other(CompleteTopup(org, invoice, cents, m)) =>
      org == c.org && org in w.tables.accounts ==> Fits(c, w, invoice, cents, m)
    case _ => true
  }

  predicate CapStays(c: Config, w: World, actions: seq<Action>)
    decreases |actions|
  {
    CapOk(c, w.tables) && (actions != [] ==> CapStays(c, Next(c, w, actions[0]), actions[1..]))
  }

  predicate AlwaysRoom(c: Config, w: World, actions: seq<Action>)
    decreases |actions|
  {
    actions != [] ==> HasRoom(c, w, actions[0]) && AlwaysRoom(c, Next(c, w, actions[0]), actions[1..])
  }

  lemma CompleteFits(c: Config, w: World, bill: string, cents: int, month: string)
    requires CapOk(c, w.tables) && c.org in w.tables.accounts
    ensures CapOk(c, CompleteTx(w.tables, c.org, bill, cents, month).tables) <==> Fits(c, w, bill, cents, month)
  {
    hide TrimSpace;
  }

  lemma StepKeepsCap(c: Config, t: Tables, step: Step)
    requires CapOk(c, t) && !(step.CompleteTopup? && step.org == c.org)
    ensures CapOk(c, Apply(t, step))
  {
    hide TrimSpace, AdmitTx, FinalizeTx, GrantOnceTx;
    match step {
      case Admit(org, run, credits, flavor, startedAt) =>
        AdmitBalancesOnly(t, org, run, Max(credits, 0), flavor, startedAt, c.org);
      case Finalize(run, terminalState, endedAt) =>
        FinalizeBalancesOnly(t, run, terminalState, endedAt, c.org);
      case GrantOnce(event, org, credits) =>
        GrantKeepsSettings(t, event, org, credits, c.org);
      case _ =>
    }
  }

  lemma PrepareKeepsCap(c: Config, w: World, l: nat, month: string)
    requires CapOk(c, w.tables) && l in w.loops && w.loops[l].Ready?
    ensures CapOk(c, Prepare(c, w, l, month).tables)
  {
    hide IdempotencyKey, TopupUnitCents;
  }

  /** One action keeps the cap exactly when it has room. */
  lemma RoomExactly(c: Config, w: World, a: Action)
    requires CapOk(c, w.tables)
    ensures CapOk(c, Next(c, w, a).tables) <==> HasRoom(c, w, a)
  {
    hide PrepareTx, CompleteTx, Apply, Fits, CapOk;
    match a {
      case PrepareStep(l, m) =>
        if l in w.loops && w.loops[l].Ready? {
          PrepareKeepsCap(c, w, l, m);
        }
      case CompleteStep(l, m) =>
        if l in w.loops && w.loops[l].Paid? {
          NoAccountNoChange(w.tables, c.org, w.loops[l].bill, w.loops[l].cents, m);
          if c.org in w.tables.accounts {
            CompleteFits(c, w, w.loops[l].bill, w.loops[l].cents, m);
          }
        }
      case Configure(_, _, _, _, cap, m) =>
        ConfiguredCap(c, w, a);
      case Other(step) =>
        if step.CompleteTopup? && step.org == c.org {
          OwnCompletion(c, w, step);
        } else {
          StepKeepsCap(c, w.tables, step);
        }
      case _ =>
    }
  }

  lemma NoAccountNoChange(t: Tables, org: string, bill: string, cents: int, month: string)
    ensures org !in t.accounts ==> CompleteTx(t, org, bill, cents, month).tables == t
  {
    hide TrimSpace;
  }

  lemma ConfiguredCap(c: Config, w: World, a: Action)
    requires a.Configure?
    ensures CapOk(c, Next(c, w, a).tables) <==> a.cap == 0 || Now(c, w, a.month).spendUsed <= a.cap
  {
  }

  lemma OwnCompletion(c: Config, w: World, step: Step)
    requires CapOk(c, w.tables) && step.CompleteTopup? && step.org == c.org
    ensures CapOk(c, Apply(w.tables, step))
       <==> (c.org in w.tables.accounts ==> Fits(c, w, step.invoice, step.cents, step.month))
  {
    hide CompleteTx, Fits, CapOk;
    NoAccountNoChange(w.tables, c.org, step.invoice, step.cents, step.month);
    if c.org in w.tables.accounts {
      CompleteFits(c, w, step.invoice, step.cents, step.month);
    }
  }

  /**
    Over any months, plans, caps, mirrors and interleavings: the monthly cap holds throughout a
    run exactly when every completion that counts still fits it, and no cap is set below what
    is spent. Prepare steps check the cap; these steps do not.
   */
  lemma {:induction false} CapHoldsExactly(c: Config, w: World, actions: seq<Action>)
    requires CapOk(c, w.tables)
    ensures CapStays(c, w, actions) <==> AlwaysRoom(c, w, actions)
    decreases |actions|
  {
    hide Next, HasRoom, CapOk;
    if actions != [] {
      RoomExactly(c, w, actions[0]);
      if HasRoom(c, w, actions[0]) {
        CapHoldsExactly(c, Next(c, w, actions[0]), actions[1..]);
      } else {
        assert !CapStays(c, Next(c, w, actions[0]), actions[1..]);
      }
    }
  }

  // ---------- Many months ----------

  /** The month that an action reads off the clock; the others can happen in any month. */
  function MonthOf(c: Config, a: Action, now: string): string
  {
    match a
    case PrepareStep(_, m) => m
    case CompleteStep(_, m) => m
    case Configure(_, _, _, _, _, m) => m
    case Other(step) => if step.PrepareTopup? && step.org == c.org then step.month else now
    case _ => now
  }

  predicate NoneInFlight(w: World, month: string)
  {
    forall l :: l in w.loops && InFlight(w.loops[l]) ==> w.loops[l].month != month
  }

  /** Between attempts of a month its plan may change, and its cap to one that covers what is spent. */
  predicate NewTerms(c: Config, w: World, a: Action, month: string)
  {
    NoneInFlight(w, month) && (a.Configure? ==> a.cap == 0 || Now(c, w, month).spendUsed <= a.cap)
  }

  /**
    The clock does not go back, every attempt is completed in the month it was prepared, and
    the plan and the cap stay as they are while an attempt of the month is in flight.
   */
  ghost predicate AllowedMonths(c: Config, w: World, actions: seq<Action>, now: string, past: set<string>)
    decreases |actions|
  {
    actions != [] ==>
      var m := MonthOf(c, actions[0], now);
      && m !in past && Proper(c, w, actions[0], m) && (SameTerms(c, w, actions[0]) || NewTerms(c, w, actions[0], m))
      && AllowedMonths(c, Next(c, w, actions[0]), actions[1..], m, if m == now then past else past + {now})
  }

  /** The settings row and the attempts in flight date from months that have come. */
  ghost predicate Dated(c: Config, w: World, months: set<string>)
  {
    && (c.org in w.tables.settings ==> w.tables.settings[c.org].anchorMonth in months)
    && (forall l :: l in w.loops && InFlight(w.loops[l]) ==> w.loops[l].month in months)
  }

  lemma OtherKeepsRow(c: Config, t: Tables, step: Step, m: string)
    requires c.org in t.accounts
    requires step.CompleteTopup? ==> step.org != c.org
    requires step.PrepareTopup? && step.org == c.org ==> step.month == m
    ensures var t' := Apply(t, step);
            c.org in t'.settings ==>
              t'.settings[c.org].anchorMonth == m || (c.org in t.settings && t'.settings[c.org] == t.settings[c.org])
  {
    hide AdmitTx, FinalizeTx, GrantOnceTx, TrimSpace;
    match step {
      case Admit(org, run, credits, flavor, startedAt) =>
        AdmitBalancesOnly(t, org, run, Max(credits, 0), flavor, startedAt, c.org);
      case Finalize(run, terminalState, endedAt) =>
        FinalizeBalancesOnly(t, run, terminalState, endedAt, c.org);
      case GrantOnce(event, org, credits) =>
        GrantKeepsSettings(t, event, org, credits, c.org);
      case _ =>
    }
  }

  lemma DatedNext(c: Config, w: World, a: Action, m: string, months: set<string>)
    requires c.org in w.tables.accounts && Proper(c, w, a, m) && Dated(c, w, months) && m in months
    ensures Dated(c, Next(c, w, a), months)
  {
    hide TrimSpace, IdempotencyKey, Apply;
    if a.Other? {
      OtherKeepsRow(c, w.tables, a.step, m);
    }
  }

  /** Where no attempt of the month is in flight, the count starts anew. */
  lemma StartInv(c: Config, w: World, month: string)
    requires c.org in w.tables.accounts && NoneInFlight(w, month)
    ensures Inv(c, StartOf(c, w, month), month, w)
  {
  }

  lemma NewTermsKeep(c: Config, w: World, a: Action, m: string)
    requires c.org in w.tables.accounts && Proper(c, w, a, m) && !SameTerms(c, w, a) && NoneInFlight(w, m)
    ensures c.org in Next(c, w, a).tables.accounts && NoneInFlight(Next(c, w, a), m)
  {
  }

  /** While an attempt of the month is in flight its unit is counted already or fits the cap. */
  lemma AttemptFits(c: Config, b: Base, month: string, w: World, a: Action)
    requires Inv(c, b, month, w) && Proper(c, w, a, month) && CapOk(c, w.tables)
    requires SameTerms(c, w, a) || NewTerms(c, w, a, month)
    ensures HasRoom(c, w, a)
  {
    hide TrimSpace, IdempotencyKey;
    if a.CompleteStep? && a.loop in w.loops && w.loops[a.loop].Paid? {
      var p, s := w.loops[a.loop], Now(c, w, month);
      var unit: nat :| Holds(b, s, unit) && TrimSpace(p.bill) == Id(c, b, month, unit);
    }
  }

  /** The count of a month, which starts when the month does. */
  lemma MonthStart(c: Config, b: Base, w: World, now: string, m: string, months: set<string>) returns (b': Base)
    requires Inv(c, b, now, w) && Dated(c, w, months) && now in months && (m == now || m !in months)
    ensures c.org in w.tables.accounts && Inv(c, b', m, w) && Dated(c, w, months + {m})
  {
    b' := b;
    if m != now {
      StartInv(c, w, m);
      b' := StartOf(c, w, m);
    }
  }

  /** After an action of the month, the count goes on, or starts anew on the new terms. */
  lemma MonthStep(c: Config, b: Base, w: World, a: Action, m: string) returns (b': Base)
    requires Inv(c, b, m, w) && Proper(c, w, a, m) && (SameTerms(c, w, a) || NewTerms(c, w, a, m))
    ensures Inv(c, b', m, Next(c, w, a))
  {
    hide Next, Proper, SameTerms;
    if SameTerms(c, w, a) {
      NextInv(c, b, m, w, a);
      b' := b;
    } else {
      NewTermsKeep(c, w, a, m);
      StartInv(c, Next(c, w, a), m);
      b' := StartOf(c, Next(c, w, a), m);
    }
  }

  lemma {:induction false} RunMonths(c: Config, b: Base, w: World, actions: seq<Action>, now: string, past: set<string>)
    requires Inv(c, b, now, w) && CapOk(c, w.tables)
    requires now !in past && Dated(c, w, past + {now}) && AllowedMonths(c, w, actions, now, past)
    ensures AlwaysRoom(c, w, actions)
    decreases |actions|
  {
    hide Inv, CapOk, HasRoom, Next, Proper, SameTerms, NewTerms;
    if actions != [] {
      var a, m := actions[0], MonthOf(c, actions[0], now);
      var w', months := Next(c, w, a), past + {now};
      var b0 := MonthStart(c, b, w, now, m, months);
      AttemptFits(c, b0, m, w, a);
      RoomExactly(c, w, a);
      DatedNext(c, w, a, m, months + {m});
      var b' := MonthStep(c, b0, w, a, m);
      var past' := if m == now then past else months;
      assert months + {m} == past' + {m};
      RunMonths(c, b', w', actions[1..], m, past');
    }
  }

  /**
    What makes room: over any number of months and however the loops interleave, the monthly
    cap holds throughout when each attempt is completed in the month it was prepared, and the
    plan and the cap stay as they are while an attempt of the month is in flight.
   */
  lemma CapHoldsOverMonths(c: Config, w: World, actions: seq<Action>, now: string, past: set<string>)
    requires c.org in w.tables.accounts && now !in past && Dated(c, w, past + {now}) && NoneInFlight(w, now)
    requires CapOk(c, w.tables) && AllowedMonths(c, w, actions, now, past)
    ensures AlwaysRoom(c, w, actions) && CapStays(c, w, actions)
  {
    hide CapOk;
    StartInv(c, w, now);
    RunMonths(c, StartOf(c, w, now), w, actions, now, past);
    CapHoldsExactly(c, w, actions);
  }

  // ---------- Where the theorem stops ----------

  function Price(a: Account): nat { TopupUnitCents(a.planCode) }

  /** A goal of 1000 credits, and a monthly cap. */
  function Row(cap: nat, month: string, units: nat, spent: nat): Settings
  {
    Settings(true, 10, 1000, 0, units, cap, spent, month)
  }

  function Scene(c: Config, a: Account, s: Settings, events: set<string>): Tables
  {
    Tables(map[c.org := a], map[], map[], map[c.org := s], events)
  }

  /** The key of the first unit of a month. */
  function FirstKey(c: Config, a: Account, month: string): string
  {
    IdempotencyKey(c.hash, c.org, a.planCode, month, 1, Price(a))
  }

  function FirstBill(c: Config, a: Account, month: string): string
    requires c.buy(FirstKey(c, a, month)).Some?
  {
    GrantKey(c.buy(FirstKey(c, a, month)).value, FirstKey(c, a, month))
  }

  function FirstId(c: Config, a: Account, month: string): string
  {
    RecordedId(c.buy, FirstKey(c, a, month))
  }

  function OpenAttempt(c: Config, a: Account, month: string): Loop
  {
    Prepared(4, FirstKey(c, a, month), 1000, Price(a), month)
  }

  function PaidAttempt(c: Config, a: Account, month: string): Loop
    requires c.buy(FirstKey(c, a, month)).Some?
  {
    Paid(4, FirstBill(c, a, month), 1000, Price(a), month)
  }

  lemma OneEntry<K, V>(k: K, v: V, w: V)
    ensures map[k := v][k := w] == map[k := w]
  {
  }

  lemma ScenePrepare(c: Config, a: Account, cap: nat, month: string, now: string)
    requires a.Balance() == 0 && Price(a) <= cap
    ensures PrepareTx(c.hash, Scene(c, a, Row(cap, month, 0, 0), {}), c.org, 4, false, 0, now)
         == Tx(Scene(c, a, Row(cap, now, 0, 0), {}), Ok(Purchase(a, FirstKey(c, a, now), 1000, Price(a))))
  {
    hide PrepareTx, IdempotencyKey, TopupUnitCents;
    var t := Scene(c, a, Row(cap, month, 0, 0), {});
    OneEntry(c.org, Row(cap, month, 0, 0), Row(cap, now, 0, 0));
    PrepareBuys(c.hash, t, c.org, 4, now, false, 0, Row(cap, now, 0, 0), FirstKey(c, a, now), 1000, Price(a));
  }

  /** Completing the attempt of an account as it was counts on the account as it is. */
  lemma SceneComplete(c: Config, was: Account, a: Account, cap: nat, month: string, now: string, units: nat, spent: nat,
                      events: set<string>)
    requires c.buy(FirstKey(c, was, month)).Some? && FirstId(c, was, month) !in events
    ensures var t := Scene(c, a, Row(cap, now, units, spent), events);
            var t' := Scene(c, GrantRow(a, TOPUP_UNIT_CREDITS), Row(cap, now, units + 1, spent + Price(was)),
                            events + {FirstId(c, was, month)});
            CompleteTx(t, c.org, FirstBill(c, was, month), Price(was), now)
              == Tx(t', Ok(GrantRow(a, TOPUP_UNIT_CREDITS)))
  {
    hide IdempotencyKey, TopupUnitCents, TrimSpace;
    var t := Scene(c, a, Row(cap, now, units, spent), events);
    RecordedIdNotBlank(c.buy, c.hash, c.org, was.planCode, month, 1, Price(was));
    CompleteProgress(t, c.org, FirstBill(c, was, month), Price(was), now);
    OneEntry(c.org, Row(cap, now, units, spent), Row(cap, now, units + 1, spent + Price(was)));
    OneEntry(c.org, a, GrantRow(a, TOPUP_UNIT_CREDITS));
  }

  lemma PrepareInScene(c: Config, a: Account, cap: nat, month: string, now: string, loops: map<nat, Loop>, l: nat)
    requires a.Balance() == 0 && Price(a) <= cap && l in loops && loops[l] == Ready(4, false, 0)
    ensures Next(c, World(Scene(c, a, Row(cap, month, 0, 0), {}), loops), PrepareStep(l, now))
         == World(Scene(c, a, Row(cap, now, 0, 0), {}), loops[l := OpenAttempt(c, a, now)])
  {
    hide PrepareTx, IdempotencyKey, Scene;
    ScenePrepare(c, a, cap, month, now);
  }

  lemma PayInScene(c: Config, a: Account, month: string, w: World, l: nat)
    requires c.buy(FirstKey(c, a, month)).Some? && l in w.loops && w.loops[l] == OpenAttempt(c, a, month)
    ensures Next(c, w, Pay(l, false)) == w.(loops := w.loops[l := PaidAttempt(c, a, month)])
  {
    hide IdempotencyKey, GrantKey, Price;
  }

  lemma CompleteInScene(c: Config, was: Account, a: Account, cap: nat, month: string, now: string, units: nat,
                        spent: nat, events: set<string>, loops: map<nat, Loop>, l: nat)
    requires c.buy(FirstKey(c, was, month)).Some? && FirstId(c, was, month) !in events
    requires l in loops && loops[l] == PaidAttempt(c, was, month)
    ensures var w := Next(c, World(Scene(c, a, Row(cap, now, units, spent), events), loops), CompleteStep(l, now));
            && w.tables == Scene(c, GrantRow(a, TOPUP_UNIT_CREDITS), Row(cap, now, units + 1, spent + Price(was)),
                                 events + {FirstId(c, was, month)})
            && forall k :: k in loops && k != l ==> k in w.loops && w.loops[k] == loops[k]
  {
    hide CompleteTx, Scene, FirstBill, FirstKey, FirstId;
    SceneComplete(c, was, a, cap, month, now, units, spent, events);
  }

  lemma {:induction false} RunTrace(c: Config, worlds: seq<World>, actions: seq<Action>)
    requires |worlds| == |actions| + 1
    requires forall i :: 0 <= i < |actions| ==> Next(c, worlds[i], actions[i]) == worlds[i + 1]
    ensures RunWorld(c, worlds[0], actions) == worlds[|actions|]
    decreases |actions|
  {
    hide Next;
    if actions != [] {
      forall i | 0 <= i < |actions| - 1
        ensures Next(c, worlds[1..][i], actions[1..][i]) == worlds[1..][i + 1]
      {
        assert Next(c, worlds[i + 1], actions[i + 1]) == worlds[i + 2];
      }
      RunTrace(c, worlds[1..], actions[1..]);
    }
  }

  lemma {:induction false} RunParts(c: Config, w: World, a: seq<Action>, b: seq<Action>)
    ensures RunWorld(c, w, a + b) == RunWorld(c, RunWorld(c, w, a), b)
    decreases |a|
  {
    hide Next;
    if a == [] {
      assert a + b == b;
    } else {
      assert (a + b)[0] == a[0] && (a + b)[1..] == a[1..] + b;
      RunParts(c, Next(c, w, a[0]), a[1..], b);
    }
  }

  /** One loop prepares on the account as it was, and another one waits. */
  function Opening(m0: string): seq<Action> { [Begin(0, 4), Begin(1, 4), PrepareStep(0, m0)] }

  /** The other prepares on the account as it is, both are paid, and both complete. */
  function Closing(m1: string): seq<Action>
  {
    [PrepareStep(1, m1), Pay(0, false), Pay(1, false), CompleteStep(0, m1), CompleteStep(1, m1)]
  }

  function Opened(c: Config, a: Account, m0: string): map<nat, Loop>
  {
    map[0 := OpenAttempt(c, a, m0), 1 := Ready(4, false, 0)]
  }

  lemma OpeningRuns(c: Config, a: Account, cap: nat, m0: string)
    requires a.Balance() == 0 && Price(a) <= cap
    ensures var t := Scene(c, a, Row(cap, m0, 0, 0), {});
            RunWorld(c, World(t, map[]), Opening(m0)) == World(t, Opened(c, a, m0))
  {
    hide Scene, Row, FirstKey, OpenAttempt, Price, RunWorld, Prepare, Complete;
    var t := Scene(c, a, Row(cap, m0, 0, 0), {});
    var l1: map<nat, Loop> := map[0 := Ready(4, false, 0)];
    var l2 := l1[1 := Ready(4, false, 0)];
    PrepareInScene(c, a, cap, m0, m0, l2, 0);
    var worlds := [World(t, map[]), World(t, l1), World(t, l2), World(t, l2[0 := OpenAttempt(c, a, m0)])];
    assert l2[0 := OpenAttempt(c, a, m0)] == Opened(c, a, m0);
    assert Next(c, worlds[0], Opening(m0)[0]) == worlds[1] && Next(c, worlds[1], Opening(m0)[1]) == worlds[2];
    RunTrace(c, worlds, Opening(m0));
  }

  /** The other loop prepares, and both are paid. */
  lemma BothPaid(c: Config, was: Account, a: Account, cap: nat, m0: string, m1: string)
    requires a.Balance() == 0 && Price(a) <= cap
    requires c.buy(FirstKey(c, was, m0)).Some? && c.buy(FirstKey(c, a, m1)).Some?
    ensures RunWorld(c, World(Scene(c, a, Row(cap, m0, 0, 0), {}), Opened(c, was, m0)),
                     [PrepareStep(1, m1), Pay(0, false), Pay(1, false)])
         == World(Scene(c, a, Row(cap, m1, 0, 0), {}), map[0 := PaidAttempt(c, was, m0), 1 := PaidAttempt(c, a, m1)])
  {
    hide Scene, Row, FirstKey, FirstBill, OpenAttempt, PaidAttempt, Price, RunWorld, Next;
    var w := World(Scene(c, a, Row(cap, m0, 0, 0), {}), Opened(c, was, m0));
    var t := Scene(c, a, Row(cap, m1, 0, 0), {});
    var l1 := w.loops[1 := OpenAttempt(c, a, m1)];
    var l2 := l1[0 := PaidAttempt(c, was, m0)];
    var l3 := l2[1 := PaidAttempt(c, a, m1)];
    PrepareInScene(c, a, cap, m0, m1, w.loops, 1);
    PayInScene(c, was, m0, World(t, l1), 0);
    PayInScene(c, a, m1, World(t, l2), 1);
    RunTrace(c, [w, World(t, l1), World(t, l2), World(t, l3)], [PrepareStep(1, m1), Pay(0, false), Pay(1, false)]);
    assert l3 == map[0 := PaidAttempt(c, was, m0), 1 := PaidAttempt(c, a, m1)];
  }

  /** Both complete in the same month and are counted. */
  lemma BothComplete(c: Config, was: Account, a: Account, cap: nat, m0: string, m1: string)
    requires c.buy(FirstKey(c, was, m0)).Some? && c.buy(FirstKey(c, a, m1)).Some?
    requires FirstId(c, was, m0) != FirstId(c, a, m1)
    ensures var w := World(Scene(c, a, Row(cap, m1, 0, 0), {}),
                           map[0 := PaidAttempt(c, was, m0), 1 := PaidAttempt(c, a, m1)]);
            var t := RunWorld(c, w, [CompleteStep(0, m1), CompleteStep(1, m1)]).tables;
            c.org in t.settings && t.settings[c.org] == Row(cap, m1, 2, Price(was) + Price(a))
  {
    hide Row, FirstKey, FirstBill, FirstId, PaidAttempt, Price, RunWorld, Next;
    var w := World(Scene(c, a, Row(cap, m1, 0, 0), {}), map[0 := PaidAttempt(c, was, m0), 1 := PaidAttempt(c, a, m1)]);
    CompleteInScene(c, was, a, cap, m0, m1, 0, 0, {}, w.loops, 0);
    var w' := Next(c, w, CompleteStep(0, m1));
    CompleteInScene(c, a, GrantRow(a, TOPUP_UNIT_CREDITS), cap, m1, m1, 1, 0 + Price(was), {} + {FirstId(c, was, m0)},
                    w'.loops, 1);
    RunTrace(c, [w, w', Next(c, w', CompleteStep(1, m1))], [CompleteStep(0, m1), CompleteStep(1, m1)]);
  }

  lemma ClosingRuns(c: Config, was: Account, a: Account, cap: nat, m0: string, m1: string)
    requires a.Balance() == 0 && Price(a) <= cap
    requires c.buy(FirstKey(c, was, m0)).Some? && c.buy(FirstKey(c, a, m1)).Some?
    requires FirstId(c, was, m0) != FirstId(c, a, m1)
    ensures var w := World(Scene(c, a, Row(cap, m0, 0, 0), {}), Opened(c, was, m0));
            var t := RunWorld(c, w, Closing(m1)).tables;
            c.org in t.settings && t.settings[c.org] == Row(cap, m1, 2, Price(was) + Price(a))
  {
    hide Scene, Row, FirstKey, FirstId, PaidAttempt, Price, RunWorld, Opened;
    BothPaid(c, was, a, cap, m0, m1);
    BothComplete(c, was, a, cap, m0, m1);
    var first, last := [PrepareStep(1, m1), Pay(0, false), Pay(1, false)], [CompleteStep(0, m1), CompleteStep(1, m1)];
    RunParts(c, World(Scene(c, a, Row(cap, m0, 0, 0), {}), Opened(c, was, m0)), first, last);
    assert Closing(m1) == first + last;
  }

  /**
    When an attempt is completed in a later month than it was prepared, the cap can break, on
    every plan: each of the two loops was within a cap of one unit when it was prepared, and
    the spend of the new month ends at two.
   */
  lemma CapBreaksAcrossMonths(c: Config, a: Account, old': string, new': string)
    requires a.Balance() == 0
    requires c.buy(FirstKey(c, a, old')).Some? && c.buy(FirstKey(c, a, new')).Some?
    requires FirstId(c, a, old') != FirstId(c, a, new')
    ensures var w := World(Scene(c, a, Row(Price(a), old', 0, 0), {}), map[]);
            var t := RunWorld(c, w, Opening(old') + Closing(new')).tables;
            && c.org in t.settings && t.settings[c.org] == Row(Price(a), new', 2, 2 * Price(a))
            && !CapOk(c, t)
  {
    hide Scene, FirstKey, FirstId, RunWorld, Opening, Closing;
    OpeningRuns(c, a, Price(a), old');
    ClosingRuns(c, a, a, Price(a), old', new');
    RunParts(c, World(Scene(c, a, Row(Price(a), old', 0, 0), {}), map[]), Opening(old'), Closing(new'));
  }

  /** The account as an account mirror leaves it. */
  function Mirrored(c: Config, a: Account, m: Mirror): Account
  {
    MirrorTx(Tables(map[c.org := a], map[], map[], map[], {}), c.org, m).tables.accounts[c.org]
  }

  lemma MirrorInScene(c: Config, a: Account, s: Settings, m: Mirror, loops: map<nat, Loop>)
    ensures RunWorld(c, World(Scene(c, a, s, {}), loops), [Other(MirrorAccount(c.org, m))])
         == World(Scene(c, Mirrored(c, a, m), s, {}), loops)
  {
    var act := Other(MirrorAccount(c.org, m));
    var w' := Next(c, World(Scene(c, a, s, {}), loops), act);
    OneEntry(c.org, a, Mirrored(c, a, m));
    assert [act][1..] == [] && RunWorld(c, w', []) == w';
  }

  /**
    So it can within one month when an account mirror changes the plan while an attempt is in
    flight: the two plans have keys of their own for the month's first unit, each loop was
    within a cap of the dearer unit when it was prepared, and both units are spent.
   */
  lemma CapBreaksAcrossPlans(c: Config, a: Account, m: Mirror, month: string)
    requires var a' := Mirrored(c, a, m);
             && a.Balance() == 0 == a'.Balance()
             && c.buy(FirstKey(c, a, month)).Some? && c.buy(FirstKey(c, a', month)).Some?
             && FirstId(c, a, month) != FirstId(c, a', month)
    ensures var a' := Mirrored(c, a, m);
            var cap := Max(Price(a), Price(a'));
            var w := World(Scene(c, a, Row(cap, month, 0, 0), {}), map[]);
            var t := RunWorld(c, w, Opening(month) + [Other(MirrorAccount(c.org, m))] + Closing(month)).tables;
            && c.org in t.settings && t.settings[c.org] == Row(cap, month, 2, Price(a) + Price(a'))
            && !CapOk(c, t)
  {
    hide Scene, FirstKey, FirstId, RunWorld, Opening, Closing, Mirrored;
    var a' := Mirrored(c, a, m);
    var cap := Max(Price(a), Price(a'));
    var w := World(Scene(c, a, Row(cap, month, 0, 0), {}), map[]);
    var turn := [Other(MirrorAccount(c.org, m))];
    OpeningRuns(c, a, cap, month);
    MirrorInScene(c, a, Row(cap, month, 0, 0), m, Opened(c, a, month));
    ClosingRuns(c, a, a', cap, month, month);
    RunParts(c, w, Opening(month), turn);
    RunParts(c, w, Opening(month) + turn, Closing(month));
  }
}
