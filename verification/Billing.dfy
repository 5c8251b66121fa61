/**
  The rows of the billing tables and the arithmetic on them (types.go, flavor.go, plans.go).
  A moment in time is a number of nanoseconds; an int32 column is an unbounded integer.
 */
module Billing {
  import opened Text

  // ---------- Flavors and billable time ----------

  const NANOS_PER_MINUTE := 60_000_000_000

  datatype Flavor = Standard | Plus {
    function Rank(): int { if Standard? then 1 else 2 }
    function Multiplier(): int { if Standard? then 1 else 2 }
    function Code(): string { if Standard? then "standard" else "plus" }
  }

  function ParseFlavor(code: string): Option<Flavor>
  {
    var c := ToLower(TrimSpace(code));
    if c == "" || c == "standard" then Some(Standard)
    else if c in ["plus", "pro", "max", "enterprise"] then Some(Plus)
    else None
  }

  predicate FlavorAllowed(f: Flavor, maxCode: string)
  {
    var cap := match ParseFlavor(maxCode) case Some(m) => m case None => Standard;
    f.Rank() <= cap.Rank()
  }

  const LAUNCH_FLAVORS := [Standard, Plus]

  /** The codes of the larger flavor, in any case and with any white space around them. */
  predicate PlusCode(code: string)
  {
    ToLower(TrimSpace(code)) in {"plus", "pro", "max", "enterprise"}
  }

  /** Every plan has the standard flavor; the larger one is for the plans that name it, now or formerly. */
  lemma AllowedExactly(f: Flavor, maxCode: string)
    ensures FlavorAllowed(f, maxCode) <==> f == Standard || PlusCode(maxCode)
  {
  }

  /** The flavors of a plan, cheapest first. */
  method AllowedFlavors(maxCode: string) returns (out: seq<Flavor>)
    ensures out == if PlusCode(maxCode) then [Standard, Plus] else [Standard]
    ensures forall f :: f in out <==> FlavorAllowed(f, maxCode)
    ensures out <= LAUNCH_FLAVORS && |out| >= 1
  {
    AllowedExactly(Plus, maxCode);
    out := [];
    for i := 0 to |LAUNCH_FLAVORS|
      invariant out <= LAUNCH_FLAVORS && |out| <= i && (i > 0 ==> |out| >= 1)
      invariant forall j :: 0 <= j < i ==> (LAUNCH_FLAVORS[j] in out <==> FlavorAllowed(LAUNCH_FLAVORS[j], maxCode))
    {
      if FlavorAllowed(LAUNCH_FLAVORS[i], maxCode) {
        out := out + [LAUNCH_FLAVORS[i]];
      }
    }
    assert LAUNCH_FLAVORS[0] == Standard && LAUNCH_FLAVORS[1] == Plus;
    assert Standard in out && (Plus in out <==> PlusCode(maxCode));
    assert out == LAUNCH_FLAVORS[..|out|] && LAUNCH_FLAVORS == [Standard, Plus];
  }

  function CeilDiv(a: int, b: int): int
    requires b > 0
  {
    -((-a) / b)
  }

  /** Billable minutes and credits of a run, both rounded up. */
  function BillableCredits(start: int, end: int, multiplier: int): (r: (int, int))
    ensures r.0 >= 0 && r.1 >= 0
  {
    var m := Max(multiplier, 1);
    if end <= start then (0, 0)
    else
      var minutes := Max(CeilDiv(end - start, NANOS_PER_MINUTE), 1);
      (minutes, (minutes + 14) / 15 * m)
  }

  /** Rounding up to minutes and then to quarter hours is rounding up to quarter hours once. */
  lemma CreditsAreQuarterHours(start: int, end: int, multiplier: int)
    requires start < end
    ensures BillableCredits(start, end, multiplier).1
         == Max(multiplier, 1) * CeilDiv(end - start, 15 * NANOS_PER_MINUTE)
    ensures CeilDiv(end - start, 15 * NANOS_PER_MINUTE) >= 1
  {
    var d := end - start;
    var minutes := CeilDiv(d, NANOS_PER_MINUTE);
    assert minutes >= 1;
    assert (minutes + 14) / 15 == CeilDiv(d, 15 * NANOS_PER_MINUTE);
    var blocks := CeilDiv(d, 15 * NANOS_PER_MINUTE);
    assert blocks * Max(multiplier, 1) == Max(multiplier, 1) * blocks;
  }

  /** `q` is the least number of units that cover the duration `d`. */
  predicate RoundsUp(q: int, d: int, unit: int)
  {
    (q - 1) * unit < d <= q * unit
  }

  /** Minutes round up; the price is one credit for each quarter hour begun, times the multiplier. */
  lemma BilledExactly(start: int, end: int, multiplier: int, quarters: int)
    requires start < end && RoundsUp(quarters, end - start, 15 * NANOS_PER_MINUTE)
    ensures var (minutes, credits) := BillableCredits(start, end, multiplier);
            RoundsUp(minutes, end - start, NANOS_PER_MINUTE) && credits == quarters * Max(multiplier, 1)
  {
    CreditsAreQuarterHours(start, end, multiplier);
    var d := end - start;
    assert CeilDiv(d, 15 * NANOS_PER_MINUTE) == quarters;
    assert quarters * Max(multiplier, 1) == Max(multiplier, 1) * quarters;
  }

  lemma CeilDivSplit(x: int, y: int, b: int)
    requires b == 15 * NANOS_PER_MINUTE
    ensures CeilDiv(x + y, b) <= CeilDiv(x, b) + CeilDiv(y, b) <= CeilDiv(x + y, b) + 1
  {
  }

  lemma Distribute(m: int, w: int, a: int, b: int)
    requires m >= 0 && w <= a + b <= w + 1
    ensures m * w <= m * a + m * b <= m * w + m
  {
    MulMonotone(m, w, a + b);
    MulMonotone(m, a + b, w + 1);
    assert m * (a + b) == m * a + m * b;
    assert m * (w + 1) == m * w + m;
  }

  lemma MulMonotone(m: int, a: int, b: int)
    requires m >= 0 && a <= b
    ensures m * a <= m * b
  {
  }

  /** A later end never costs less. */
  lemma CreditsMonotone(start: int, end: int, later: int, multiplier: int)
    requires end <= later
    ensures BillableCredits(start, end, multiplier).1 <= BillableCredits(start, later, multiplier).1
  {
    if start < end {
      CreditsAreQuarterHours(start, end, multiplier);
      CreditsAreQuarterHours(start, later, multiplier);
      MulMonotone(Max(multiplier, 1),
                  CeilDiv(end - start, 15 * NANOS_PER_MINUTE), CeilDiv(later - start, 15 * NANOS_PER_MINUTE));
    }
  }

  /** Splitting a run in two never lowers the price and raises it by at most one block. */
  lemma CreditsSplit(start: int, mid: int, end: int, multiplier: int)
    requires start <= mid <= end
    ensures var whole := BillableCredits(start, end, multiplier).1;
            var parts := BillableCredits(start, mid, multiplier).1 + BillableCredits(mid, end, multiplier).1;
            whole <= parts <= whole + Max(multiplier, 1)
  {
    if start < mid < end {
      var m := Max(multiplier, 1);
      var block := 15 * NANOS_PER_MINUTE;
      CreditsAreQuarterHours(start, mid, multiplier);
      CreditsAreQuarterHours(mid, end, multiplier);
      CreditsAreQuarterHours(start, end, multiplier);
      var a, b, w := CeilDiv(mid - start, block), CeilDiv(end - mid, block), CeilDiv(end - start, block);
      CeilDivSplit(mid - start, end - mid, block);
      Distribute(m, w, a, b);
    }
  }

  // ---------- Rows ----------

  datatype Account = Account(
    planCode: string,
    periodStart: int,
    periodEnd: int,
    included: int,
    used: int,
    topup: int,
    maxFlavor: string,
    perRunMax: int,
    exempt: bool)
  {
    function IncludedRemaining(): int { Max(included - used, 0) }

    function Balance(): int { IncludedRemaining() + topup }

    /** The CHECK constraints of billing_accounts. */
    predicate RowOk() { included >= 0 && used >= 0 && topup >= 0 && perRunMax >= 1 }
  }

  datatype Status = Reserved | Captured | Released | Comped

  datatype Reservation = Reservation(
    org: string,
    reserved: int,
    fromIncluded: int,
    fromTopup: int,
    captured: int,
    released: int,
    status: Status)

  datatype Meter = Meter(
    org: string,
    flavor: string,
    multiplier: int,
    startedAt: int,
    endedAt: Option<int>,
    minutes: int,
    captured: int,
    terminalState: string)

  datatype Settings = Settings(
    enabled: bool,
    threshold: nat,
    target: nat,
    maxUnits: nat,
    unitsUsed: nat,
    maxCents: nat,
    spendUsed: nat,
    anchorMonth: string)

  /** The billing tables. */
  datatype Tables = Tables(
    accounts: map<string, Account>,
    reservations: map<string, Reservation>,
    meters: map<string, Meter>,
    settings: map<string, Settings>,
    events: set<string>)

  datatype BillingError =
    | NoRows
    | CheckViolation
    | Insufficient(needed: int, available: int)
    | FlavorNotAllowed
    | MissingIds
    | TopupNotConfigured
    | PaymentFailed
    | RoundsExhausted

  datatype Result<+T> = Ok(value: T) | Err(error: BillingError)

  /** What a transaction leaves behind: the tables it commits and what it returns. */
  datatype Tx<+T> = Tx(tables: Tables, result: Result<T>)

  /** The row that EnsureBillingAccount inserts: the column defaults of billing_accounts. */
  const NEW_ACCOUNT := Account("free", 0, 0, 25, 0, 0, "standard", 4, false)

  function EnsureAccount(accounts: map<string, Account>, org: string): map<string, Account>
  {
    if org in accounts then accounts else accounts[org := NEW_ACCOUNT]
  }

  /** UpdateBillingReservedBalances on one row. */
  function ReserveRow(a: Account, fromIncluded: int, fromTopup: int): Account
  {
    a.(used := a.used + fromIncluded, topup := a.topup - fromTopup)
  }

  /** UpdateBillingCapturedBalances on one row: both columns are clamped. */
  function CaptureRow(a: Account, includedDelta: int, topupDelta: int): Account
  {
    a.(used := Min(Max(a.used + includedDelta, 0), a.included), topup := Max(a.topup + topupDelta, 0))
  }

  /** GrantBillingTopupCredits on one row. */
  function GrantRow(a: Account, credits: int): Account
  {
    a.(topup := a.topup + credits)
  }

  /** UpsertBillingRunMeterStart: a second start keeps the start time and the terminal state. */
  function UpsertMeterStart(meters: map<string, Meter>, run: string, org: string, flavor: Flavor, startedAt: int)
    : map<string, Meter>
  {
    if run in meters then
      meters[run := meters[run].(flavor := flavor.Code(), multiplier := flavor.Multiplier())]
    else
      meters[run := Meter(org, flavor.Code(), flavor.Multiplier(), startedAt, None, 0, 0, "")]
  }

  /** FinalizeBillingRunMeter; like every UPDATE it touches no row when there is none. */
  function FinalizeMeter(meters: map<string, Meter>, run: string, endedAt: int, minutes: int, credits: int,
                         terminalState: string): map<string, Meter>
  {
    if run in meters then
      meters[run := meters[run].(endedAt := Some(endedAt), minutes := minutes, captured := credits,
                                 terminalState := terminalState)]
    else meters
  }

  // ---------- Plans ----------

  /** The price in cents of one top-up unit; an unknown plan pays the default plan's price. */
  function TopupUnitCents(planCode: string): (cents: int)
    ensures cents > 0
  {
    match planCode
    case "starter" => 2500
    case "growth" => 2000
    case "business" => 1600
    case _ => 2200
  }
}
