/**
  The automatic top-up loop and the admission that calls it (topup.go, service.go), and what
  a run of the loop on its own guarantees.
 */
module Topup {
  import opened Text
  import opened Billing
  import opened Transactions

  /** The payment provider: an idempotency key gives one invoice id, or a payment failure. */
  type Purchaser = string -> Option<string>

  /** The months that one round reads off the clock: when it prepares, and when it completes. */
  datatype Tick = Tick(prepare: string, complete: string)

  /** A clock that reads the same throughout. */
  function Same(tick: Tick, rounds: nat): seq<Tick>
  {
    seq(rounds, i => tick)
  }

  function OneMonth(month: string, rounds: nat): seq<Tick>
  {
    Same(Tick(month, month), rounds)
  }

  datatype TopupRun = TopupRun(tables: Tables, result: Result<Account>, purchases: nat)

  /** How one round ends: with the loop's answer, or with a purchase that left the balance short. */
  datatype Round =
    | Stop(run: TopupRun)
    | Again(tables: Tables, goal: int)

  function TopupRound(hash: string -> string, t: Tables, org: string, reserve: int, purchase: Option<Purchaser>,
                      tick: Tick, triggered: bool, target: int): Round
  {
    var p := PrepareTx(hash, t, org, reserve, triggered, target, tick.prepare);
    match p.result
    case Err(e) => Stop(TopupRun(p.tables, Err(e), 0))
    case Ok(NoPurchase(a)) =>
      Stop(TopupRun(p.tables, if a.Balance() < reserve then Err(Insufficient(reserve, a.Balance())) else Ok(a), 0))
    case Ok(Purchase(_, key, goal, cents)) =>
      if purchase == None then Stop(TopupRun(p.tables, Err(TopupNotConfigured), 0))
      else
        match purchase.value(key)
        case None => Stop(TopupRun(p.tables, Err(PaymentFailed), 0))
        case Some(invoice) =>
          var c := CompleteTx(p.tables, org, GrantKey(invoice, key), cents, tick.complete);
          match c.result
          case Err(e) => Stop(TopupRun(c.tables, Err(e), 1))
          case Ok(a) => if a.Balance() >= goal then Stop(TopupRun(c.tables, Ok(a), 1)) else Again(c.tables, goal)
  }

  /** A loop with a round for each tick; once a round bought, the next ones count as triggered. */
  function Rounds(round: (Tick, Tables, bool, int) -> Round, clock: seq<Tick>, t: Tables, triggered: bool, target: int)
    : TopupRun
    decreases |clock|
  {
    if clock == [] then TopupRun(t, Err(RoundsExhausted), 0)
    else
      match round(clock[0], t, triggered, target)
      case Stop(run) => run
      case Again(t', goal) => Counted(Rounds(round, clock[1..], t', true, goal), 1)
  }

  function RoundOf(hash: string -> string, org: string, reserve: int, purchase: Option<Purchaser>)
    : (Tick, Tables, bool, int) -> Round
  {
    (tick, t, triggered, target) => TopupRound(hash, t, org, reserve, purchase, tick, triggered, target)
  }

  /** AutoTopup: rounds of prepare, purchase and complete, as many as the clock has ticks. */
  function AutoTopupRun(hash: string -> string, t: Tables, org: string, reserve: int, purchase: Option<Purchaser>,
                        clock: seq<Tick>, triggered: bool, target: int): TopupRun
  {
    Rounds(RoundOf(hash, org, reserve, purchase), clock, t, triggered, target)
  }

  /** Counting the purchases of earlier rounds on top of those of the rest. */
  function Counted(run: TopupRun, purchases: nat): TopupRun
  {
    run.(purchases := purchases + run.purchases)
  }

  lemma TopupEnds(hash: string -> string, t: Tables, org: string, reserve: int, purchase: Option<Purchaser>,
                  clock: seq<Tick>, triggered: bool, target: int)
    ensures var whole := AutoTopupRun(hash, t, org, reserve, purchase, clock, triggered, target);
            if clock == [] then whole == TopupRun(t, Err(RoundsExhausted), 0)
            else
              var end := TopupRound(hash, t, org, reserve, purchase, clock[0], triggered, target);
              end.Stop? ==> whole == end.run
  {
  }

  lemma TopupGoesOn(hash: string -> string, t: Tables, org: string, reserve: int, purchase: Option<Purchaser>,
                    clock: seq<Tick>, triggered: bool, target: int, t': Tables, goal: int, purchases: nat)
    requires clock != []
    requires TopupRound(hash, t, org, reserve, purchase, clock[0], triggered, target) == Again(t', goal)
    ensures Counted(AutoTopupRun(hash, t, org, reserve, purchase, clock, triggered, target), purchases)
         == Counted(AutoTopupRun(hash, t', org, reserve, purchase, clock[1..], true, goal), purchases + 1)
  {
    hide TopupRound;
    var round := RoundOf(hash, org, reserve, purchase);
    assert round(clock[0], t, triggered, target) == Again(t', goal);
  }

  datatype Admission = Admission(account: Account, flavor: Flavor, reserved: int, comped: bool, available: int)

  function ReserveCredits(a: Account, flavor: Flavor): (credits: nat)
    ensures credits >= 1 && credits >= a.perRunMax && credits >= flavor.Multiplier()
  {
    Max(Max(a.perRunMax, flavor.Multiplier()), 1)
  }

  /** The store call that ends an admission, and the admission it is reported as. */
  function AdmitAs(t: Tables, org: string, run: string, reserve: nat, flavor: Flavor, startedAt: int,
                   comped: Option<Account>)
    : Tx<Admission>
  {
    var x := AdmitTx(t, org, run, reserve, flavor, startedAt);
    match x.result
    case Err(e) => Tx(x.tables, Err(e))
    case Ok((res, a)) =>
      Tx(x.tables, Ok(if comped.Some? then Admission(comped.value, flavor, 0, true, comped.value.Balance())
                      else Admission(a, flavor, res.reserved, false, a.Balance())))
  }

  /** The balance check of an admission, with the top-up it may call. */
  function Fund(hash: string -> string, t: Tables, org: string, reserve: int, purchase: Option<Purchaser>,
                clock: seq<Tick>): TopupRun
    requires org in t.accounts
  {
    if t.accounts[org].Balance() >= reserve then TopupRun(t, Ok(t.accounts[org]), 0)
    else AutoTopupRun(hash, t, org, reserve, purchase, clock, false, 0)
  }

  /** Service.AdmitRun when nothing else runs between its store calls. */
  function ServiceAdmit(hash: string -> string, t: Tables, org: string, run: string, flavor: Flavor, startedAt: int,
                        purchase: Option<Purchaser>, clock: seq<Tick>): Tx<Admission>
  {
    if run == "" || org == "" then Tx(t, Err(MissingIds))
    else
      var t1 := t.(accounts := EnsureAccount(t.accounts, org));
      var account := t1.accounts[org];
      if account.exempt then AdmitAs(t1, org, run, 0, flavor, startedAt, Some(account))
      else if !FlavorAllowed(flavor, account.maxFlavor) then Tx(t1, Err(FlavorNotAllowed))
      else
        var reserve := ReserveCredits(account, flavor);
        var funded := Fund(hash, t1, org, reserve, purchase, clock);
        match funded.result
        case Err(e) => Tx(funded.tables, Err(e))
        case Ok(_) => AdmitAs(funded.tables, org, run, reserve, flavor, startedAt, None)
  }
}
