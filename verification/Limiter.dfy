/**
  The fixed-window limiter of the local sign-in forms (local_security.go). Times are
  nanoseconds, passed in by the caller; the key is the path and the client address.
 */
module Limiter {
  import opened Text

  const LIMIT: nat := 20
  const WINDOW: int := 60_000_000_000
  const MAX_ENTRIES: nat := 4096

  /** `resetAt` is None for the zero time of an entry that is not in the map. */
  datatype RateEntry = RateEntry(resetAt: Option<int>, count: nat, lastSeen: int)

  type Rates = map<string, RateEntry>

  datatype Attempt = Attempt(key: string, now: int)

  predicate Expired(e: RateEntry, now: int)
  {
    e.resetAt.None? || now >= e.resetAt.value
  }

  function Lookup(rates: Rates, key: string): RateEntry
  {
    if key in rates then rates[key] else RateEntry(None, 0, 0)
  }

  /** The entry after one more attempt: in the window it is in, or in a new one. */
  function Hit(e: RateEntry, now: int): RateEntry
  {
    if Expired(e, now) then RateEntry(Some(now + WINDOW), 1, now) else RateEntry(e.resetAt, e.count + 1, now)
  }

  function Live(rates: Rates, now: int): Rates
  {
    map key | key in rates && !Expired(rates[key], now) :: rates[key]
  }

  /** When to prune, given the number of entries. */
  type Policy = nat -> bool

  function LimiterPolicy(): Policy { (n: nat) => n > MAX_ENTRIES }

  function Pruned(policy: Policy, rates: Rates, now: int): Rates
  {
    if policy(|rates|) then Live(rates, now) else rates
  }

  function Admits(policy: Policy, rates: Rates, a: Attempt): bool
  {
    Hit(Lookup(Pruned(policy, rates, a.now), a.key), a.now).count <= LIMIT
  }

  function After(policy: Policy, rates: Rates, a: Attempt): Rates
  {
    var pruned := Pruned(policy, rates, a.now);
    pruned[a.key := Hit(Lookup(pruned, a.key), a.now)]
  }

  function Decisions(policy: Policy, rates: Rates, attempts: seq<Attempt>): (r: seq<bool>)
    ensures |r| == |attempts|
    decreases |attempts|
  {
    if attempts == [] then []
    else [Admits(policy, rates, attempts[0])] + Decisions(policy, After(policy, rates, attempts[0]), attempts[1..])
  }

  class LocalAuthLimiter {
    var localRate: Rates

    constructor ()
      ensures localRate == map[]
    {
      localRate := map[];
    }

    method Prune(now: int)
      modifies this
      ensures localRate == Live(old(localRate), now)
    {
      var keys := localRate.Keys;
      while keys != {}
        invariant keys <= localRate.Keys
        invariant forall key :: key in localRate ==> key in old(localRate) && localRate[key] == old(localRate)[key]
        invariant forall key :: key in old(localRate) && key !in keys ==>
          (key in localRate <==> !Expired(old(localRate)[key], now))
        invariant forall key :: key in keys ==> key in localRate
        decreases |keys|
      {
        var key :| key in keys;
        keys := keys - {key};
        if Expired(localRate[key], now) {
          localRate := localRate - {key};
        }
      }
    }

    method Allow(a: Attempt) returns (ok: bool)
      modifies this
      ensures ok == Admits(LimiterPolicy(), old(localRate), a)
      ensures localRate == After(LimiterPolicy(), old(localRate), a)
    {
      if |localRate| > MAX_ENTRIES {
        Prune(a.now);
      }
      var entry := if a.key in localRate then localRate[a.key] else RateEntry(None, 0, 0);
      if entry.resetAt.None? || a.now >= entry.resetAt.value {
        entry := RateEntry(Some(a.now + WINDOW), 0, 0);
      }
      entry := entry.(count := entry.count + 1);
      entry := entry.(lastSeen := a.now);
      localRate := localRate[a.key := entry];
      ok := entry.count <= LIMIT;
    }
  }

  /** The clock does not run backwards: the attempts come in order, none before `t`. */
  predicate InOrder(attempts: seq<Attempt>, t: int)
  {
    attempts == [] || (t <= attempts[0].now && InOrder(attempts[1..], attempts[0].now))
  }

  // ---------- Pruning changes no decision ----------

  /** What a decision at or after `now` can depend on. */
  function Seen(rates: Rates, key: string, now: int): Option<RateEntry>
  {
    if key in rates && !Expired(rates[key], now) then Some(rates[key]) else None
  }

  ghost predicate Alike(a: Rates, b: Rates, now: int)
  {
    forall key :: Seen(a, key, now) == Seen(b, key, now)
  }

  lemma SeenLater(a: Rates, b: Rates, now: int, later: int)
    requires Alike(a, b, now) && now <= later
    ensures Alike(a, b, later)
  {
    forall key
      ensures Seen(a, key, later) == Seen(b, key, later)
    {
      assert Seen(a, key, now) == Seen(b, key, now);
    }
  }

  lemma PruneKeepsSeen(policy: Policy, rates: Rates, now: int)
    ensures Alike(Pruned(policy, rates, now), rates, now)
  {
  }

  lemma StepAlike(p: Policy, q: Policy, a: Rates, b: Rates, x: Attempt)
    requires Alike(a, b, x.now)
    ensures Admits(p, a, x) == Admits(q, b, x)
    ensures Alike(After(p, a, x), After(q, b, x), x.now)
  {
    var a', b' := Pruned(p, a, x.now), Pruned(q, b, x.now);
    PruneKeepsSeen(p, a, x.now);
    PruneKeepsSeen(q, b, x.now);
    assert Seen(a', x.key, x.now) == Seen(a, x.key, x.now) == Seen(b, x.key, x.now) == Seen(b', x.key, x.now);
    assert Hit(Lookup(a', x.key), x.now) == Hit(Lookup(b', x.key), x.now);
    forall key
      ensures Seen(After(p, a, x), key, x.now) == Seen(After(q, b, x), key, x.now)
    {
      assert Seen(a', key, x.now) == Seen(a, key, x.now) == Seen(b, key, x.now) == Seen(b', key, x.now);
    }
  }

  /** Whenever and however often expired entries are dropped, the decisions are the same. */
  lemma {:induction false} PruningChangesNothing(p: Policy, q: Policy, a: Rates, b: Rates, now: int,
                                                 attempts: seq<Attempt>)
    requires Alike(a, b, now) && InOrder(attempts, now)
    ensures Decisions(p, a, attempts) == Decisions(q, b, attempts)
    decreases |attempts|
  {
    if attempts != [] {
      var x := attempts[0];
      SeenLater(a, b, now, x.now);
      StepAlike(p, q, a, b, x);
      PruningChangesNothing(p, q, After(p, a, x), After(q, b, x), x.now, attempts[1..]);
    }
  }

  // ---------- What is decided ----------

  function Only(attempts: seq<Attempt>, key: string): seq<Attempt>
    decreases |attempts|
  {
    if attempts == [] then []
    else (if attempts[0].key == key then [attempts[0]] else []) + Only(attempts[1..], key)
  }

  /** The decisions on one key's attempts. */
  function OnlyOf(attempts: seq<Attempt>, decisions: seq<bool>, key: string): seq<bool>
    requires |attempts| == |decisions|
    decreases |attempts|
  {
    if attempts == [] then []
    else (if attempts[0].key == key then [decisions[0]] else []) + OnlyOf(attempts[1..], decisions[1..], key)
  }

  /** How many attempts come before a window ends. */
  function Span(attempts: seq<Attempt>, end: int): (n: nat)
    ensures n <= |attempts|
    decreases |attempts|
  {
    if attempts == [] || attempts[0].now >= end then 0 else 1 + Span(attempts[1..], end)
  }

  /** The first `n` attempts, of which the first few are admitted. */
  function FirstFew(n: nat, few: int): (r: seq<bool>)
    ensures |r| == n
  {
    seq(n, i => i < few)
  }

  /**
    The attempts of one key by windows: the first opens a window, the limit's worth in it are
    admitted, the rest of it is not, and the first attempt at its end or later opens the next.
   */
  function ByWindow(attempts: seq<Attempt>): seq<bool>
    decreases |attempts|
  {
    if attempts == [] then []
    else
      var n := Span(attempts, attempts[0].now + 60_000_000_000);
      FirstFew(n, 20) + ByWindow(attempts[n..])
  }

  predicate AllOf(attempts: seq<Attempt>, key: string)
  {
    forall a :: a in attempts ==> a.key == key
  }

  lemma OneHit(rates: Rates, key: string, now: int)
    requires !Expired(Lookup(rates, key), now)
    ensures var e, e' := Lookup(rates, key), Lookup(After(NEVER, rates, Attempt(key, now)), key);
            && e' == RateEntry(e.resetAt, e.count + 1, now)
            && (Admits(NEVER, rates, Attempt(key, now)) <==> e.count < LIMIT)
  {
  }

  lemma Opens(rates: Rates, key: string, now: int)
    requires Expired(Lookup(rates, key), now)
    ensures Lookup(After(NEVER, rates, Attempt(key, now)), key) == RateEntry(Some(now + WINDOW), 1, now)
    ensures Admits(NEVER, rates, Attempt(key, now))
  {
  }

  lemma DecisionsHead(rates: Rates, attempts: seq<Attempt>)
    requires attempts != []
    ensures Decisions(NEVER, rates, attempts)
         == [Admits(NEVER, rates, attempts[0])] + Decisions(NEVER, After(NEVER, rates, attempts[0]), attempts[1..])
  {
  }

  lemma FirstFewCons(n: nat, few: int)
    ensures FirstFew(n + 1, few) == [0 < few] + FirstFew(n, few - 1)
  {
  }

  /** The attempts before a window ends are decided by how many there were; they leave its end where it is. */
  lemma {:induction false} InWindow(rates: Rates, attempts: seq<Attempt>, key: string, end: int) returns (rates': Rates)
    requires AllOf(attempts, key) && Lookup(rates, key).resetAt == Some(end)
    ensures var n := Span(attempts, end);
            && Lookup(rates', key).resetAt == Some(end)
            && Decisions(NEVER, rates, attempts)
                 == FirstFew(n, LIMIT - Lookup(rates, key).count) + Decisions(NEVER, rates', attempts[n..])
    decreases |attempts|
  {
    hide Decisions, After, Admits, Lookup, FirstFew;
    rates' := rates;
    if attempts != [] && attempts[0].now < end {
      assert attempts[0] in attempts;
      var rates1, few := After(NEVER, rates, attempts[0]), LIMIT - Lookup(rates, key).count;
      var n := Span(attempts[1..], end);
      OneHit(rates, key, attempts[0].now);
      DecisionsHead(rates, attempts);
      rates' := InWindow(rates1, attempts[1..], key, end);
      FirstFewCons(n, few);
      assert attempts[1..][n..] == attempts[n + 1..];
      Regroup([0 < few], FirstFew(n, few - 1), Decisions(NEVER, rates', attempts[n + 1..]));
    } else {
      assert attempts[0..] == attempts && FirstFew(0, LIMIT - Lookup(rates, key).count) == [];
      assert [] + Decisions(NEVER, rates, attempts) == Decisions(NEVER, rates, attempts);
    }
  }

  lemma Regroup<T>(a: seq<T>, b: seq<T>, c: seq<T>)
    ensures a + (b + c) == a + b + c
  {
  }

  lemma SpanStops(attempts: seq<Attempt>, end: int)
    ensures var n := Span(attempts, end); n < |attempts| ==> attempts[n].now >= end
    decreases |attempts|
  {
  }

  lemma ByWindowHead(attempts: seq<Attempt>)
    requires attempts != []
    ensures var rest := attempts[1..];
            var n := Span(rest, attempts[0].now + WINDOW);
            ByWindow(attempts) == [true] + FirstFew(n, LIMIT - 1) + ByWindow(rest[n..])
  {
    hide FirstFew;
    var n := Span(attempts[1..], attempts[0].now + WINDOW);
    FirstFewCons(n, LIMIT);
    assert attempts[1..][n..] == attempts[n + 1..];
  }

  lemma NothingDecided(rates: Rates)
    ensures Decisions(NEVER, rates, []) == ByWindow([])
  {
  }

  lemma {:induction false} OneKey(rates: Rates, attempts: seq<Attempt>, key: string)
    requires AllOf(attempts, key) && (attempts != [] ==> Expired(Lookup(rates, key), attempts[0].now))
    ensures Decisions(NEVER, rates, attempts) == ByWindow(attempts)
    decreases |attempts|
  {
    hide Decisions, After, Admits, Lookup, FirstFew, ByWindow, Span;
    if attempts == [] {
      NothingDecided(rates);
    } else {
      assert attempts[0] in attempts;
      var rates1, rest, end := After(NEVER, rates, attempts[0]), attempts[1..], attempts[0].now + WINDOW;
      var n := Span(rest, end);
      Opens(rates, key, attempts[0].now);
      DecisionsHead(rates, attempts);
      var rates' := InWindow(rates1, rest, key, end);
      SpanStops(rest, end);
      OneKey(rates', rest[n..], key);
      ByWindowHead(attempts);
      Regroup([true], FirstFew(n, LIMIT - 1), ByWindow(rest[n..]));
    }
  }

  /** The attempts of other keys do not matter. */
  lemma {:induction false} OthersDoNotMatter(rates: Rates, own: Rates, attempts: seq<Attempt>, key: string)
    requires Lookup(own, key) == Lookup(rates, key)
    ensures OnlyOf(attempts, Decisions(NEVER, rates, attempts), key) == Decisions(NEVER, own, Only(attempts, key))
    decreases |attempts|
  {
    if attempts != [] {
      var a := attempts[0];
      var rates', decisions := After(NEVER, rates, a), Decisions(NEVER, rates, attempts);
      assert decisions[1..] == Decisions(NEVER, rates', attempts[1..]);
      if a.key == key {
        OthersDoNotMatter(rates', After(NEVER, own, a), attempts[1..], key);
        assert ([a] + Only(attempts[1..], key))[1..] == Only(attempts[1..], key);
      } else {
        OthersDoNotMatter(rates', own, attempts[1..], key);
        assert [] + Only(attempts[1..], key) == Only(attempts[1..], key);
      }
    }
  }

  lemma {:induction false} OnlyIsOf(attempts: seq<Attempt>, key: string)
    ensures AllOf(Only(attempts, key), key)
    decreases |attempts|
  {
    if attempts != [] {
      OnlyIsOf(attempts[1..], key);
    }
  }

  /**
    With a clock that does not run backwards the decisions on a key are those of its fixed
    windows, whatever other keys do and whatever is pruned.
   */
  lemma WindowsExactly(attempts: seq<Attempt>, key: string, t: int)
    requires InOrder(attempts, t)
    ensures OnlyOf(attempts, Decisions(LimiterPolicy(), map[], attempts), key) == ByWindow(Only(attempts, key))
  {
    PruningChangesNothing(LimiterPolicy(), NEVER, map[], map[], t, attempts);
    OthersDoNotMatter(map[], map[], attempts, key);
    OnlyIsOf(attempts, key);
    OneKey(map[], Only(attempts, key), key);
  }

  // ---------- How many attempts an interval can admit ----------

  predicate Within(a: Attempt, key: string, from: int)
  {
    a.key == key && from <= a.now < from + WINDOW
  }

  /** The admitted attempts for `key` in an interval as long as the window. */
  function Admitted(attempts: seq<Attempt>, decisions: seq<bool>, key: string, from: int): nat
    requires |attempts| == |decisions|
    decreases |attempts|
  {
    if attempts == [] then 0
    else
      var here := if decisions[0] && Within(attempts[0], key, from) then 1 else 0;
      here + Admitted(attempts[1..], decisions[1..], key, from)
  }

  const NEVER: Policy := (n: nat) => false

  /** What the interval can still admit, given the entry its key has. */
  function Budget(e: RateEntry, from: int): nat
  {
    var left := if e.count < LIMIT then LIMIT - e.count else 0;
    if e.resetAt.None? || e.resetAt.value <= from then 2 * LIMIT - 1
    else if e.resetAt.value < from + WINDOW then left + LIMIT
    else left
  }

  lemma {:induction false} NoneAfter(attempts: seq<Attempt>, decisions: seq<bool>, key: string, from: int, t: int)
    requires |attempts| == |decisions| && InOrder(attempts, t) && t >= from + WINDOW
    ensures Admitted(attempts, decisions, key, from) == 0
    decreases |attempts|
  {
    if attempts != [] {
      NoneAfter(attempts[1..], decisions[1..], key, from, attempts[0].now);
    }
  }

  lemma {:induction false} WithinBudget(rates: Rates, attempts: seq<Attempt>, key: string, from: int, t: int)
    requires InOrder(attempts, t)
    ensures Admitted(attempts, Decisions(NEVER, rates, attempts), key, from) <= Budget(Lookup(rates, key), from)
    decreases |attempts|
  {
    if attempts != [] {
      var x := attempts[0];
      var rates' := After(NEVER, rates, x);
      var decisions := Decisions(NEVER, rates, attempts);
      assert decisions[1..] == Decisions(NEVER, rates', attempts[1..]);
      WithinBudget(rates', attempts[1..], key, from, x.now);
      if x.now >= from + WINDOW {
        NoneAfter(attempts[1..], decisions[1..], key, from, x.now);
      }
      assert x.key != key ==> Lookup(rates', key) == Lookup(rates, key);
    }
  }

  /**
    With a clock that does not run backwards, an interval as long as the window never admits
    more than one attempt fewer than twice the limit.
   */
  lemma AtMostTwiceTheLimit(attempts: seq<Attempt>, key: string, from: int, t: int)
    requires InOrder(attempts, t)
    ensures Admitted(attempts, Decisions(LimiterPolicy(), map[], attempts), key, from) <= 2 * LIMIT - 1
  {
    PruningChangesNothing(LimiterPolicy(), NEVER, map[], map[], t, attempts);
    WithinBudget(map[], attempts, key, from, t);
  }

  // ---------- The bound is reached ----------

  function Burst(key: string, now: int, n: nat): seq<Attempt>
  {
    if n == 0 then [] else [Attempt(key, now)] + Burst(key, now, n - 1)
  }

  lemma {:induction false} BurstInOrder(key: string, now: int, n: nat, after: seq<Attempt>)
    requires InOrder(after, now)
    ensures InOrder(Burst(key, now, n) + after, now)
  {
    if n == 0 {
      assert Burst(key, now, n) + after == after;
    } else {
      BurstInOrder(key, now, n - 1, after);
      assert (Burst(key, now, n) + after)[1..] == Burst(key, now, n - 1) + after;
    }
  }

  function AfterBurst(rates: Rates, key: string, now: int, n: nat): Rates
    decreases n
  {
    if n == 0 then rates else AfterBurst(After(NEVER, rates, Attempt(key, now)), key, now, n - 1)
  }

  lemma AdmittedCons(rates: Rates, x: Attempt, rest: seq<Attempt>, key: string, from: int)
    ensures var here := if Admits(NEVER, rates, x) && Within(x, key, from) then 1 else 0;
            Admitted([x] + rest, Decisions(NEVER, rates, [x] + rest), key, from)
              == here + Admitted(rest, Decisions(NEVER, After(NEVER, rates, x), rest), key, from)
  {
    var decisions := Decisions(NEVER, After(NEVER, rates, x), rest);
    assert ([x] + rest)[1..] == rest;
    assert ([Admits(NEVER, rates, x)] + decisions)[1..] == decisions;
  }

  lemma {:induction false} BurstCounted(rates: Rates, key: string, now: int, n: nat)
    requires !Expired(Lookup(rates, key), now)
    ensures var e, e' := Lookup(rates, key), Lookup(AfterBurst(rates, key, now, n), key);
            e'.resetAt == e.resetAt && e'.count == e.count + n
    decreases n
  {
    if n > 0 {
      OneHit(rates, key, now);
      BurstCounted(After(NEVER, rates, Attempt(key, now)), key, now, n - 1);
    }
  }

  lemma BurstCons(key: string, now: int, n: nat, after: seq<Attempt>)
    requires n > 0
    ensures Burst(key, now, n) + after == [Attempt(key, now)] + (Burst(key, now, n - 1) + after)
  {
  }

  /** As long as the limit is not reached, a burst inside one window is admitted whole. */
  lemma {:induction false} BurstAdmitted(rates: Rates, key: string, now: int, n: nat, after: seq<Attempt>, from: int)
    requires !Expired(Lookup(rates, key), now) && Lookup(rates, key).count + n <= LIMIT
    requires from <= now < from + WINDOW
    ensures var attempts := Burst(key, now, n) + after;
            Admitted(attempts, Decisions(NEVER, rates, attempts), key, from)
              == n + Admitted(after, Decisions(NEVER, AfterBurst(rates, key, now, n), after), key, from)
    decreases n
  {
    if n == 0 {
      assert Burst(key, now, n) + after == after;
    } else {
      var x := Attempt(key, now);
      OneHit(rates, key, now);
      BurstAdmitted(After(NEVER, rates, x), key, now, n - 1, after, from);
      AdmittedCons(rates, x, Burst(key, now, n - 1) + after, key, from);
      BurstCons(key, now, n, after);
    }
  }

  /** One attempt, the rest of its window late, and a full window right after it. */
  function Worst(key: string): seq<Attempt>
  {
    [Attempt(key, 0)]
    + (Burst(key, WINDOW - 1, LIMIT - 1) + ([Attempt(key, WINDOW)] + (Burst(key, WINDOW, LIMIT - 1) + [])))
  }

  lemma WorstInOrder(key: string)
    ensures InOrder(Worst(key), 0)
  {
    var last := Burst(key, WINDOW, LIMIT - 1) + [];
    var tail := [Attempt(key, WINDOW)] + last;
    BurstInOrder(key, WINDOW, LIMIT - 1, []);
    assert tail[1..] == last;
    BurstInOrder(key, WINDOW - 1, LIMIT - 1, tail);
    assert Worst(key)[1..] == Burst(key, WINDOW - 1, LIMIT - 1) + tail;
  }

  /** The bound is the best there is. */
  lemma BoundIsReached(key: string)
    ensures InOrder(Worst(key), 0)
    ensures Admitted(Worst(key), Decisions(LimiterPolicy(), map[], Worst(key)), key, 1) == 2 * LIMIT - 1
  {
    WorstInOrder(key);
    PruningChangesNothing(LimiterPolicy(), NEVER, map[], map[], 0, Worst(key));
    var start, opens := Attempt(key, 0), Attempt(key, WINDOW);
    var last := Burst(key, WINDOW, LIMIT - 1) + [];
    var first := After(NEVER, map[], start);
    var full := AfterBurst(first, key, WINDOW - 1, LIMIT - 1);
    var second := After(NEVER, full, opens);
    AdmittedCons(map[], start, Burst(key, WINDOW - 1, LIMIT - 1) + ([opens] + last), key, 1);
    BurstCounted(first, key, WINDOW - 1, LIMIT - 1);
    BurstAdmitted(first, key, WINDOW - 1, LIMIT - 1, [opens] + last, 1);
    AdmittedCons(full, opens, last, key, 1);
    BurstAdmitted(second, key, WINDOW, LIMIT - 1, [], 1);
  }
}
