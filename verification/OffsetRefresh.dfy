/**
 Which quotes may derive the broker offset: only one whose tick was seen to advance between
 two reads. Covers the choice among the watched symbols, the refresh of the connection, and
 the read an order makes for itself.
 */
module OffsetRefresh {
  import opened Wrappers
  import opened ServerTime

  /** One read of the candidates, in their order: symbol and tick time in milliseconds. */
  type Quotes = seq<(string, Option<int>)>

  function Lookup(q: Quotes, symbol: string): Option<int> {
    if q == [] then None
    else if q[0].0 == symbol then q[0].1
    else Lookup(q[1..], symbol)
  }

  predicate Present(ms: Option<int>) {
    ms.Some? && ms.value != 0
  }

  /** The quote at position `i` moved forward since `before`. */
  predicate Advanced(before: Quotes, after: Quotes, i: int)
    requires 0 <= i < |after|
  {
    var previous := Lookup(before, after[i].0);
    Present(after[i].1) && Present(previous) && after[i].1.value > previous.value
  }

  predicate NoneAdvanced(before: Quotes, after: Quotes) {
    forall i :: 0 <= i < |after| ==> !Advanced(before, after, i)
  }

  /** `live` is the freshest advanced quote, the first of them if several are equally fresh. */
  predicate FreshestAt(before: Quotes, after: Quotes, live: (string, int), i: int)
    requires 0 <= i < |after|
  {
    && Advanced(before, after, i)
    && live == (after[i].0, after[i].1.value)
    && (forall j :: 0 <= j < |after| && Advanced(before, after, j) ==> after[j].1.value <= live.1)
    && (forall j :: 0 <= j < i && Advanced(before, after, j) ==> after[j].1.value < live.1)
  }

  ghost predicate Freshest(before: Quotes, after: Quotes, live: (string, int)) {
    exists i :: 0 <= i < |after| && FreshestAt(before, after, live, i)
  }

  method LiveTick(before: Quotes, after: Quotes) returns (best: Option<(string, int)>)
    ensures best.None? <==> NoneAdvanced(before, after)
    ensures best.Some? ==> Freshest(before, after, best.value)
  {
    best := None;
    ghost var at := 0;
    for n := 0 to |after|
      invariant best.None? ==> forall j :: 0 <= j < n ==> !Advanced(before, after, j)
      invariant best.Some? ==> 0 <= at < n && Advanced(before, after, at) && best.value == (after[at].0, after[at].1.value)
      invariant best.Some? ==> forall j :: 0 <= j < n && Advanced(before, after, j) ==> after[j].1.value <= best.value.1
      invariant best.Some? ==> forall j :: 0 <= j < at && Advanced(before, after, j) ==> after[j].1.value < best.value.1
    {
      var (symbol, ms) := after[n];
      var previous := Lookup(before, symbol);
      if !Present(ms) || !Present(previous) || ms.value <= previous.value {
        continue;
      }
      if best.None? || ms.value > best.value.1 {
        best := Some((symbol, ms.value));
        at := n;
      }
    }
    if best.Some? {
      assert FreshestAt(before, after, best.value, at);
    }
  }

  /** The freshest advanced quote is one and the same for everybody. */
  lemma FreshestIsUnique(before: Quotes, after: Quotes, a: (string, int), b: (string, int))
    requires Freshest(before, after, a) && Freshest(before, after, b)
    ensures a == b
  {
    var i :| 0 <= i < |after| && FreshestAt(before, after, a, i);
    var j :| 0 <= j < |after| && FreshestAt(before, after, b, j);
    assert Advanced(before, after, i) && Advanced(before, after, j);
  }

  function TickOf(live: (string, int), now: real): Tick {
    Tick(live.0, Some(live.1 as real / 1000.0), now)
  }

  /** A quote in milliseconds is read as seconds, under its symbol and the instant of the reading. */
  lemma QuoteIsRead(symbol: string, ms: int, now: real, r: Reading)
    requires ms != 0
    ensures ReadingOf(TickOf((symbol, ms), now)) == Some(r)
       <==> r.symbol == symbol && r.at == now && r.seconds % 3600 == 0 && -43200 <= r.seconds <= 50400
            && -90000.0 <= ms as real - 1000.0 * (now + r.seconds as real) <= 90000.0
  {
    ReadingIsImplied(TickOf((symbol, ms), now), r);
  }

  /** No symbol is listed twice. */
  predicate OncePerSymbol(q: Quotes) {
    forall i, j :: 0 <= i < j < |q| ==> q[i].0 != q[j].0
  }

  lemma {:induction false} LookupFinds(q: Quotes, j: nat)
    requires OncePerSymbol(q) && j < |q|
    ensures Lookup(q, q[j].0) == q[j].1
  {
    if j > 0 {
      assert q[1..][j - 1] == q[j];
      LookupFinds(q[1..], j - 1);
    }
  }

  lemma {:induction false} LookupMisses(q: Quotes, symbol: string)
    requires forall j :: 0 <= j < |q| ==> q[j].0 != symbol
    ensures Lookup(q, symbol).None?
  {
    if q != [] {
      LookupMisses(q[1..], symbol);
    }
  }

  /** A quote has advanced exactly if the symbol had one before, both times are set, and the later is greater. */
  lemma {:induction false} AdvancedExactly(before: Quotes, after: Quotes, i: int)
    requires OncePerSymbol(before) && 0 <= i < |after|
    ensures Advanced(before, after, i)
       <==> exists j, m, n :: && 0 <= j < |before| && before[j] == (after[i].0, Some(m)) && after[i].1 == Some(n)
                              && m != 0 && n != 0 && m < n
  {
    if j :| 0 <= j < |before| && before[j].0 == after[i].0 {
      LookupFinds(before, j);
      forall k | 0 <= k < |before| && before[k].0 == after[i].0 ensures k == j {
      }
      if Advanced(before, after, i) {
        assert before[j] == (after[i].0, Some(before[j].1.value)) && after[i].1 == Some(after[i].1.value);
      }
    } else {
      LookupMisses(before, after[i].0);
    }
  }

  /** How the candidates' quotes go over the reads of one refresh; None when a read raises. */
  type Reads = nat -> Option<Quotes>

  /** The read before `i`; before the first there is nothing. */
  function Previous(polls: Reads, i: nat): Quotes {
    if i == 0 || polls(i - 1).None? then [] else polls(i - 1).value
  }

  /** Read `i` shows `live` advanced and its quote derives `r`. */
  ghost predicate DerivesAt(polls: Reads, nows: nat -> real, i: nat, live: (string, int), r: Reading) {
    && polls(i).Some?
    && Freshest(Previous(polls, i), polls(i).value, live)
    && ReadingOf(TickOf(live, nows(i))) == Some(r)
  }

  /** Read `i` is the first to derive a reading, and no read up to it raised. */
  ghost predicate DerivesFirst(polls: Reads, nows: nat -> real, i: nat, live: (string, int), r: Reading) {
    && DerivesAt(polls, nows, i, live, r)
    && forall j: nat :: j < i ==> polls(j).Some? && DerivesNothing(polls, nows, j)
  }

  ghost predicate DerivesNothing(polls: Reads, nows: nat -> real, i: nat) {
    forall live, r :: !DerivesAt(polls, nows, i, live, r)
  }

  /** One refresh: at most one clean reading, from a quote that advanced, enters the cache. */
  ghost predicate RefreshStep(d: Debounce, d': Debounce, needed: nat, polls: Reads, nows: nat -> real, attempts: int) {
    || d' == d
    || exists i: nat, live, r :: i < attempts && DerivesFirst(polls, nows, i, live, r) && d' == Take(d, needed, r)
  }

  ghost predicate NothingMoves(polls: Reads, attempts: int) {
    forall i: nat :: i < attempts && polls(i).Some? ==> NoneAdvanced(Previous(polls, i), polls(i).value)
  }

  method RefreshServerOffset(cache: OffsetCache, confirmations: int, attempts: int, polls: Reads, nows: nat -> real)
    returns (derived: Option<int>)
    requires cache.Valid()
    modifies cache
    ensures cache.Valid()
    ensures derived.None? ==>
      && cache.Value() == old(cache.Value())
      && forall i: nat, live, r :: i < attempts ==> !DerivesFirst(polls, nows, i, live, r)
    ensures derived.Some? ==>
      exists i: nat, live, r ::
        && i < attempts && DerivesFirst(polls, nows, i, live, r) && derived.value == r.seconds
        && cache.Value() == Take(old(cache.Value()), if confirmations > 1 then confirmations else 1, r)
    ensures RefreshStep(old(cache.Value()), cache.Value(), Needed(confirmations), polls, nows, attempts)
    ensures NothingMoves(polls, attempts) ==> cache.Value() == old(cache.Value()) && derived.None?
    ensures derived.Some? ==>
      exists i: nat, live ::
        && i < attempts && polls(i).Some? && Freshest(Previous(polls, i), polls(i).value, live)
        && Implies(Tick(live.0, Some(live.1 as real / 1000.0), nows(i)), derived.value)
  {
    derived := None;
    var previous: Quotes := [];
    var n := 0;
    while n < attempts
      invariant 0 <= n
      invariant previous == Previous(polls, n)
      invariant cache.Valid() && cache.Value() == old(cache.Value()) && derived.None?
      invariant forall j: nat :: j < n ==> polls(j).Some? && DerivesNothing(polls, nows, j)
      decreases attempts - n
    {
      if polls(n).None? {
        return;
      }
      var current := polls(n).value;
      var live := LiveTick(previous, current);
      if live.Some? {
        var tick := TickOf(live.value, nows(n));
        derived := cache.DeriveFromTick(confirmations, tick);
        if derived.Some? {
          assert DerivesFirst(polls, nows, n, live.value, ReadingOf(tick).value);
          return;
        }
        OnlyFreshestDerives(polls, nows, n, live.value);
      }
      assert DerivesNothing(polls, nows, n);
      previous := current;
      n := n + 1;
    }
  }

  lemma OnlyFreshestDerives(polls: Reads, nows: nat -> real, i: nat, live: (string, int))
    requires polls(i).Some? && Freshest(Previous(polls, i), polls(i).value, live)
    requires ReadingOf(TickOf(live, nows(i))).None?
    ensures DerivesNothing(polls, nows, i)
  {
    forall other, r ensures !DerivesAt(polls, nows, i, other, r) {
      if DerivesAt(polls, nows, i, other, r) {
        FreshestIsUnique(Previous(polls, i), polls(i).value, live, other);
      }
    }
  }

  /**
   Refreshes alone change a cached offset only when at least `needed` of them ran, counting
   the dissenters already pending.
   */
  lemma RefreshesNeedConfirmation(needed: nat, states: seq<Debounce>, polls: nat -> Reads, nows: nat -> nat -> real, attempts: int)
    requires states != [] && states[0].cached.Some?
    requires forall i: nat :: i < |states| - 1 ==>
               RefreshStep(states[i], states[i + 1], needed, polls(i), nows(i), attempts)
    requires states[|states| - 1].cached.None?
          || states[|states| - 1].cached.value.seconds != states[0].cached.value.seconds
    ensures states[0].count + (|states| - 1) >= needed
  {
    if states[0].count + (|states| - 1) < needed {
      var n := |states| - 1;
      forall i | 0 <= i < n
        ensures AtMostOneReading(states[i], states[i + 1], needed)
      {
        assert RefreshStep(states[i], states[i + 1], needed, polls(i), nows(i), attempts);
      }
      FewReadingsKeepCache(needed, states, n);
      assert false;
    }
  }
}
