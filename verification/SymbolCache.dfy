/**
 The bounded cache of selected symbols, shared by concurrent requests.

 `validate_symbol` holds the cache lock twice, for the look-up and for the insertion, and
 talks to the terminal in between; other requests and invalidations may run there.
 */
module SymbolCache {
  function Without(cache: seq<string>, symbol: string): seq<string> {
    if cache == [] then []
    else if cache[0] == symbol then cache[1..]
    else [cache[0]] + Without(cache[1..], symbol)
  }

  /** Make room if full, by dropping the oldest, then append unless still present. */
  function Inserted(cache: seq<string>, capacity: nat, symbol: string): seq<string> {
    var roomy := Roomy(cache, capacity);
    if symbol in roomy then roomy else roomy + [symbol]
  }

  function Roomy(cache: seq<string>, capacity: nat): seq<string> {
    if |cache| >= capacity && cache != [] then cache[1..] else cache
  }

  predicate NoDuplicates(cache: seq<string>) {
    forall i, j :: 0 <= i < j < |cache| ==> cache[i] != cache[j]
  }

  /** The cache, its keys oldest first. */
  class SelectCache {
    const capacity: nat
    var keys: seq<string>

    constructor (capacity: nat)
      ensures this.capacity == capacity && keys == []
    {
      this.capacity := capacity;
      keys := [];
    }

    method Contains(symbol: string) returns (hit: bool)
      ensures hit <==> symbol in keys
    {
      hit := symbol in keys;
    }

    method Insert(symbol: string)
      modifies this
      ensures keys == Inserted(old(keys), capacity, symbol)
      ensures var left := if |old(keys)| >= capacity && old(keys) != [] then old(keys)[1..] else old(keys);
        keys == left + if symbol in left then [] else [symbol]
    {
      if |keys| >= capacity && keys != [] {
        keys := keys[1..];
      }
      if symbol !in keys {
        keys := keys + [symbol];
      }
    }

    method Invalidate(symbol: string)
      modifies this
      ensures keys == Without(old(keys), symbol)
    {
      var n := 0;
      while n < |keys| && keys[n] != symbol
        invariant n <= |keys| && keys == old(keys)
        invariant keys[..n] + Without(keys[n..], symbol) == Without(old(keys), symbol)
        decreases |keys| - n
      {
        assert keys[n..][1..] == keys[n + 1..];
        assert keys[..n] + [keys[n]] == keys[..n + 1];
        n := n + 1;
      }
      if n < |keys| {
        assert keys[n..][1..] == keys[n + 1..];
        keys := keys[..n] + keys[n + 1..];
      } else {
        assert keys[n..] == [] && keys[..n] == keys;
      }
    }

    /** `validate_symbol` for a request that is not disturbed. */
    method Validate(symbol: string, selectable: bool) returns (ok: bool)
      modifies this
      ensures ok <==> symbol in old(keys) || selectable
      ensures keys == if symbol !in old(keys) && selectable then Inserted(old(keys), capacity, symbol) else old(keys)
    {
      ok := Contains(symbol);
      if ok {
        return;
      }
      if !selectable {
        return false;
      }
      Insert(symbol);
      ok := true;
    }
  }

  // ---------------------------------------------------------------------------------------
  // Interleaved
  // ---------------------------------------------------------------------------------------

  datatype Action =
    | Look(thread: nat, symbol: string)
    | Select(thread: nat, selected: bool)
    | Store(thread: nat)
    | Drop(symbol: string)

  datatype Pc = Idle | Missed(symbol: string) | Selected(symbol: string)

  /** The trace of what happened, as far as a symbol's standing depends on it; a store may find the symbol present. */
  datatype Event = DidSelect(symbol: string) | DidStore(symbol: string, added: bool) | DidDrop(symbol: string) | DidHit(symbol: string)

  datatype State = State(cache: seq<string>, pcs: map<nat, Pc>, trace: seq<Event>)

  const Initial := State([], map[], [])

  function PcOf(s: State, t: nat): Pc {
    if t in s.pcs then s.pcs[t] else Idle
  }

  function Log(s: State, e: Event): State {
    s.(trace := s.trace + [e])
  }

  function Apply(capacity: nat, s: State, a: Action): State {
    match a
    case Look(t, symbol) =>
      if !PcOf(s, t).Idle? then s
      else if symbol in s.cache then Log(s, DidHit(symbol))
      else s.(pcs := s.pcs[t := Missed(symbol)])
    case Select(t, selected) =>
      if !PcOf(s, t).Missed? then s
      else if selected then Log(s, DidSelect(PcOf(s, t).symbol)).(pcs := s.pcs[t := Selected(PcOf(s, t).symbol)])
      else s.(pcs := s.pcs[t := Idle])
    case Store(t) =>
      if !PcOf(s, t).Selected? then s
      else
        var symbol := PcOf(s, t).symbol;
        Log(s, DidStore(symbol, symbol !in Roomy(s.cache, capacity))).(pcs := s.pcs[t := Idle], cache := Inserted(s.cache, capacity, symbol))
    case Drop(symbol) => Log(s, DidDrop(symbol)).(cache := Without(s.cache, symbol))
  }

  function After(capacity: nat, run: seq<Action>): State {
    if run == [] then Initial else Apply(capacity, After(capacity, run[..|run| - 1]), run[|run| - 1])
  }

  /** The terminal selected `symbol`, the result was stored, and no later drop undid it. */
  ghost predicate Vouched(trace: seq<Event>, symbol: string) {
    exists i, j ::
      && 0 <= i < j < |trace| && trace[i] == DidSelect(symbol) && StoreOf(trace[j], symbol)
      && forall k :: j < k < |trace| ==> trace[k] != DidDrop(symbol)
  }

  predicate StoreOf(e: Event, symbol: string) {
    e.DidStore? && e.symbol == symbol
  }

  ghost predicate WasSelected(trace: seq<Event>, symbol: string) {
    DidSelect(symbol) in trace
  }

  ghost predicate Inv(capacity: nat, s: State) {
    && |s.cache| <= capacity
    && NoDuplicates(s.cache)
    && (forall x :: x in s.cache ==> Vouched(s.trace, x))
    && (forall t: nat :: PcOf(s, t).Selected? ==> WasSelected(s.trace, PcOf(s, t).symbol))
    && (forall n :: 0 <= n < |s.trace| && s.trace[n].DidHit? ==> Vouched(s.trace[..n], s.trace[n].symbol))
  }

  lemma {:induction false} WithoutKeepsOrder(cache: seq<string>, symbol: string)
    requires NoDuplicates(cache)
    ensures NoDuplicates(Without(cache, symbol)) && |Without(cache, symbol)| <= |cache|
    ensures forall x :: x in Without(cache, symbol) <==> x in cache && x != symbol
  {
    if cache != [] {
      WithoutKeepsOrder(cache[1..], symbol);
      assert forall x :: x in cache <==> x == cache[0] || x in cache[1..];
      if cache[0] != symbol {
        var rest := Without(cache[1..], symbol);
        assert cache[0] !in cache[1..];
        assert cache[0] !in rest;
      }
    }
  }

  lemma InsertedKeepsOrder(cache: seq<string>, capacity: nat, symbol: string)
    requires NoDuplicates(cache) && |cache| <= capacity && capacity >= 1
    ensures var c := Inserted(cache, capacity, symbol);
      && NoDuplicates(c) && |c| <= capacity && symbol in c
      && (forall x :: x in c ==> x in cache || x == symbol)
  {
  }

  lemma VouchedStays(trace: seq<Event>, e: Event, symbol: string)
    requires Vouched(trace, symbol) && e != DidDrop(symbol)
    ensures Vouched(trace + [e], symbol)
  {
    var trace' := trace + [e];
    var i, j :| 0 <= i < j < |trace| && trace[i] == DidSelect(symbol) && StoreOf(trace[j], symbol)
      && forall k :: j < k < |trace| ==> trace[k] != DidDrop(symbol);
    assert trace'[i] == DidSelect(symbol) && StoreOf(trace'[j], symbol);
  }

  lemma StoreVouches(trace: seq<Event>, symbol: string, added: bool)
    requires WasSelected(trace, symbol)
    ensures Vouched(trace + [DidStore(symbol, added)], symbol)
  {
    var i :| 0 <= i < |trace| && trace[i] == DidSelect(symbol);
    var trace' := trace + [DidStore(symbol, added)];
    assert trace'[i] == DidSelect(symbol) && StoreOf(trace'[|trace|], symbol);
  }

  /** What one more event keeps, when it drops nothing that stays cached. */
  lemma LogKeeps(capacity: nat, s: State, e: Event, symbol: string)
    requires Inv(capacity, s)
    requires e.DidHit? ==> e.symbol in s.cache
    ensures symbol in s.cache && e != DidDrop(symbol) ==> Vouched(s.trace + [e], symbol)
    ensures WasSelected(s.trace, symbol) ==> WasSelected(s.trace + [e], symbol)
    ensures var trace := s.trace + [e];
      forall n :: 0 <= n < |trace| && trace[n].DidHit? ==> Vouched(trace[..n], trace[n].symbol)
  {
    if symbol in s.cache && e != DidDrop(symbol) {
      VouchedStays(s.trace, e, symbol);
    }
    var trace := s.trace + [e];
    forall n | 0 <= n < |trace| && trace[n].DidHit? ensures Vouched(trace[..n], trace[n].symbol) {
      assert trace[..n] == s.trace[..n];
      assert n == |s.trace| ==> trace[..n] == s.trace;
    }
  }

  lemma InvLogged(capacity: nat, s: State, a: Action)
    requires capacity >= 1 && Inv(capacity, s) && |Apply(capacity, s, a).trace| > |s.trace|
    ensures Inv(capacity, Apply(capacity, s, a))
  {
    var s' := Apply(capacity, s, a);
    var e := s'.trace[|s.trace|];
    assert s'.trace == s.trace + [e];
    if a.Drop? {
      WithoutKeepsOrder(s.cache, a.symbol);
    } else if a.Store? {
      InsertedKeepsOrder(s.cache, capacity, e.symbol);
      StoreVouches(s.trace, e.symbol, e.added);
    }
    forall x | x in s'.cache ensures Vouched(s'.trace, x) {
      LogKeeps(capacity, s, e, x);
    }
    forall t: nat | PcOf(s', t).Selected? ensures WasSelected(s'.trace, PcOf(s', t).symbol) {
      if e.DidSelect? && PcOf(s', t) != PcOf(s, t) {
        assert s'.trace[|s.trace|] == e;
      } else {
        assert PcOf(s, t) == PcOf(s', t);
        LogKeeps(capacity, s, e, PcOf(s', t).symbol);
      }
    }
    LogKeeps(capacity, s, e, e.symbol);
  }

  lemma InvSilent(capacity: nat, s: State, a: Action)
    requires Inv(capacity, s) && |Apply(capacity, s, a).trace| <= |s.trace|
    ensures Inv(capacity, Apply(capacity, s, a))
  {
    var s' := Apply(capacity, s, a);
    assert s'.trace == s.trace && s'.cache == s.cache;
    forall t: nat | PcOf(s', t).Selected? ensures WasSelected(s'.trace, PcOf(s', t).symbol) {
      assert PcOf(s, t) == PcOf(s', t);
    }
  }

  lemma {:induction false} InvHolds(capacity: nat, run: seq<Action>)
    requires capacity >= 1
    ensures Inv(capacity, After(capacity, run))
  {
    if run != [] {
      var s := After(capacity, run[..|run| - 1]);
      InvHolds(capacity, run[..|run| - 1]);
      if |Apply(capacity, s, run[|run| - 1]).trace| > |s.trace| {
        InvLogged(capacity, s, run[|run| - 1]);
      } else {
        InvSilent(capacity, s, run[|run| - 1]);
      }
    }
  }

  /** The cache never outgrows its capacity and never lists a symbol twice. */
  lemma CacheStaysBounded(capacity: nat, run: seq<Action>)
    requires capacity >= 1
    ensures |After(capacity, run).cache| <= capacity && NoDuplicates(After(capacity, run).cache)
  {
    InvHolds(capacity, run);
  }

  // ---------------------------------------------------------------------------------------
  // Insertion order
  // ---------------------------------------------------------------------------------------

  /** Event `n` put `symbol` into the cache; since then it was neither put there again nor invalidated. */
  ghost predicate LastAdded(trace: seq<Event>, symbol: string, n: int) {
    && 0 <= n < |trace| && trace[n] == DidStore(symbol, true)
    && (forall k :: n < k < |trace| ==> trace[k] != DidStore(symbol, true) && trace[k] != DidDrop(symbol))
  }

  /** `times` are the insertions of the cached keys, oldest first. */
  ghost predicate InOrder(s: State, times: seq<int>) {
    && |times| == |s.cache|
    && Increasing(times)
    && (forall i :: 0 <= i < |times| ==> LastAdded(s.trace, s.cache[i], times[i]))
  }

  predicate Increasing(times: seq<int>) {
    forall i, j :: 0 <= i < j < |times| ==> times[i] < times[j]
  }

  lemma LaterEvent(trace: seq<Event>, e: Event, symbol: string, n: int)
    requires LastAdded(trace, symbol, n) && e != DidStore(symbol, true) && e != DidDrop(symbol)
    ensures LastAdded(trace + [e], symbol, n)
  {
  }

  /** Position `i` after the element at `n` was cut out. */
  function Shifted(i: int, n: int): int {
    if i < n then i else i + 1
  }

  lemma {:induction false} WithoutCuts(cache: seq<string>, symbol: string) returns (n: nat)
    requires symbol in cache
    ensures n < |cache| && |Without(cache, symbol)| == |cache| - 1
    ensures forall i :: 0 <= i < |cache| - 1 ==> Without(cache, symbol)[i] == cache[Shifted(i, n)]
  {
    n := 0;
    if cache[0] != symbol {
      n := WithoutCuts(cache[1..], symbol);
      forall i | 1 <= i < |cache| - 1 ensures Without(cache, symbol)[i] == cache[Shifted(i, n + 1)] {
        assert Without(cache, symbol)[i] == cache[1..][Shifted(i - 1, n)];
      }
      n := n + 1;
    }
  }

  lemma DropKeepsOrder(s: State, symbol: string, times: seq<int>) returns (times': seq<int>)
    requires NoDuplicates(s.cache) && InOrder(s, times)
    ensures InOrder(Apply(1, s, Drop(symbol)), times')
  {
    var s' := Apply(1, s, Drop(symbol));
    WithoutKeepsOrder(s.cache, symbol);
    var n := |times|;
    times' := times;
    if symbol in s.cache {
      n := WithoutCuts(s.cache, symbol);
      times' := seq(|times| - 1, i requires 0 <= i < |times| - 1 => times[Shifted(i, n)]);
    } else {
      WithoutNothing(s.cache, symbol);
    }
    forall i | 0 <= i < |times'| ensures LastAdded(s'.trace, s'.cache[i], times'[i]) {
      assert s'.cache[i] == s.cache[Shifted(i, n)] && times'[i] == times[Shifted(i, n)];
      assert s'.cache[i] in s'.cache;
      LaterEvent(s.trace, DidDrop(symbol), s'.cache[i], times'[i]);
    }
  }

  lemma {:induction false} WithoutNothing(cache: seq<string>, symbol: string)
    requires symbol !in cache
    ensures Without(cache, symbol) == cache
  {
    if cache != [] {
      WithoutNothing(cache[1..], symbol);
    }
  }

  lemma MadeRoom(capacity: nat, s: State, times: seq<int>) returns (times': seq<int>)
    requires InOrder(s, times)
    ensures InOrder(s.(cache := Roomy(s.cache, capacity)), times')
  {
    times' := times[|s.cache| - |Roomy(s.cache, capacity)|..];
  }

  lemma StoreKeepsOrder(capacity: nat, s: State, t: nat, times: seq<int>) returns (times': seq<int>)
    requires InOrder(s, times) && PcOf(s, t).Selected?
    ensures InOrder(Apply(capacity, s, Store(t)), times')
  {
    var s' := Apply(capacity, s, Store(t));
    times' := MadeRoom(capacity, s, times);
    var roomy := Roomy(s.cache, capacity);
    var e := DidStore(PcOf(s, t).symbol, PcOf(s, t).symbol !in roomy);
    assert s'.trace == s.trace + [e];
    forall i | 0 <= i < |roomy| ensures LastAdded(s'.trace, s'.cache[i], times'[i]) {
      assert s'.cache[i] == roomy[i] && roomy[i] in roomy;
      LaterEvent(s.trace, e, roomy[i], times'[i]);
    }
    if e.added {
      times' := times' + [|s.trace|];
    }
  }

  lemma StepKeepsOrder(capacity: nat, s: State, a: Action, times: seq<int>) returns (times': seq<int>)
    requires NoDuplicates(s.cache) && InOrder(s, times)
    ensures InOrder(Apply(capacity, s, a), times')
  {
    times' := times;
    if a.Drop? {
      times' := DropKeepsOrder(s, a.symbol, times);
    } else if a.Store? && PcOf(s, a.thread).Selected? {
      times' := StoreKeepsOrder(capacity, s, a.thread, times);
    } else {
      var s' := Apply(capacity, s, a);
      if s'.trace != s.trace {
        var e := s'.trace[|s.trace|];
        forall i | 0 <= i < |times| ensures LastAdded(s'.trace, s'.cache[i], times[i]) {
          LaterEvent(s.trace, e, s.cache[i], times[i]);
        }
      }
    }
  }

  /** In every run the keys stand in the order of their insertions, so the head is the one cached longest. */
  lemma {:induction false} KeysInInsertionOrder(capacity: nat, run: seq<Action>) returns (times: seq<int>)
    requires capacity >= 1
    ensures InOrder(After(capacity, run), times)
  {
    times := [];
    if run != [] {
      times := KeysInInsertionOrder(capacity, run[..|run| - 1]);
      InvHolds(capacity, run[..|run| - 1]);
      times := StepKeepsOrder(capacity, After(capacity, run[..|run| - 1]), run[|run| - 1], times);
    }
  }

  lemma StoreDropsHead(s: State, capacity: nat, t: nat, gone: string)
    requires gone in s.cache && gone !in Apply(capacity, s, Store(t)).cache
    ensures |s.cache| >= capacity && gone == s.cache[0]
  {
    assert s.cache == [s.cache[0]] + s.cache[1..];
  }

  /** Whatever a store evicts was put in before everything else that was cached. */
  lemma {:induction false} EvictsTheOldest(capacity: nat, run: seq<Action>, t: nat, gone: string, other: string, m: int, n: int)
    requires capacity >= 1
    requires var s := After(capacity, run);
      && gone in s.cache && gone !in Apply(capacity, s, Store(t)).cache && other in s.cache && other != gone
      && LastAdded(s.trace, gone, m) && LastAdded(s.trace, other, n)
    ensures m < n && |After(capacity, run).cache| == capacity
  {
    var s := After(capacity, run);
    InvHolds(capacity, run);
    var times := KeysInInsertionOrder(capacity, run);
    var i :| 0 <= i < |s.cache| && s.cache[i] == other;
    var j :| 0 <= j < |s.cache| && s.cache[j] == gone;
    StoreDropsHead(s, capacity, t, gone);
    assert LastAdded(s.trace, other, times[i]) && LastAdded(s.trace, gone, times[j]);
  }

  /** A request no one disturbs costs a select exactly on a miss, and stores it exactly if it succeeds. */
  lemma {:induction false} LoneRequest(capacity: nat, s: State, t: nat, symbol: string, selectable: bool)
    requires PcOf(s, t).Idle?
    ensures var looked := Apply(capacity, s, Look(t, symbol));
      var done := Apply(capacity, Apply(capacity, looked, Select(t, selectable)), Store(t));
      if symbol in s.cache then looked == s.(trace := s.trace + [DidHit(symbol)]) && done == looked
      else if !selectable then done.cache == s.cache && done.trace == s.trace && PcOf(done, t) == Idle
      else && done.cache == Inserted(s.cache, capacity, symbol) && PcOf(done, t) == Idle
           && |done.trace| == |s.trace| + 2 && s.trace <= done.trace
           && done.trace[|s.trace|] == DidSelect(symbol) && StoreOf(done.trace[|s.trace| + 1], symbol)
  {
  }

  /**
   Every hit in the run is vouched for by what came before it: a successful select of the
   symbol, stored afterwards, with no invalidation of it after that store.
   */
  lemma HitsAreVouched(capacity: nat, run: seq<Action>, n: nat)
    requires capacity >= 1
    requires n < |After(capacity, run).trace| && After(capacity, run).trace[n].DidHit?
    ensures var trace := After(capacity, run).trace; Vouched(trace[..n], trace[n].symbol)
  {
    InvHolds(capacity, run);
  }
}
