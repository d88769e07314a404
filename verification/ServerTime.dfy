/**
 The broker clock offset: how a quote implies an offset, and how readings are debounced into
 the cached offset.
 */
module ServerTime {
  import opened Wrappers
  import opened Numbers

  const HOUR := 3600
  const TOLERANCE := 90.0
  const MIN_OFFSET := -12 * HOUR
  const MAX_OFFSET := 14 * HOUR

  // ---------------------------------------------------------------------------------------
  // From one quote to an offset
  // ---------------------------------------------------------------------------------------

  predicate InBand(seconds: int) {
    MIN_OFFSET <= seconds <= MAX_OFFSET
  }

  function DeriveOffset(serverEpoch: real, utcNow: real): Option<int> {
    var delta := serverEpoch - utcNow;
    var rounded := RoundHalfEven(delta / HOUR as real) * HOUR;
    if Abs(delta - rounded as real) > TOLERANCE then None
    else if !InBand(rounded) then None
    else Some(rounded)
  }

  /**
   A quote of a server at `offset`, off by `error` seconds, derives offset + 3600k exactly when
   the error is within the tolerance of 3600k and the result is in the band.
   */
  lemma DerivationBand(utcNow: real, offset: int, error: real, k: int)
    requires offset % HOUR == 0
    ensures DeriveOffset(utcNow + offset as real + error, utcNow) == Some(offset + HOUR * k)
       <==> Abs(error - (HOUR * k) as real) <= TOLERANCE && InBand(offset + HOUR * k)
  {
    var h := offset / HOUR;
    assert offset == HOUR * h;
    var delta := utcNow + offset as real + error - utcNow;
    var x := delta / HOUR as real;
    assert delta == offset as real + error;
    assert (HOUR * k) as real == 3600.0 * k as real;
    assert offset as real == 3600.0 * h as real;
    if Abs(error - (HOUR * k) as real) <= TOLERANCE {
      assert x - (h + k) as real == (error - 3600.0 * k as real) / 3600.0;
      RoundIsNearest(x, h + k);
    }
  }

  /** Beyond those errors nothing is derived. */
  lemma DerivationOnlyInBands(utcNow: real, offset: int, error: real)
    requires offset % HOUR == 0
    ensures DeriveOffset(utcNow + offset as real + error, utcNow).Some?
       ==> exists k :: Abs(error - (HOUR * k) as real) <= TOLERANCE && InBand(offset + HOUR * k)
  {
    var r := DeriveOffset(utcNow + offset as real + error, utcNow);
    if r.Some? {
      var k := (r.value - offset) / HOUR;
      assert r.value == offset + HOUR * k;
      DerivationBand(utcNow, offset, error, k);
    }
  }

  /** The whole-hour slip is unique: no error is within tolerance of two of them. */
  lemma SlipIsUnique(error: real, j: int, k: int)
    requires Abs(error - (HOUR * j) as real) <= TOLERANCE && Abs(error - (HOUR * k) as real) <= TOLERANCE
    ensures j == k
  {
    assert -180.0 <= (HOUR * j) as real - (HOUR * k) as real <= 180.0;
  }

  // ---------------------------------------------------------------------------------------
  // The debounce
  // ---------------------------------------------------------------------------------------

  datatype Reading = Reading(seconds: int, symbol: string, at: real)

  /** The cached reading and the unconfirmed candidate. */
  datatype Debounce = Debounce(cached: Option<Reading>, pending: Option<int>, count: nat)

  const Cleared := Debounce(None, None, 0)

  /** The effect of one clean reading, when `needed` readings in a row replace the cache. */
  function Take(d: Debounce, needed: nat, r: Reading): Debounce {
    if d.cached.None? || d.cached.value.seconds == r.seconds then Debounce(Some(r), None, 0)
    else
      var count := if d.pending == Some(r.seconds) then d.count + 1 else 1;
      if count >= needed then Debounce(Some(r), None, 0) else Debounce(d.cached, Some(r.seconds), count)
  }

  function Needed(confirmations: int): nat {
    if confirmations < 1 then 1 else confirmations
  }

  datatype Tick = Tick(symbol: string, time: Option<real>, now: real)

  /** The clean reading a tick yields, if it yields one. */
  function ReadingOf(t: Tick): Option<Reading> {
    if t.time.None? || t.time.value == 0.0 then None
    else
      var derived := DeriveOffset(t.time.value, t.now);
      if derived.None? then None else Some(Reading(derived.value, t.symbol, t.now))
  }

  /** The quote of `t` differs from the clock by `seconds`, whole hours between -12 and +14, up to 90 s. */
  predicate Implies(t: Tick, seconds: int) {
    && t.time.Some? && t.time.value != 0.0
    && seconds % 3600 == 0 && -43200 <= seconds <= 50400
    && -90.0 <= t.time.value - t.now - seconds as real <= 90.0
  }

  /** A tick yields exactly the reading it implies, under its own symbol and instant. */
  lemma ReadingIsImplied(t: Tick, r: Reading)
    ensures ReadingOf(t) == Some(r) <==> Implies(t, r.seconds) && r.symbol == t.symbol && r.at == t.now
  {
    if t.time.Some? && t.time.value != 0.0 {
      var error := t.time.value - t.now - r.seconds as real;
      assert t.time.value == t.now + r.seconds as real + error;
      assert r.seconds % HOUR == 0 ==> (DeriveOffset(t.time.value, t.now) == Some(r.seconds) <==> Implies(t, r.seconds)) by {
        if r.seconds % HOUR == 0 {
          DerivationBand(t.now, r.seconds, error, 0);
        }
      }
    }
  }

  /**
   The reading of a quote that is `error` seconds off a server at `offset`: it is k hours
   wrong exactly when the error is within 90 s of k hours and the result a possible offset.
   */
  lemma ReadingBand(symbol: string, now: real, offset: int, error: real, k: int)
    requires offset % 3600 == 0 && now + offset as real + error != 0.0
    ensures ReadingOf(Tick(symbol, Some(now + offset as real + error), now)) == Some(Reading(offset + 3600 * k, symbol, now))
       <==> -90.0 <= error - (3600 * k) as real <= 90.0 && -43200 <= offset + 3600 * k <= 50400
  {
    ReadingIsImplied(Tick(symbol, Some(now + offset as real + error), now), Reading(offset + 3600 * k, symbol, now));
  }

  function TakeTick(d: Debounce, needed: nat, t: Tick): Debounce {
    var r := ReadingOf(t);
    if r.None? then d else Take(d, needed, r.value)
  }

  /** The module globals of the offset cache. */
  class OffsetCache {
    var derivedOffset: Option<int>
    var derivedSymbol: Option<string>
    var derivedAt: Option<real>
    var pendingOffset: Option<int>
    var pendingCount: nat

    ghost predicate Valid()
      reads this
    {
      && (derivedOffset.Some? <==> derivedAt.Some?)
      && (derivedOffset.Some? <==> derivedSymbol.Some?)
    }

    ghost function Value(): Debounce
      reads this
      requires Valid()
    {
      Debounce(if derivedOffset.Some? then Some(Reading(derivedOffset.value, derivedSymbol.value, derivedAt.value)) else None,
               pendingOffset, pendingCount)
    }

    constructor ()
      ensures Valid() && Value() == Cleared
    {
      derivedOffset, derivedSymbol, derivedAt := None, None, None;
      pendingOffset, pendingCount := None, 0;
    }

    /** Cache a reading, or clear the cache; either way the candidate is dropped. */
    method SetDerivedOffset(r: Option<Reading>)
      modifies this
      ensures Valid() && Value() == Debounce(r, None, 0)
    {
      pendingOffset, pendingCount := None, 0;
      match r
      case None => derivedOffset, derivedSymbol, derivedAt := None, None, None;
      case Some(v) => derivedOffset, derivedSymbol, derivedAt := Some(v.seconds), Some(v.symbol), Some(v.at);
    }

    method DeriveFromTick(confirmations: int, t: Tick) returns (derived: Option<int>)
      requires Valid()
      modifies this
      ensures Valid()
      ensures Value() == TakeTick(old(Value()), if confirmations > 1 then confirmations else 1, t)
      ensures derived == match ReadingOf(t) case Some(r) => Some(r.seconds) case None => None
      ensures forall seconds :: derived == Some(seconds) <==> Implies(t, seconds)
      ensures forall seconds :: Implies(t, seconds) && old(derivedOffset).None? ==>
        derivedOffset == Some(seconds) && derivedSymbol == Some(t.symbol) && derivedAt == Some(t.now)
    {
      forall seconds: int
        ensures ReadingOf(t) == Some(Reading(seconds, t.symbol, t.now)) <==> Implies(t, seconds)
      {
        ReadingIsImplied(t, Reading(seconds, t.symbol, t.now));
      }
      if t.time.None? || t.time.value == 0.0 {
        return None;
      }
      derived := DeriveOffset(t.time.value, t.now);
      if derived.None? {
        return;
      }
      var r := Reading(derived.value, t.symbol, t.now);
      if derivedOffset.None? || derivedOffset == derived {
        SetDerivedOffset(Some(r));
        return;
      }
      if pendingOffset == derived {
        pendingCount := pendingCount + 1;
      } else {
        pendingOffset, pendingCount := derived, 1;
      }
      if pendingCount >= Needed(confirmations) {
        SetDerivedOffset(Some(r));
      }
    }
  }

  // ---------------------------------------------------------------------------------------
  // Closed form of the debounce
  // ---------------------------------------------------------------------------------------

  function TakeAll(d: Debounce, needed: nat, rs: seq<Reading>): Debounce {
    if rs == [] then d else Take(TakeAll(d, needed, rs[..|rs| - 1]), needed, rs[|rs| - 1])
  }

  function TakeTicks(needed: nat, ts: seq<Tick>): Debounce {
    if ts == [] then Cleared else TakeTick(TakeTicks(needed, ts[..|ts| - 1]), needed, ts[|ts| - 1])
  }

  function CleanReadings(ts: seq<Tick>): seq<Reading> {
    if ts == [] then []
    else
      var r := ReadingOf(ts[|ts| - 1]);
      CleanReadings(ts[..|ts| - 1]) + if r.Some? then [r.value] else []
  }

  /** Only the clean readings matter. */
  lemma {:induction false} UncleanTicksIgnored(needed: nat, ts: seq<Tick>)
    ensures TakeTicks(needed, ts) == TakeAll(Cleared, needed, CleanReadings(ts))
  {
    if ts != [] {
      var rest := ts[..|ts| - 1];
      UncleanTicksIgnored(needed, rest);
      var r := ReadingOf(ts[|ts| - 1]);
      if r.Some? {
        assert (CleanReadings(rest) + [r.value])[..|CleanReadings(rest)|] == CleanReadings(rest);
      } else {
        assert CleanReadings(ts) == CleanReadings(rest);
      }
    }
  }

  /** At least `n` equal readings end at position `j`. */
  predicate ConfirmedAt(rs: seq<Reading>, n: nat, j: int) {
    && n - 1 <= j < |rs|
    && 0 <= j
    && forall i :: 0 <= i && j - n < i <= j ==> rs[i].seconds == rs[j].seconds
  }

  /** The value of the latest run of at least `n` equal readings, or the very first value. */
  ghost predicate LatestConfirmed(rs: seq<Reading>, n: nat, seconds: int) {
    || (exists j :: ConfirmedAt(rs, n, j) && rs[j].seconds == seconds && forall k :: ConfirmedAt(rs, n, k) ==> k <= j)
    || (rs != [] && rs[0].seconds == seconds && forall k :: !ConfirmedAt(rs, n, k))
  }

  /** `r` is the last reading of value `seconds`. */
  ghost predicate LastOf(rs: seq<Reading>, seconds: int, r: Reading) {
    exists j :: 0 <= j < |rs| && rs[j] == r && r.seconds == seconds && forall k :: j < k < |rs| ==> rs[k].seconds != seconds
  }

  /** The readings end in exactly `count` equal ones. */
  predicate TrailingRun(rs: seq<Reading>, count: nat) {
    && 0 < count < |rs|
    && (forall i :: |rs| - count <= i < |rs| ==> rs[i].seconds == rs[|rs| - 1].seconds)
    && rs[|rs| - count - 1].seconds != rs[|rs| - 1].seconds
  }

  ghost predicate ClosedForm(rs: seq<Reading>, n: nat, d: Debounce) {
    && rs != [] && d.cached.Some?
    && LatestConfirmed(rs, n, d.cached.value.seconds)
    && LastOf(rs, d.cached.value.seconds, d.cached.value)
    && (if rs[|rs| - 1].seconds == d.cached.value.seconds then d.pending.None? && d.count == 0
        else d.pending == Some(rs[|rs| - 1].seconds) && d.count < n && TrailingRun(rs, d.count))
  }

  lemma ConfirmedBefore(rs: seq<Reading>, n: nat, r: Reading, j: int)
    requires j < |rs|
    ensures ConfirmedAt(rs + [r], n, j) <==> ConfirmedAt(rs, n, j)
  {
    var rs' := rs + [r];
    if 0 <= j {
      assert forall i :: 0 <= i <= j ==> rs'[i] == rs[i];
    }
  }

  lemma LatestUnchanged(rs: seq<Reading>, n: nat, r: Reading, seconds: int)
    requires LatestConfirmed(rs, n, seconds) && rs != []
    requires ConfirmedAt(rs + [r], n, |rs|) ==> r.seconds == seconds
    ensures LatestConfirmed(rs + [r], n, seconds)
  {
    var rs' := rs + [r];
    forall j | j < |rs| ensures ConfirmedAt(rs', n, j) <==> ConfirmedAt(rs, n, j) {
      ConfirmedBefore(rs, n, r, j);
    }
    if ConfirmedAt(rs', n, |rs|) {
      assert rs'[|rs|].seconds == seconds;
    } else if j :| ConfirmedAt(rs, n, j) && rs[j].seconds == seconds && forall k :: ConfirmedAt(rs, n, k) ==> k <= j {
      assert ConfirmedAt(rs', n, j);
    }
  }

  lemma LastUnchanged(rs: seq<Reading>, seconds: int, last: Reading, r: Reading)
    requires LastOf(rs, seconds, last) && r.seconds != seconds
    ensures LastOf(rs + [r], seconds, last)
  {
    var j :| 0 <= j < |rs| && rs[j] == last && last.seconds == seconds && forall k :: j < k < |rs| ==> rs[k].seconds != seconds;
    assert (rs + [r])[j] == last;
  }

  lemma LastIsNew(rs: seq<Reading>, r: Reading)
    ensures LastOf(rs + [r], r.seconds, r)
  {
    assert (rs + [r])[|rs|] == r;
  }

  /** The length of the run that ends with a new reading `r`. */
  lemma TrailingGrows(rs: seq<Reading>, n: nat, d: Debounce, r: Reading)
    requires ClosedForm(rs, n, d) && r.seconds != d.cached.value.seconds && n >= 1
    ensures var count := if d.pending == Some(r.seconds) then d.count + 1 else 1;
      && TrailingRun(rs + [r], count)
      && count <= n
      && (ConfirmedAt(rs + [r], n, |rs|) <==> count >= n)
  {
    var rs' := rs + [r];
    var count := if d.pending == Some(r.seconds) then d.count + 1 else 1;
    assert forall i :: 0 <= i < |rs| ==> rs'[i] == rs[i];
    assert TrailingRun(rs', count);
    assert rs'[|rs'| - count - 1].seconds != r.seconds;
  }

  lemma ClosedFormStep(rs: seq<Reading>, n: nat, d: Debounce, r: Reading)
    requires ClosedForm(rs, n, d) && n >= 1
    ensures ClosedForm(rs + [r], n, Take(d, n, r))
  {
    var v := d.cached.value;
    var rs' := rs + [r];
    LastIsNew(rs, r);
    if r.seconds == v.seconds {
      LatestUnchanged(rs, n, r, v.seconds);
    } else {
      TrailingGrows(rs, n, d, r);
      LastUnchanged(rs, v.seconds, v, r);
      var d' := Take(d, n, r);
      if d'.cached == d.cached {
        LatestUnchanged(rs, n, r, v.seconds);
      } else {
        assert ConfirmedAt(rs', n, |rs|) && rs'[|rs|] == r;
      }
    }
  }

  /**
   After any readings since the cache was cleared, the cache holds the last reading of the
   latest value confirmed by `needed` readings in a row, or of the first value if none was.
   */
  lemma {:induction false} DebounceClosedForm(needed: nat, rs: seq<Reading>)
    requires needed >= 1 && rs != []
    ensures ClosedForm(rs, needed, TakeAll(Cleared, needed, rs))
  {
    var n := |rs| - 1;
    assert rs[..n] + [rs[n]] == rs;
    if n == 0 {
      assert TakeAll(Cleared, needed, rs[..0]) == Cleared;
      assert TakeAll(Cleared, needed, rs) == Debounce(Some(rs[0]), None, 0);
      assert LastOf(rs, rs[0].seconds, rs[0]);
      assert needed == 1 ==> ConfirmedAt(rs, needed, 0);
    } else {
      DebounceClosedForm(needed, rs[..n]);
      ClosedFormStep(rs[..n], needed, TakeAll(Cleared, needed, rs[..n]), rs[n]);
    }
  }

  lemma TrailingRunIsUnique(rs: seq<Reading>, a: nat, b: nat)
    requires TrailingRun(rs, a) && TrailingRun(rs, b)
    ensures a == b
  {
    var n := |rs|;
    assert rs[n - a - 1].seconds != rs[n - 1].seconds && rs[n - b - 1].seconds != rs[n - 1].seconds;
  }

  /** The closed form leaves nothing open: it fixes cache, candidate and count. */
  lemma ClosedFormDetermines(rs: seq<Reading>, needed: nat, d: Debounce, d': Debounce)
    requires ClosedForm(rs, needed, d) && ClosedForm(rs, needed, d')
    ensures d == d'
  {
    assert d.cached.value.seconds == d'.cached.value.seconds;
    if rs[|rs| - 1].seconds != d.cached.value.seconds {
      TrailingRunIsUnique(rs, d.count, d'.count);
    }
  }

  /** At most one clean reading separates the two. */
  ghost predicate AtMostOneReading(d: Debounce, d': Debounce, needed: nat) {
    d' == d || exists r: Reading :: d' == Take(d, needed, r)
  }

  /** A cached value can only change when the count of agreeing dissenters reaches `needed`. */
  lemma {:induction false} FewReadingsKeepCache(needed: nat, states: seq<Debounce>, readings: nat)
    requires readings < |states| && states[0].cached.Some?
    requires states[0].count + readings < needed
    requires forall i :: 0 <= i < readings ==> AtMostOneReading(states[i], states[i + 1], needed)
    ensures states[readings].cached.Some? && states[readings].cached.value.seconds == states[0].cached.value.seconds
    ensures states[readings].count <= states[0].count + readings
  {
    if readings > 0 {
      FewReadingsKeepCache(needed, states, readings - 1);
      var i := readings - 1;
      assert AtMostOneReading(states[i], states[i + 1], needed);
    }
  }

  /**
   ... and agreeing dissenters in a row change it exactly when they, and those of the same
   value already counted, are `needed`; from then on they refresh it.
   */
  lemma {:induction false} EnoughReadingsSwitch(needed: nat, d: Debounce, rs: seq<Reading>, seconds: int)
    requires d.cached.Some? && d.cached.value.seconds != seconds
    requires rs != [] && forall i :: 0 <= i < |rs| ==> rs[i].seconds == seconds
    ensures var count := (if d.pending == Some(seconds) then d.count else 0) + |rs|;
      TakeAll(d, needed, rs)
      == if count >= needed then Debounce(Some(rs[|rs| - 1]), None, 0) else Debounce(d.cached, Some(seconds), count)
  {
    var n := |rs| - 1;
    if n == 0 {
      assert TakeAll(d, needed, rs[..0]) == d;
    } else {
      EnoughReadingsSwitch(needed, d, rs[..n], seconds);
    }
  }
}
