/**
 GTD expirations: converting the caller's UTC deadline to broker time, or refusing.
 */
module OrderTime {
  import opened Wrappers
  import opened ServerTime
  import opened OffsetRefresh

  /** The operator's settings; a zone gives an offset per instant. */
  datatype Settings = Settings(zone: Option<real -> int>, env: Option<int>, maxAge: int, confirmations: int)

  datatype Refusal = OffsetUnavailable

  /** Python's `int` on a number. */
  function Truncate(x: real): int {
    if x >= 0.0 then x.Floor else -((-x).Floor)
  }

  function ExplicitOffset(cfg: Settings, at: real): Option<int> {
    if cfg.zone.Some? then Some(cfg.zone.value(at)) else cfg.env
  }

  predicate YoungEnough(cfg: Settings, d: Debounce, now: real) {
    d.cached.Some? && now - d.cached.value.at <= cfg.maxAge as real
  }

  /** True when a conversion would succeed without deriving first. */
  function OffsetUsableForGtd(cfg: Settings, d: Debounce, now: real): bool {
    if cfg.zone.Some? || cfg.env.Some? then true
    else if d.cached.None? then false
    else now - d.cached.value.at <= cfg.maxAge as real
  }

  function UtcEpochToServer(cfg: Settings, d: Debounce, epoch: real, now: real): Result<int, Refusal> {
    var explicit := ExplicitOffset(cfg, epoch);
    if explicit.Some? then Ok(Truncate(epoch) + explicit.value)
    else if d.cached.None? then Err(OffsetUnavailable)
    else if now - d.cached.value.at > cfg.maxAge as real then Err(OffsetUnavailable)
    else Ok(Truncate(epoch) + d.cached.value.seconds)
  }

  /** The reading direction never refuses; a zone is asked for its offset now, not at `epoch`. */
  function ServerEpochToUtc(cfg: Settings, d: Debounce, epoch: real, now: real): real {
    var explicit := ExplicitOffset(cfg, now);
    var offset := if explicit.Some? then explicit.value else if d.cached.Some? then d.cached.value.seconds else 0;
    epoch - offset as real
  }

  /** `offset` is one the gateway may stand behind for `epoch` at `now`. */
  predicate Trusted(cfg: Settings, d: Debounce, epoch: real, now: real, offset: int) {
    || ExplicitOffset(cfg, epoch) == Some(offset)
    || (ExplicitOffset(cfg, epoch).None? && YoungEnough(cfg, d, now) && d.cached.value.seconds == offset)
  }

  /** The test asked before a conversion and the conversion itself never disagree. */
  lemma UsableIffConvertible(cfg: Settings, d: Debounce, epoch: real, now: real)
    ensures OffsetUsableForGtd(cfg, d, now) <==> UtcEpochToServer(cfg, d, epoch, now).Ok?
  {
  }

  /** A conversion succeeds exactly with a trusted offset, and adds just that. */
  lemma ConversionIsTrusted(cfg: Settings, d: Debounce, epoch: real, now: real, server: int)
    ensures UtcEpochToServer(cfg, d, epoch, now) == Ok(server)
       <==> exists offset :: Trusted(cfg, d, epoch, now, offset) && server == Truncate(epoch) + offset
  {
    if UtcEpochToServer(cfg, d, epoch, now) == Ok(server) {
      assert Trusted(cfg, d, epoch, now, server - Truncate(epoch));
    }
  }

  /** Which offset a conversion adds: the zone's at that instant, else the configured one, else a young cached one. */
  lemma ConversionCases(cfg: Settings, d: Debounce, epoch: real, now: real)
    ensures UtcEpochToServer(cfg, d, epoch, now) ==
      match (cfg.zone, cfg.env, d.cached)
      case (Some(zone), _, _) => Ok(Truncate(epoch) + zone(epoch))
      case (None, Some(env), _) => Ok(Truncate(epoch) + env)
      case (None, None, Some(r)) =>
        if now - r.at <= cfg.maxAge as real then Ok(Truncate(epoch) + r.seconds) else Err(OffsetUnavailable)
      case (None, None, None) => Err(OffsetUnavailable)
  {
  }

  /** Which offset a reading takes away: the zone's at present, else the configured one, else the cached, however old, else none. */
  lemma ReadingCases(cfg: Settings, d: Debounce, epoch: real, now: real)
    ensures ServerEpochToUtc(cfg, d, epoch, now) ==
      match (cfg.zone, cfg.env, d.cached)
      case (Some(zone), _, _) => epoch - zone(now) as real
      case (None, Some(env), _) => epoch - env as real
      case (None, None, Some(r)) => epoch - r.seconds as real
      case (None, None, None) => epoch
  {
  }

  /** Fractions are cut off towards zero. */
  lemma TruncateCuts(x: real)
    ensures x >= 0.0 ==> Truncate(x) as real <= x < Truncate(x) as real + 1.0
    ensures x <= 0.0 ==> Truncate(x) as real - 1.0 < x <= Truncate(x) as real
  {
  }

  lemma TruncateWhole(k: int)
    ensures Truncate(k as real) == k
  {
    assert -(k as real) == (-k) as real;
  }

  /**
   To broker time and back: a whole-second instant survives exactly when no zone is set, or
   the zone's offset at that instant is the one it has when read back.
   */
  lemma RoundTripCondition(cfg: Settings, d: Debounce, epoch: int, now: real, later: real)
    requires OffsetUsableForGtd(cfg, d, now)
    ensures var server := UtcEpochToServer(cfg, d, epoch as real, now);
      && server.Ok?
      && (ServerEpochToUtc(cfg, d, server.value as real, later) == epoch as real
          <==> cfg.zone.None? || cfg.zone.value(epoch as real) == cfg.zone.value(later))
  {
    TruncateWhole(epoch);
    var server := UtcEpochToServer(cfg, d, epoch as real, now).value;
    var offset := server - epoch;
    assert server as real == epoch as real + offset as real;
  }

  /** From broker time to UTC and back, without a zone. */
  lemma ServerRoundTrip(cfg: Settings, d: Debounce, server: int, now: real, later: real)
    requires cfg.zone.None? && OffsetUsableForGtd(cfg, d, now)
    ensures UtcEpochToServer(cfg, d, ServerEpochToUtc(cfg, d, server as real, later), now) == Ok(server)
  {
    var offset := if cfg.env.Some? then cfg.env.value else d.cached.value.seconds;
    assert server as real - offset as real == (server - offset) as real;
    TruncateWhole(server - offset);
  }

  /** One dissenting reading cannot make a stale cache usable when two are needed. */
  lemma DissentDoesNotRefresh(cfg: Settings, d: Debounce, r: Reading, epoch: real, now: real)
    requires cfg.zone.None? && cfg.env.None?
    requires d.cached.Some? && !YoungEnough(cfg, d, now) && r.seconds != d.cached.value.seconds
    requires d.count + 1 < cfg.confirmations
    ensures UtcEpochToServer(cfg, Take(d, Needed(cfg.confirmations), r), epoch, now).Err?
  {
  }

  // ---------------------------------------------------------------------------------------
  // The order's own read of the quote, and the request it fills in
  // ---------------------------------------------------------------------------------------

  /** Read `i` of the order's symbol is past read `i - 1`, and no earlier read was. */
  predicate FirstMove(polls: nat -> Option<int>, i: nat) {
    && i > 0 && Moves(polls, i)
    && forall j: nat :: 0 < j < i ==> !Moves(polls, j)
  }

  predicate Moves(polls: nat -> Option<int>, i: nat)
    requires i > 0
  {
    Present(polls(i)) && Present(polls(i - 1)) && polls(i).value > polls(i - 1).value
  }

  /** Two reads in a row show a move exactly if both have a time and the later is greater. */
  lemma MovesExactly(polls: nat -> Option<int>, i: nat)
    requires i > 0
    ensures Moves(polls, i)
       <==> exists m: int, n: int :: polls(i - 1) == Some(m) && polls(i) == Some(n) && m != 0 && n != 0 && m < n
  {
    if Moves(polls, i) {
      assert polls(i - 1) == Some(polls(i - 1).value) && polls(i) == Some(polls(i).value);
    }
  }

  /** A quote that repeats itself, or goes back, never moves, however recent it looks. */
  lemma FrozenNeverMoves(polls: nat -> Option<int>, attempts: int)
    requires forall i: nat, j: nat :: j == i + 1 < attempts && polls(i).Some? && polls(j).Some? ==>
               polls(j).value <= polls(i).value
    ensures forall i: nat :: i < attempts ==> !FirstMove(polls, i)
  {
    forall i: nat | i < attempts ensures !FirstMove(polls, i) {
      if i > 0 {
        var j: nat := i - 1;
        assert polls(j).Some? && polls(i).Some? ==> polls(i).value <= polls(j).value;
      }
    }
  }

  /** What the order's own look at the quote does to the cache: the first move counts, clean or not. */
  ghost predicate OrderRead(d: Debounce, d': Debounce, cfg: Settings, symbol: string,
                            polls: nat -> Option<int>, nows: nat -> real, attempts: int) {
    || (d' == d && forall i: nat :: i < attempts ==> !FirstMove(polls, i))
    || exists i: nat ::
         && i < attempts && FirstMove(polls, i)
         && d' == TakeTick(d, Needed(cfg.confirmations), TickOf((symbol, polls(i).value), nows(i)))
  }

  lemma {:induction false} SomeMoveMeansFirstMove(polls: nat -> Option<int>, i: nat)
    requires i > 0 && Moves(polls, i)
    ensures exists j: nat :: j <= i && FirstMove(polls, j)
  {
    if j: nat :| 0 < j < i && Moves(polls, j) {
      SomeMoveMeansFirstMove(polls, j);
    } else {
      assert FirstMove(polls, i);
    }
  }

  method DeriveFromLiveQuote(cache: OffsetCache, cfg: Settings, symbol: string,
                             polls: nat -> Option<int>, nows: nat -> real, attempts: int)
    returns (derived: Option<int>)
    requires cache.Valid()
    modifies cache
    ensures cache.Valid()
    ensures OrderRead(old(cache.Value()), cache.Value(), cfg, symbol, polls, nows, attempts)
    ensures derived.Some? ==> exists i: nat :: i < attempts && FirstMove(polls, i)
    ensures forall i: nat :: i < attempts && FirstMove(polls, i) ==>
      derived == match ReadingOf(TickOf((symbol, polls(i).value), nows(i))) case Some(r) => Some(r.seconds) case None => None
  {
    var previous := polls(0);
    var n := 1;
    while n < attempts
      invariant 1 <= n
      invariant previous == polls(n - 1)
      invariant forall j: nat :: 0 < j < n ==> !Moves(polls, j)
      invariant cache.Valid() && cache.Value() == old(cache.Value())
      decreases attempts - n
    {
      var current := polls(n);
      if Present(current) && Present(previous) && current.value > previous.value {
        assert FirstMove(polls, n);
        derived := cache.DeriveFromTick(cfg.confirmations, TickOf((symbol, current.value), nows(n)));
        return;
      }
      previous := current;
      n := n + 1;
    }
    derived := None;
  }

  datatype TypeTime = Gtc | Specified | Other(code: int)

  datatype RestingOrder = RestingOrder(typeTime: TypeTime, timeExpiration: int)

  /** A way to read the order's own quote: symbol, reads, their instants and how many. */
  datatype QuoteSource = QuoteSource(symbol: string, polls: nat -> Option<int>, nows: nat -> real, attempts: int)

  /** The two time fields of an MT5 request. */
  class RequestData {
    var typeTime: Option<TypeTime>
    var expiration: Option<int>

    constructor (typeTime: Option<TypeTime>, expiration: Option<int>)
      ensures this.typeTime == typeTime && this.expiration == expiration
    {
      this.typeTime, this.expiration := typeTime, expiration;
    }
  }

  /** The cache changes only if it was not usable, and then only by the order's own read. */
  ghost predicate DerivedIfNeeded(d: Debounce, d': Debounce, quote: Option<QuoteSource>, cfg: Settings, askedAt: real) {
    if quote.None? || OffsetUsableForGtd(cfg, d, askedAt) then d' == d
    else
      var q := quote.value;
      OrderRead(d, d', cfg, q.symbol, q.polls, q.nows, q.attempts)
  }

  method TryToDerive(quote: Option<QuoteSource>, cache: OffsetCache, cfg: Settings, askedAt: real)
    requires cache.Valid()
    modifies cache
    ensures cache.Valid()
    ensures DerivedIfNeeded(old(cache.Value()), cache.Value(), quote, cfg, askedAt)
  {
    if quote.Some? {
      var usable := IsUsable(cache, cfg, askedAt);
      if !usable {
        var q := quote.value;
        var _ := DeriveFromLiveQuote(cache, cfg, q.symbol, q.polls, q.nows, q.attempts);
      }
    }
  }

  /**
   Fill in the expiration. `askedAt` is when usability is tested, `convertedAt` when the
   conversion runs. The cache is touched only if it was not usable, and only by a quote that
   moved; whatever deadline is written stands on a trusted offset, and without one the order
   is refused with no deadline written.
   */
  method ApplyExpiration(request: RequestData, expiration: Option<real>, existing: Option<RestingOrder>,
                         quote: Option<QuoteSource>, cache: OffsetCache, cfg: Settings, askedAt: real, convertedAt: real)
    returns (outcome: Result<(), Refusal>)
    requires cache.Valid()
    modifies request, cache
    ensures cache.Valid()
    ensures expiration.None? ==> cache.Value() == old(cache.Value())
    ensures expiration.Some? ==> DerivedIfNeeded(old(cache.Value()), cache.Value(), quote, cfg, askedAt)
    ensures outcome.Ok? <==> expiration.None? || OffsetUsableForGtd(cfg, cache.Value(), convertedAt)
    ensures expiration.Some? ==> request.typeTime == Some(Specified)
    ensures expiration.Some? && outcome.Ok? ==>
      exists offset :: && Trusted(cfg, cache.Value(), expiration.value, convertedAt, offset)
                       && request.expiration == Some(Truncate(expiration.value) + offset)
    ensures outcome.Err? ==> request.expiration == old(request.expiration)
    ensures expiration.None? && existing.None? ==>
      request.typeTime == old(request.typeTime) && request.expiration == old(request.expiration)
    ensures expiration.None? && existing.Some? ==>
      && request.typeTime == Some(existing.value.typeTime)
      && request.expiration == if existing.value.timeExpiration != 0 then Some(existing.value.timeExpiration)
                               else old(request.expiration)
  {
    if expiration.Some? {
      TryToDerive(quote, cache, cfg, askedAt);
      request.typeTime := Some(Specified);
      var converted := Convert(cache, cfg, expiration.value, convertedAt);
      UsableIffConvertible(cfg, cache.Value(), expiration.value, convertedAt);
      if converted.Err? {
        return Err(converted.error);
      }
      ConversionIsTrusted(cfg, cache.Value(), expiration.value, convertedAt, converted.value);
      request.expiration := Some(converted.value);
    } else if existing.Some? {
      request.typeTime := Some(existing.value.typeTime);
      if existing.value.timeExpiration != 0 {
        request.expiration := Some(existing.value.timeExpiration);
      }
    }
    outcome := Ok(());
  }

  /** `offset_usable_for_gtd` on the module globals. */
  method IsUsable(cache: OffsetCache, cfg: Settings, now: real) returns (usable: bool)
    requires cache.Valid()
    ensures usable == OffsetUsableForGtd(cfg, cache.Value(), now)
  {
    if cfg.zone.Some? || cfg.env.Some? {
      return true;
    }
    if cache.derivedOffset.None? || cache.derivedAt.None? {
      return false;
    }
    usable := now - cache.derivedAt.value <= cfg.maxAge as real;
  }

  /** `utc_epoch_to_server` on the module globals. */
  method Convert(cache: OffsetCache, cfg: Settings, epoch: real, now: real) returns (r: Result<int, Refusal>)
    requires cache.Valid()
    ensures r == UtcEpochToServer(cfg, cache.Value(), epoch, now)
  {
    var explicit := ExplicitOffset(cfg, epoch);
    if explicit.Some? {
      return Ok(Truncate(epoch) + explicit.value);
    }
    if cache.derivedOffset.None? || cache.derivedAt.None? {
      return Err(OffsetUnavailable);
    }
    if now - cache.derivedAt.value > cfg.maxAge as real {
      return Err(OffsetUnavailable);
    }
    r := Ok(Truncate(epoch) + cache.derivedOffset.value);
  }
}
