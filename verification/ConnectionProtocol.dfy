/**
 `ensure_connection` run by any number of threads at once.

 Every access to the status or the verification time is one step of one thread, and so is
 every reading of the clock that is stored or compared with that time, every lock operation
 and every native round trip. Between any two steps other threads may run, time may pass, and
 the IPC boundary may report a failure. The not-before time is written only under the
 reconnect lock, so testing it and noting an outcome are one step each. The state also keeps
 what happened: each probe and each request-driven `initialize`, every verification time
 stored, and the failures since the last success.
 */
module ConnectionProtocol {
  import opened Wrappers
  import opened Connection

  datatype Pc =
    | Idle
    | TestFresh                 // saw CONNECTED
    | TestTime(clock: real)     // ... and read the clock
    | WantVerifyLock
    | Verifying                 // holds the verify lock
    | Retesting                 // ... and saw CONNECTED again
    | RetestTime(clock: real)   // ... and read the clock
    | Stale(known: nat, halfMarked: bool)   // ... and found the verification too old
    | Probing
    | Answered(at: real)        // the session lives, as of `at`, which is not stored yet
    | LeavingVerify(ok: bool)
    | TestCooldown
    | WantReconnectLock
    | Holding                   // holds the reconnect lock
    | RetestCooldown
    | Cleared                   // ... and may start `initialize`
    | Initializing(start: real, attached: bool)
    | Marking(start: real)      // wrote CONNECTED
    | Stamped(start: real, at: real)        // ... and read the clock, not stored yet
    | Reconciling(start: real)
    | Noting(start: real, ok: bool)
    | Unlocking(answer: Option<bool>)       // None while an exception passes through
    | Returned(ok: bool)        // what the last call answered; free for the next

  /** A verification time that was stored, and whether a reconnect's mark stored it. */
  datatype Verification = Verification(at: real, mark: bool)

  /**
   A probe: its start, and the verifications on record at the re-test before it and at the start.
   `halfMarked`: at that re-test a reconnect had written the status and not yet the time.
   `duringStamp`: at the start a reconnect had read its clock and not yet stored the time.
   */
  datatype Probe = Probe(at: real, known: nat, seen: nat, halfMarked: bool, duringStamp: bool)

  datatype Init = Init(at: real, notBefore: real)

  datatype Span = Span(start: real, end: real)

  datatype State = State(
    link: Link,
    now: real,
    verifyLock: Option<nat>,
    reconnectLock: Option<nat>,
    pcs: map<nat, Pc>,
    verified: seq<Verification>,
    probes: seq<Probe>,
    inits: seq<Init>,
    streak: seq<Span>)       // failed reconnects since the last success

  /** What the step of a thread meets: a positive or negative answer, a raise, or a status. */
  datatype Input = Yes | No | Raise | Mark(status: Status)

  datatype Action = Tick(to: real) | IpcFailure | Step(thread: nat, input: Input)

  const Initial := State(Unlinked, 0.0, None, None, map[], [], [], [], [])

  function PcOf(s: State, t: nat): Pc {
    if t in s.pcs then s.pcs[t] else Idle
  }

  function Goto(s: State, t: nat, pc: Pc): State {
    s.(pcs := s.pcs[t := pc])
  }

  function Dropped(s: State): State {
    s.(link := SetStatus(s.link, Disconnected, s.now))
  }

  /** `at` is stored as the time of the last verification. */
  function Store(s: State, at: real, mark: bool): State {
    s.(link := s.link.(lastVerifiedAt := at), verified := s.verified + [Verification(at, mark)])
  }

  /** The thread that holds the reconnect lock. */
  function Reconnector(s: State): Pc {
    if s.reconnectLock.Some? then PcOf(s, s.reconnectLock.value) else Idle
  }

  /** Some reconnect has written the status and not yet the time. */
  predicate HalfMarked(s: State) {
    Reconnector(s).Marking? || Reconnector(s).Stamped?
  }

  /** ... and it has already read the clock. */
  predicate StampPending(s: State) {
    Reconnector(s).Stamped?
  }

  /** The fast path and the way to either lock. */
  function StepOutside(cfg: Config, s: State, t: nat): State {
    match PcOf(s, t)
    case Idle | Returned(_) => Goto(s, t, if s.link.status.Connected? then TestFresh else TestCooldown)
    case TestFresh => Goto(s, t, TestTime(s.now))
    case TestTime(clock) => Goto(s, t, if VerificationFresh(cfg, s.link, clock) then Returned(true) else WantVerifyLock)
    case WantVerifyLock => if s.verifyLock.None? then Goto(s, t, Verifying).(verifyLock := Some(t)) else s
    case TestCooldown => Goto(s, t, if CoolingDown(s.link, s.now) then Returned(false) else WantReconnectLock)
    case WantReconnectLock =>
      if s.reconnectLock.None? then Goto(s, t, Holding).(reconnectLock := Some(t)) else Goto(s, t, Returned(false))
    case _ => s
  }

  /** The verification, from the lock to its release. */
  function StepVerify(cfg: Config, s: State, t: nat, i: Input): State {
    match PcOf(s, t)
    case Verifying => Goto(s, t, if s.link.status.Connected? then Retesting else LeavingVerify(false))
    case Retesting => Goto(s, t, RetestTime(s.now))
    case RetestTime(clock) =>
      Goto(s, t, if VerificationFresh(cfg, s.link, clock) then LeavingVerify(true) else Stale(|s.verified|, HalfMarked(s)))
    case Stale(known, half) =>
      Goto(s, t, Probing).(probes := s.probes + [Probe(s.now, known, |s.verified|, half, StampPending(s))])
    case Probing => if i.Yes? then Goto(s, t, Answered(s.now)) else Goto(Dropped(s), t, LeavingVerify(false))
    case Answered(at) => Goto(Store(s, at, false), t, LeavingVerify(true))
    case LeavingVerify(ok) => Goto(s, t, if ok then Returned(true) else TestCooldown).(verifyLock := None)
    case _ => s
  }

  /** The reconnect section, from the lock to its release. */
  function StepReconnect(cfg: Config, s: State, t: nat, i: Input): State {
    match PcOf(s, t)
    case Holding => Goto(s, t, if s.link.status.Connected? then Unlocking(Some(true)) else RetestCooldown)
    case RetestCooldown => Goto(s, t, if CoolingDown(s.link, s.now) then Unlocking(Some(false)) else Cleared)
    case Cleared =>
      if i.Raise? then Goto(s, t, Unlocking(None))
      else Goto(s, t, Initializing(s.now, false)).(inits := s.inits + [Init(s.now, s.link.notBefore)])
    case Initializing(start, attached) =>
      (match i
       case Mark(status) =>
         if status.Connected? then Goto(s.(link := s.link.(status := Connected)), t, Marking(start))
         else Goto(s.(link := SetStatus(s.link, status, s.now)), t, Initializing(start, false))
       case Yes => if attached then Goto(s, t, Reconciling(start)) else s
       case No => Goto(Dropped(s), t, Noting(start, false))
       case Raise => Goto(s, t, Unlocking(None)))
    case Marking(start) => Goto(s, t, Stamped(start, s.now))
    case Stamped(start, at) => Goto(Store(s, at, true), t, Initializing(start, true))
    case Reconciling(start) =>
      (match i
       case Mark(_) => s
       case Yes => Goto(s, t, Noting(start, true))
       case No => Goto(Dropped(s), t, Noting(start, false))
       case Raise => Goto(s, t, Unlocking(None)))
    case Noting(start, ok) =>
      Goto(s, t, Unlocking(Some(ok))).(
        link := NoteOutcome(cfg, s.link, ok, s.now),
        streak := if ok then [] else s.streak + [Span(start, s.now)])
    case Unlocking(answer) =>
      Goto(s, t, if answer.Some? then Returned(answer.value) else Idle).(reconnectLock := None)
    case _ => s
  }

  /** Not in a call. */
  predicate Free(pc: Pc) {
    pc.Idle? || pc.Returned?
  }

  predicate InReconnect(pc: Pc) {
    || pc.Holding? || pc.RetestCooldown? || pc.Cleared? || pc.Initializing? || pc.Marking? || pc.Stamped?
    || pc.Reconciling? || pc.Noting? || pc.Unlocking?
  }

  predicate InVerify(pc: Pc) {
    || pc.Verifying? || pc.Retesting? || pc.RetestTime? || pc.Stale? || pc.Probing? || pc.Answered?
    || pc.LeavingVerify?
  }

  function Apply(cfg: Config, s: State, a: Action): State {
    match a
    case Tick(to) => if s.now <= to then s.(now := to) else s
    case IpcFailure => s.(link := NoteIpcFailure(s.link))
    case Step(t, i) =>
      if InReconnect(PcOf(s, t)) then StepReconnect(cfg, s, t, i)
      else if InVerify(PcOf(s, t)) then StepVerify(cfg, s, t, i)
      else StepOutside(cfg, s, t)
  }

  function After(cfg: Config, run: seq<Action>): State {
    if run == [] then Initial else Apply(cfg, After(cfg, run[..|run| - 1]), run[|run| - 1])
  }

  // ---------------------------------------------------------------------------------------
  // The invariant
  // ---------------------------------------------------------------------------------------

  ghost predicate ThreadOk(cfg: Config, s: State, t: nat) {
    var pc := PcOf(s, t);
    && (InReconnect(pc) ==> s.reconnectLock == Some(t))
    && (InVerify(pc) ==> s.verifyLock == Some(t))
    && (pc.RetestCooldown? || pc.Cleared? ==> !s.link.status.Connected?)
    && (pc.Cleared? ==> !CoolingDown(s.link, s.now))
    && (pc.Noting? && !pc.ok ==> s.link.status.Disconnected?)
    && ((pc.Initializing? && pc.attached) || pc.Reconciling? || (pc.Noting? && pc.ok) ==> MarkedSince(s, pc.start))
    && (pc.Initializing? || pc.Marking? || pc.Stamped? || pc.Reconciling? || pc.Noting? ==>
          s.link.notBefore <= pc.start <= s.now)
    && (pc.Stamped? ==> 0.0 <= pc.at <= s.now && pc.start <= pc.at && forall p :: p in s.probes ==> p.at <= pc.at || p.duringStamp)
    && (pc.Answered? ==> 0.0 <= pc.at <= s.now && forall p :: p in s.probes ==> p.at <= pc.at)
    && (pc.RetestTime? ==> pc.clock <= s.now)
    && (pc.Retesting? || pc.RetestTime? ==> VerifiedSinceProbe(s))
    && (pc.Stale? ==> OldEnough(cfg, s, pc.known))
    && (pc.Stale? && !pc.halfMarked ==> ProbeOldEnough(cfg, s))
  }

  /** A reconnect's mark was stored with a time from `start` on. */
  ghost predicate MarkedSince(s: State, start: real) {
    exists k :: 0 <= k < |s.verified| && s.verified[k].mark && s.verified[k].at >= start
  }

  /** The first `known` verifications end in one that is a TTL old, and all later ones are reconnect marks. */
  ghost predicate OldEnough(cfg: Config, s: State, known: nat) {
    && known <= |s.verified|
    && (known > 0 ==> s.now - s.verified[known - 1].at >= cfg.verifyTtl)
    && (forall k :: known <= k < |s.verified| ==> s.verified[k].mark)
  }

  /** The latest probe is a TTL old, unless it began while a stamp was waiting to be stored. */
  predicate ProbeOldEnough(cfg: Config, s: State) {
    s.probes == [] || LastDuringStamp(s) || s.now - LastProbe(s) >= cfg.verifyTtl
  }

  /** The start of the latest probe. */
  function LastProbe(s: State): real {
    if s.probes == [] then 0.0 else s.probes[|s.probes| - 1].at
  }

  predicate LastDuringStamp(s: State) {
    s.probes != [] && s.probes[|s.probes| - 1].duringStamp
  }

  /** The verification time is no older than the latest probe, unless a mark is or was in the way. */
  predicate VerifiedSinceProbe(s: State) {
    HalfMarked(s) || LastDuringStamp(s) || LastProbe(s) <= s.link.lastVerifiedAt
  }

  /** The holder of the verify lock is on its round trip, or has not stored its answer. */
  predicate ProbeRunning(s: State) {
    s.verifyLock.Some? && (PcOf(s, s.verifyLock.value).Probing? || PcOf(s, s.verifyLock.value).Answered?)
  }

  /** The failures on record are spaced by the waits, and the next one is held off likewise. */
  ghost predicate StreakOk(cfg: Config, s: State) {
    var n := |s.streak|;
    && n == s.link.failedReconnects
    && (forall i :: 0 <= i < n ==> s.streak[i].start <= s.streak[i].end <= s.now)
    && (forall i :: 0 < i < n ==> s.streak[i].start >= s.streak[i - 1].end + Wait(cfg, i))
    && s.link.notBefore == if n == 0 then 0.0 else s.streak[n - 1].end + Wait(cfg, n)
  }

  ghost predicate ProbeOk(cfg: Config, s: State, p: Probe) {
    && p.known <= p.seen <= |s.verified|
    && 0.0 <= p.at <= s.now
    && (p.known > 0 ==> p.at - s.verified[p.known - 1].at >= cfg.verifyTtl)
    && (forall k :: p.known <= k < p.seen ==> s.verified[k].mark)
    && (forall k :: p.seen <= k < |s.verified| ==> p.at <= s.verified[k].at || (s.verified[k].mark && p.duringStamp))
  }

  ghost predicate RecordOk(cfg: Config, s: State) {
    && 0.0 <= s.link.lastVerifiedAt <= s.now
    && (forall i :: 0 <= i < |s.inits| ==> s.inits[i].notBefore <= s.inits[i].at)
    && s.link.lastVerifiedAt == (if s.verified == [] then 0.0 else s.verified[|s.verified| - 1].at)
    && (forall p :: p in s.probes ==> ProbeOk(cfg, s, p))
  }

  /** Each probe is a TTL after the one before, and a connected link that is not being probed was verified since. */
  ghost predicate ProbesOk(cfg: Config, s: State) {
    && (forall j :: 0 < j < |s.probes| ==> Apart(cfg, s.probes[j - 1], s.probes[j]))
    && (s.link.status.Connected? && !ProbeRunning(s) ==> VerifiedSinceProbe(s))
  }

  /** The order of two probes in a row, and their distance unless a mark got in the way. */
  predicate Apart(cfg: Config, p: Probe, q: Probe) {
    p.at <= q.at && (q.halfMarked || p.duringStamp || q.at - p.at >= cfg.verifyTtl)
  }

  ghost predicate Inv(cfg: Config, s: State) {
    && (forall t: nat :: ThreadOk(cfg, s, t))
    && StreakOk(cfg, s)
    && RecordOk(cfg, s)
    && ProbesOk(cfg, s)
  }

  // Outside both sections: nothing on record changes.

  lemma OutsideKeeps(cfg: Config, s: State, t: nat)
    requires !InReconnect(PcOf(s, t)) && !InVerify(PcOf(s, t))
    ensures var s' := StepOutside(cfg, s, t);
      && s'.link == s.link && s'.now == s.now && s'.probes == s.probes && s'.verified == s.verified
      && s'.inits == s.inits && s'.streak == s.streak
      && (forall u :: u != t ==> PcOf(s', u) == PcOf(s, u))
      && (s.verifyLock.Some? ==> s'.verifyLock == s.verifyLock)
      && (s.reconnectLock.Some? ==> s'.reconnectLock == s.reconnectLock)
      && HalfMarked(s') == HalfMarked(s) && ProbeRunning(s') == ProbeRunning(s)
  {
  }

  lemma ThreadOutside(cfg: Config, s: State, t: nat)
    requires !InReconnect(PcOf(s, t)) && !InVerify(PcOf(s, t))
    ensures ThreadOk(cfg, StepOutside(cfg, s, t), t)
  {
  }

  lemma OthersOutside(cfg: Config, s: State, t: nat, u: nat)
    requires !InReconnect(PcOf(s, t)) && !InVerify(PcOf(s, t)) && u != t && ThreadOk(cfg, s, u)
    ensures ThreadOk(cfg, StepOutside(cfg, s, t), u)
  {
    OutsideKeeps(cfg, s, t);
    assert InReconnect(PcOf(s, u)) ==> s.reconnectLock.Some?;
    assert InVerify(PcOf(s, u)) ==> s.verifyLock.Some?;
  }

  lemma InvOutside(cfg: Config, s: State, t: nat)
    requires Inv(cfg, s) && !InReconnect(PcOf(s, t)) && !InVerify(PcOf(s, t))
    ensures Inv(cfg, StepOutside(cfg, s, t))
  {
    var s' := StepOutside(cfg, s, t);
    forall u: nat ensures ThreadOk(cfg, s', u) {
      if u == t {
        ThreadOutside(cfg, s, t);
      } else {
        OthersOutside(cfg, s, t, u);
      }
    }
    OutsideKeeps(cfg, s, t);
    forall p | p in s'.probes ensures ProbeOk(cfg, s', p) {
      assert ProbeOk(cfg, s, p);
    }
  }

  // Under the verify lock: no mark begins or ends.

  lemma ReconnectorStays(cfg: Config, s: State, t: nat, i: Input)
    requires Inv(cfg, s) && InVerify(PcOf(s, t))
    ensures HalfMarked(StepVerify(cfg, s, t, i)) == HalfMarked(s)
    ensures StampPending(StepVerify(cfg, s, t, i)) == StampPending(s)
  {
  }

  lemma ThreadVerify(cfg: Config, s: State, t: nat, i: Input)
    requires Inv(cfg, s) && InVerify(PcOf(s, t))
    ensures ThreadOk(cfg, StepVerify(cfg, s, t, i), t)
  {
    assert ThreadOk(cfg, s, t);
    ReconnectorStays(cfg, s, t, i);
  }

  lemma OthersVerify(cfg: Config, s: State, t: nat, i: Input, u: nat)
    requires Inv(cfg, s) && InVerify(PcOf(s, t)) && u != t
    ensures ThreadOk(cfg, StepVerify(cfg, s, t, i), u)
  {
    assert ThreadOk(cfg, s, t) && ThreadOk(cfg, s, u);
    var s' := StepVerify(cfg, s, t, i);
    assert PcOf(s', u) == PcOf(s, u) && !InVerify(PcOf(s, u));
    assert forall k :: 0 <= k < |s.verified| ==> s'.verified[k] == s.verified[k];
  }

  lemma RecordVerify(cfg: Config, s: State, t: nat, i: Input)
    requires Inv(cfg, s) && InVerify(PcOf(s, t))
    ensures RecordOk(cfg, StepVerify(cfg, s, t, i))
  {
    assert ThreadOk(cfg, s, t);
    var s' := StepVerify(cfg, s, t, i);
    forall p | p in s'.probes ensures ProbeOk(cfg, s', p) {
      if p in s.probes {
        assert ProbeOk(cfg, s, p);
      }
    }
  }

  lemma ProbesVerify(cfg: Config, s: State, t: nat, i: Input)
    requires Inv(cfg, s) && InVerify(PcOf(s, t)) && !PcOf(s, t).Stale?
    ensures ProbesOk(cfg, StepVerify(cfg, s, t, i))
  {
    assert ThreadOk(cfg, s, t);
    ReconnectorStays(cfg, s, t, i);
    var s' := StepVerify(cfg, s, t, i);
    assert s'.probes == s.probes;
    if s.probes != [] {
      assert s.probes[|s.probes| - 1] in s.probes;
    }
  }

  lemma ProbeStarts(cfg: Config, s: State, t: nat, i: Input)
    requires Inv(cfg, s) && PcOf(s, t).Stale?
    ensures ProbesOk(cfg, StepVerify(cfg, s, t, i))
  {
    var s' := StepVerify(cfg, s, t, i);
    var n := |s.probes|;
    assert ThreadOk(cfg, s, t) && ProbeRunning(s');
    forall j | 0 < j < n + 1 ensures Apart(cfg, s'.probes[j - 1], s'.probes[j]) {
      assert s'.probes[j - 1] == s.probes[j - 1];
      if j < n {
        assert s'.probes[j] == s.probes[j];
      } else {
        assert s.probes[j - 1] in s.probes;
      }
    }
  }

  lemma InvVerify(cfg: Config, s: State, t: nat, i: Input)
    requires Inv(cfg, s) && InVerify(PcOf(s, t))
    ensures Inv(cfg, StepVerify(cfg, s, t, i))
  {
    forall u: nat ensures ThreadOk(cfg, StepVerify(cfg, s, t, i), u) {
      if u == t {
        ThreadVerify(cfg, s, t, i);
      } else {
        OthersVerify(cfg, s, t, i, u);
      }
    }
    RecordVerify(cfg, s, t, i);
    if PcOf(s, t).Stale? {
      ProbeStarts(cfg, s, t, i);
    } else {
      ProbesVerify(cfg, s, t, i);
    }
    assert StreakOk(cfg, StepVerify(cfg, s, t, i));
  }

  // Under the reconnect lock: no probe begins or ends.

  /** However a mark goes on, a link verified since the latest probe stays so. */
  lemma SinceProbeStays(cfg: Config, s: State, t: nat, i: Input)
    requires Inv(cfg, s) && InReconnect(PcOf(s, t)) && VerifiedSinceProbe(s)
    ensures VerifiedSinceProbe(StepReconnect(cfg, s, t, i))
  {
    assert ThreadOk(cfg, s, t);
    if s.probes != [] {
      assert s.probes[|s.probes| - 1] in s.probes;
    }
  }

  lemma ThreadReconnect(cfg: Config, s: State, t: nat, i: Input)
    requires Inv(cfg, s) && InReconnect(PcOf(s, t))
    ensures ThreadOk(cfg, StepReconnect(cfg, s, t, i), t)
  {
    assert ThreadOk(cfg, s, t);
    forall p | p in s.probes ensures p.at <= s.now {
      assert ProbeOk(cfg, s, p);
    }
    var pc, s' := PcOf(s, t), StepReconnect(cfg, s, t, i);
    if pc.Stamped? {
      assert s'.verified[|s.verified|] == Verification(pc.at, true);
      assert MarkedSince(s', pc.start);
    } else {
      assert s'.verified == s.verified;
    }
  }

  lemma OthersReconnect(cfg: Config, s: State, t: nat, i: Input, u: nat)
    requires Inv(cfg, s) && InReconnect(PcOf(s, t)) && u != t
    ensures ThreadOk(cfg, StepReconnect(cfg, s, t, i), u)
  {
    assert ThreadOk(cfg, s, t) && ThreadOk(cfg, s, u);
    var s' := StepReconnect(cfg, s, t, i);
    assert PcOf(s', u) == PcOf(s, u) && !InReconnect(PcOf(s, u));
    assert s'.probes == s.probes && s'.now == s.now;
    if VerifiedSinceProbe(s) {
      SinceProbeStays(cfg, s, t, i);
    }
  }

  lemma RecordReconnect(cfg: Config, s: State, t: nat, i: Input)
    requires Inv(cfg, s) && InReconnect(PcOf(s, t))
    ensures RecordOk(cfg, StepReconnect(cfg, s, t, i))
  {
    assert ThreadOk(cfg, s, t);
    var s' := StepReconnect(cfg, s, t, i);
    forall p | p in s'.probes ensures ProbeOk(cfg, s', p) {
      assert ProbeOk(cfg, s, p);
    }
  }

  lemma StreakStays(cfg: Config, s: State, t: nat, i: Input)
    requires Inv(cfg, s) && InReconnect(PcOf(s, t)) && !PcOf(s, t).Noting?
    ensures StreakOk(cfg, StepReconnect(cfg, s, t, i))
  {
    var s' := StepReconnect(cfg, s, t, i);
    assert s'.streak == s.streak && s'.now == s.now;
    assert s'.link.failedReconnects == s.link.failedReconnects && s'.link.notBefore == s.link.notBefore;
  }

  lemma StreakNoted(cfg: Config, s: State, t: nat, i: Input)
    requires Inv(cfg, s) && PcOf(s, t).Noting?
    ensures StreakOk(cfg, StepReconnect(cfg, s, t, i))
  {
    assert ThreadOk(cfg, s, t);
  }

  lemma ProbesReconnect(cfg: Config, s: State, t: nat, i: Input)
    requires Inv(cfg, s) && InReconnect(PcOf(s, t))
    ensures ProbesOk(cfg, StepReconnect(cfg, s, t, i))
  {
    assert ThreadOk(cfg, s, t);
    var s' := StepReconnect(cfg, s, t, i);
    assert s'.probes == s.probes && s'.verifyLock == s.verifyLock;
    assert ProbeRunning(s') == ProbeRunning(s);
    if VerifiedSinceProbe(s) {
      SinceProbeStays(cfg, s, t, i);
    }
  }

  lemma InvReconnect(cfg: Config, s: State, t: nat, i: Input)
    requires Inv(cfg, s) && InReconnect(PcOf(s, t))
    ensures Inv(cfg, StepReconnect(cfg, s, t, i))
  {
    forall u: nat ensures ThreadOk(cfg, StepReconnect(cfg, s, t, i), u) {
      if u == t {
        ThreadReconnect(cfg, s, t, i);
      } else {
        OthersReconnect(cfg, s, t, i, u);
      }
    }
    RecordReconnect(cfg, s, t, i);
    ProbesReconnect(cfg, s, t, i);
    if PcOf(s, t).Noting? {
      StreakNoted(cfg, s, t, i);
    } else {
      StreakStays(cfg, s, t, i);
    }
  }

  lemma ThreadElsewhere(cfg: Config, s: State, a: Action, u: nat)
    requires Inv(cfg, s) && !a.Step?
    ensures ThreadOk(cfg, Apply(cfg, s, a), u)
  {
    assert ThreadOk(cfg, s, u);
  }

  lemma RecordElsewhere(cfg: Config, s: State, a: Action)
    requires Inv(cfg, s) && !a.Step?
    ensures StreakOk(cfg, Apply(cfg, s, a)) && RecordOk(cfg, Apply(cfg, s, a)) && ProbesOk(cfg, Apply(cfg, s, a))
  {
    var s' := Apply(cfg, s, a);
    assert ProbeRunning(s') == ProbeRunning(s);
    forall p | p in s'.probes ensures ProbeOk(cfg, s', p) {
      assert ProbeOk(cfg, s, p);
    }
  }

  lemma InvStep(cfg: Config, s: State, a: Action)
    requires Inv(cfg, s)
    ensures Inv(cfg, Apply(cfg, s, a))
  {
    match a
    case Step(t, i) =>
      if InReconnect(PcOf(s, t)) {
        InvReconnect(cfg, s, t, i);
      } else if InVerify(PcOf(s, t)) {
        InvVerify(cfg, s, t, i);
      } else {
        InvOutside(cfg, s, t);
      }
    case _ =>
      forall u: nat ensures ThreadOk(cfg, Apply(cfg, s, a), u) {
        ThreadElsewhere(cfg, s, a, u);
      }
      RecordElsewhere(cfg, s, a);
  }

  lemma {:induction false} InvHolds(cfg: Config, run: seq<Action>)
    ensures Inv(cfg, After(cfg, run))
  {
    if run != [] {
      InvHolds(cfg, run[..|run| - 1]);
      InvStep(cfg, After(cfg, run[..|run| - 1]), run[|run| - 1]);
    }
  }

  // ---------------------------------------------------------------------------------------
  // What holds in every run
  // ---------------------------------------------------------------------------------------

  /** At most one thread is in the reconnect section, and at most one verifies. */
  lemma {:induction false} SingleFlight(cfg: Config, run: seq<Action>, t: nat, u: nat)
    requires var s := After(cfg, run);
      || (InReconnect(PcOf(s, t)) && InReconnect(PcOf(s, u)))
      || (InVerify(PcOf(s, t)) && InVerify(PcOf(s, u)))
    ensures t == u
  {
    InvHolds(cfg, run);
    assert ThreadOk(cfg, After(cfg, run), t) && ThreadOk(cfg, After(cfg, run), u);
  }

  /** No request-driven `initialize` ever starts inside the back-off window. */
  lemma {:induction false} NoEarlyReconnect(cfg: Config, run: seq<Action>)
    ensures forall i :: 0 <= i < |After(cfg, run).inits| ==> After(cfg, run).inits[i].notBefore <= After(cfg, run).inits[i].at
  {
    InvHolds(cfg, run);
  }

  /** ... nor on a session that is connected: whoever waited for the lock looks again. */
  lemma {:induction false} ConnectedIsLeftAlone(cfg: Config, run: seq<Action>, a: Action)
    requires Apply(cfg, After(cfg, run), a).inits != After(cfg, run).inits
    ensures After(cfg, run).link.status != Connected
  {
    InvHolds(cfg, run);
    assert ThreadOk(cfg, After(cfg, run), a.thread);
  }

  /** A caller that finds another one reconnecting answers False at once, and changes nothing. */
  lemma {:induction false} BusyFailsFast(cfg: Config, run: seq<Action>, t: nat, u: nat, i: Input)
    requires PcOf(After(cfg, run), t).WantReconnectLock? && InReconnect(PcOf(After(cfg, run), u))
    ensures var s := After(cfg, run);
      Apply(cfg, s, Step(t, i)) == s.(pcs := s.pcs[t := Returned(false)])
  {
    InvHolds(cfg, run);
    assert ThreadOk(cfg, After(cfg, run), u);
  }

  /** A reconnect succeeds only if it marked the session after it began, and the reconciliation then passed. */
  lemma {:induction false} SuccessIsReconciled(cfg: Config, run: seq<Action>, t: nat, start: real, i: Input)
    requires !PcOf(After(cfg, run), t).Noting?
    requires PcOf(Apply(cfg, After(cfg, run), Step(t, i)), t) == Noting(start, true)
    ensures var s := After(cfg, run);
      && PcOf(s, t) == Reconciling(start) && i == Yes
      && exists k :: 0 <= k < |s.verified| && s.verified[k].mark && s.verified[k].at >= start
  {
    InvHolds(cfg, run);
    assert ThreadOk(cfg, After(cfg, run), t);
  }

  /** What noting an outcome leaves behind: a failure a dropped session and a longer wait, a success no wait. */
  lemma {:induction false} OutcomeIsNoted(cfg: Config, run: seq<Action>, t: nat, start: real, ok: bool, i: Input)
    requires PcOf(After(cfg, run), t) == Noting(start, ok)
    ensures var s, s' := After(cfg, run), Apply(cfg, After(cfg, run), Step(t, i));
      && PcOf(s', t) == Unlocking(Some(ok))
      && (ok ==> s'.link == Link(s.link.status, s.link.lastVerifiedAt, 0, 0.0))
      && (!ok ==> var k := s.link.failedReconnects + 1;
                  s'.link == Link(Disconnected, s.link.lastVerifiedAt, k, s.now + Wait(cfg, k)))
  {
    InvHolds(cfg, run);
    assert ThreadOk(cfg, After(cfg, run), t);
  }

  /** The window is open for exactly the wait that the number of failures in a row calls for. */
  lemma {:induction false} WindowAfterFailures(cfg: Config, run: seq<Action>)
    ensures var s := After(cfg, run);
      && s.link.failedReconnects == |s.streak|
      && (s.streak == [] ==> s.link.notBefore == 0.0)
      && (s.streak != [] ==> s.link.notBefore == s.streak[|s.streak| - 1].end + Wait(cfg, |s.streak|))
  {
    InvHolds(cfg, run);
  }

  lemma {:induction false} SpanAtLeast(cfg: Config, s: State, n: nat)
    requires StreakOk(cfg, s) && n < |s.streak|
    ensures n > 0 ==> s.streak[n].start - s.streak[0].end >= SumWaits(cfg, n)
  {
    if n > 1 {
      SpanAtLeast(cfg, s, n - 1);
    }
  }

  /** n+1 failures in a row stretch over at least the first n waits. */
  lemma {:induction false} FailuresSpreadOut(cfg: Config, run: seq<Action>, n: nat)
    requires 0 < n < |After(cfg, run).streak|
    ensures var f := After(cfg, run).streak; f[n].start - f[0].end >= SumWaits(cfg, n)
  {
    InvHolds(cfg, run);
    SpanAtLeast(cfg, After(cfg, run), n);
  }

  lemma {:induction false} ProbesInOrder(cfg: Config, s: State, i: nat, j: nat)
    requires ProbesOk(cfg, s) && i <= j < |s.probes|
    ensures s.probes[i].at <= s.probes[j].at
  {
    if i < j {
      ProbesInOrder(cfg, s, i, j - 1);
      assert Apart(cfg, s.probes[j - 1], s.probes[j]);
    }
  }

  /**
   A live probe starts at most once per TTL: it is that far from every earlier one, unless its
   re-test fell into a half-made mark, or a mark's clock reading was waiting to be stored when
   the latest earlier probe started.
   */
  lemma {:induction false} ProbesFarApart(cfg: Config, run: seq<Action>, i: nat, j: nat)
    requires i < j < |After(cfg, run).probes|
    requires !After(cfg, run).probes[j].halfMarked && !After(cfg, run).probes[j - 1].duringStamp
    ensures After(cfg, run).probes[j].at - After(cfg, run).probes[i].at >= cfg.verifyTtl
  {
    InvHolds(cfg, run);
    var s := After(cfg, run);
    ProbesInOrder(cfg, s, i, j - 1);
    assert Apart(cfg, s.probes[j - 1], s.probes[j]);
  }

  /** So a probe is too close to an earlier one exactly if it is to the latest, and one of the two happened. */
  lemma {:induction false} CloseProbesCondition(cfg: Config, run: seq<Action>, j: nat)
    requires 0 < j < |After(cfg, run).probes|
    ensures var ps := After(cfg, run).probes;
      (exists i :: 0 <= i < j && ps[j].at - ps[i].at < cfg.verifyTtl)
      <==> (ps[j].halfMarked || ps[j - 1].duringStamp) && ps[j].at - ps[j - 1].at < cfg.verifyTtl
  {
    var ps := After(cfg, run).probes;
    if i :| 0 <= i < j && ps[j].at - ps[i].at < cfg.verifyTtl {
      InvHolds(cfg, run);
      ProbesInOrder(cfg, After(cfg, run), i, j - 1);
      assert Apart(cfg, ps[j - 1], ps[j]);
    }
  }

  /** A probe starts at least the TTL after the verification in force at the re-test before it. */
  lemma {:induction false} ProbeSpacing(cfg: Config, run: seq<Action>, p: Probe)
    requires p in After(cfg, run).probes && p.known > 0
    ensures p.known <= |After(cfg, run).verified|
    ensures p.at - After(cfg, run).verified[p.known - 1].at >= cfg.verifyTtl
  {
    InvHolds(cfg, run);
    assert ProbeOk(cfg, After(cfg, run), p);
  }

  /**
   Whatever was stored between the re-test and the call is a reconnect's mark. Whatever was
   stored later is no older than the call, except marks if one was waiting to be stored.
   */
  lemma {:induction false} OnlyMarksSlipIn(cfg: Config, run: seq<Action>, p: Probe, k: nat)
    requires p in After(cfg, run).probes && p.known <= k < |After(cfg, run).verified|
    ensures var v := After(cfg, run).verified[k];
      if k < p.seen then v.mark else p.at <= v.at || (v.mark && p.duringStamp)
  {
    InvHolds(cfg, run);
    assert ProbeOk(cfg, After(cfg, run), p);
  }

  /** Verification `k` is less than a TTL old when `p` starts. */
  predicate YoungAt(cfg: Config, s: State, p: Probe, k: nat) {
    k < |s.verified| && p.at - s.verified[k].at < cfg.verifyTtl
  }

  /** Verification `k` was stored before the re-test of `p`, and by then replaced with an older time. */
  predicate PutBack(s: State, p: Probe, k: nat) {
    k < p.known <= |s.verified| && s.verified[p.known - 1].at < s.verified[k].at
  }

  /** Verification `k` is a reconnect's mark that was stored between the re-test of `p` and its start. */
  predicate SlippedIn(s: State, p: Probe, k: nat) {
    p.known <= k < p.seen && k < |s.verified| && s.verified[k].mark
  }

  /** A probe follows a verification stored before it by the TTL, unless that was put back or slipped in. */
  lemma {:induction false} ProbeFollows(cfg: Config, run: seq<Action>, p: Probe, k: nat)
    requires p in After(cfg, run).probes && k < p.seen
    requires !PutBack(After(cfg, run), p, k) && !SlippedIn(After(cfg, run), p, k)
    ensures !YoungAt(cfg, After(cfg, run), p, k)
  {
    InvHolds(cfg, run);
    assert ProbeOk(cfg, After(cfg, run), p);
  }

  /** So a probe starts too soon after some verification exactly if a young one was put back or slipped in. */
  lemma {:induction false} EarlyProbeCondition(cfg: Config, run: seq<Action>, p: Probe)
    requires p in After(cfg, run).probes
    ensures var s := After(cfg, run);
      (exists k: nat :: k < p.seen && YoungAt(cfg, s, p, k))
      <==> (exists k: nat :: YoungAt(cfg, s, p, k) && (PutBack(s, p, k) || SlippedIn(s, p, k)))
  {
    InvHolds(cfg, run);
    var s := After(cfg, run);
    assert ProbeOk(cfg, s, p);
    if k: nat :| k < p.seen && YoungAt(cfg, s, p, k) {
      if !PutBack(s, p, k) && !SlippedIn(s, p, k) {
        ProbeFollows(cfg, run, p, k);
      }
    }
  }

  lemma WaitDoubles(base: real, k: nat)
    requires base > 0.0
    ensures base * Pow2(k) as real < base * Pow2(k + 1) as real
  {
    var p := Pow2(k) as real;
    assert Pow2(k + 1) as real == p + p;
    assert base * (p + p) == base * p + base * p;
    assert base * p > 0.0;
  }

  /** While the cap is out of reach, k failures in a row cost base * (2^k - 1) of waiting. */
  lemma {:induction false} UncappedWaits(cfg: Config, n: nat)
    requires cfg.cooldownBase > 0.0
    requires n > 0 ==> cfg.cooldownBase * Pow2(n - 1) as real < cfg.cooldownMax
    ensures SumWaits(cfg, n) == Backoff(cfg.cooldownBase, n)
  {
    if n > 0 {
      if n > 1 {
        WaitDoubles(cfg.cooldownBase, n - 2);
      }
      UncappedWaits(cfg, n - 1);
      assert Wait(cfg, n) == cfg.cooldownBase * Pow2(n - 1) as real;
    }
  }

  // ---------------------------------------------------------------------------------------
  // The exceptions to probe spacing are real
  // ---------------------------------------------------------------------------------------

  ghost predicate Reachable(cfg: Config, s: State) {
    exists run :: After(cfg, run) == s
  }

  lemma ReachNext(cfg: Config, s: State, a: Action)
    requires Reachable(cfg, s)
    ensures Reachable(cfg, Apply(cfg, s, a))
  {
    var run :| After(cfg, run) == s;
    assert (run + [a])[..|run|] == run;
    assert After(cfg, run + [a]) == Apply(cfg, s, a);
  }

  lemma Moved(cfg: Config, s: State, t: nat, i: Input) returns (s': State)
    requires Reachable(cfg, s)
    ensures s' == Apply(cfg, s, Step(t, i)) && Reachable(cfg, s')
  {
    ReachNext(cfg, s, Step(t, i));
    s' := Apply(cfg, s, Step(t, i));
  }

  /** `t` alone takes `n` steps, and meets the same answer in each. */
  function Solo(cfg: Config, s: State, t: nat, i: Input, n: nat): State {
    if n == 0 then s else Apply(cfg, Solo(cfg, s, t, i, n - 1), Step(t, i))
  }

  /** While no one else moves, `t` gets from `s` to `s'`. */
  ghost predicate Alone(cfg: Config, s: State, t: nat, i: Input, s': State) {
    exists n: nat :: Solo(cfg, s, t, i, n) == s'
  }

  lemma AloneStart(cfg: Config, s: State, t: nat, i: Input)
    ensures Alone(cfg, s, t, i, s)
  {
    assert Solo(cfg, s, t, i, 0) == s;
  }

  lemma Went(cfg: Config, from: State, s: State, t: nat, i: Input) returns (s': State)
    requires Alone(cfg, from, t, i, s)
    ensures s' == Apply(cfg, s, Step(t, i)) && Alone(cfg, from, t, i, s')
  {
    var n: nat :| Solo(cfg, from, t, i, n) == s;
    s' := Apply(cfg, s, Step(t, i));
    assert Solo(cfg, from, t, i, n + 1) == s';
  }

  lemma {:induction false} SoloReachable(cfg: Config, s: State, t: nat, i: Input, n: nat)
    requires Reachable(cfg, s)
    ensures Reachable(cfg, Solo(cfg, s, t, i, n))
  {
    if n > 0 {
      SoloReachable(cfg, s, t, i, n - 1);
      ReachNext(cfg, Solo(cfg, s, t, i, n - 1), Step(t, i));
    }
  }

  lemma AloneReachable(cfg: Config, s: State, t: nat, i: Input, s': State)
    requires Reachable(cfg, s) && Alone(cfg, s, t, i, s')
    ensures Reachable(cfg, s')
  {
    var n: nat :| Solo(cfg, s, t, i, n) == s';
    SoloReachable(cfg, s, t, i, n);
  }

  lemma Timed(cfg: Config, from: State, s: State, t: nat, i: Input) returns (s': State)
    requires Alone(cfg, from, t, i, s) && Free(PcOf(s, t)) && s.link.status == Connected
    ensures Alone(cfg, from, t, i, s') && s' == Goto(s, t, TestTime(s.now))
  {
    s' := Went(cfg, from, s, t, i);
    assert s' == Goto(s, t, TestFresh);
    s' := Went(cfg, from, s', t, i);
  }

  /** The fast path: a connected session verified less than a TTL ago is taken as it is. */
  lemma Tested(cfg: Config, from: State, s: State, t: nat, i: Input) returns (s': State)
    requires Alone(cfg, from, t, i, s) && Free(PcOf(s, t)) && s.link.status == Connected
    ensures Alone(cfg, from, t, i, s')
    ensures s' == Goto(s, t, if s.now - s.link.lastVerifiedAt < cfg.verifyTtl then Returned(true) else WantVerifyLock)
  {
    s' := Timed(cfg, from, s, t, i);
    s' := Went(cfg, from, s', t, i);
  }

  lemma LockedToVerify(cfg: Config, from: State, s: State, t: nat, i: Input) returns (s': State)
    requires Alone(cfg, from, t, i, s) && PcOf(s, t).WantVerifyLock? && s.verifyLock.None?
    ensures Alone(cfg, from, t, i, s') && s' == Goto(s, t, Verifying).(verifyLock := Some(t))
  {
    s' := Went(cfg, from, s, t, i);
  }

  /** Otherwise the thread takes the verify lock, and looks again. */
  lemma Retimed(cfg: Config, from: State, s: State, t: nat, i: Input) returns (s': State)
    requires Alone(cfg, from, t, i, s) && PcOf(s, t).Verifying? && s.link.status == Connected
    ensures Alone(cfg, from, t, i, s') && s' == Goto(s, t, RetestTime(s.now))
  {
    s' := Went(cfg, from, s, t, i);
    assert s' == Goto(s, t, Retesting);
    s' := Went(cfg, from, s', t, i);
  }

  lemma RetestFailed(cfg: Config, from: State, s: State, t: nat, i: Input) returns (s': State)
    requires Alone(cfg, from, t, i, s) && PcOf(s, t) == RetestTime(s.now)
    requires s.now - s.link.lastVerifiedAt >= cfg.verifyTtl
    ensures Alone(cfg, from, t, i, s') && s' == Goto(s, t, Stale(|s.verified|, HalfMarked(s)))
  {
    s' := Went(cfg, from, s, t, i);
  }

  /** A thread that doubts the verification gets as far as the probe. */
  lemma Doubted(cfg: Config, s: State, t: nat, i: Input) returns (s': State)
    requires Free(PcOf(s, t)) && s.link.status == Connected && s.now - s.link.lastVerifiedAt >= cfg.verifyTtl
    requires s.verifyLock.None?
    ensures Alone(cfg, s, t, i, s') && s' == Goto(s, t, Stale(|s.verified|, HalfMarked(s))).(verifyLock := Some(t))
    ensures StampPending(s') == StampPending(s)
  {
    AloneStart(cfg, s, t, i);
    s' := Tested(cfg, s, s, t, i);
    s' := LockedToVerify(cfg, s, s', t, i);
    s' := Retimed(cfg, s, s', t, i);
    assert s' == Goto(s, t, RetestTime(s.now)).(verifyLock := Some(t));
    assert HalfMarked(s') == HalfMarked(s);
    s' := RetestFailed(cfg, s, s', t, i);
  }

  /** A probe started now. */
  function WithProbe(s: State, known: nat, half: bool): State {
    s.(probes := s.probes + [Probe(s.now, known, |s.verified|, half, StampPending(s))])
  }

  lemma ProbeBegun(cfg: Config, from: State, s: State, t: nat, i: Input) returns (s': State)
    requires Alone(cfg, from, t, i, s) && PcOf(s, t).Stale?
    ensures Alone(cfg, from, t, i, s')
    ensures s' == Goto(WithProbe(s, PcOf(s, t).known, PcOf(s, t).halfMarked), t, Probing)
  {
    s' := Went(cfg, from, s, t, i);
  }

  /** An answer counts as a verification ... */
  lemma ProbeAlive(cfg: Config, from: State, s: State, t: nat) returns (s': State)
    requires Alone(cfg, from, t, Yes, s) && PcOf(s, t).Probing?
    ensures Alone(cfg, from, t, Yes, s') && s' == Goto(Store(s, s.now, false), t, LeavingVerify(true))
  {
    s' := Went(cfg, from, s, t, Yes);
    assert s' == Goto(s, t, Answered(s.now));
    s' := Went(cfg, from, s', t, Yes);
  }

  /** ... and none drops the session. */
  lemma ProbeDead(cfg: Config, from: State, s: State, t: nat) returns (s': State)
    requires Alone(cfg, from, t, No, s) && PcOf(s, t).Probing?
    ensures Alone(cfg, from, t, No, s') && s' == Goto(Dropped(s), t, LeavingVerify(false))
  {
    s' := Went(cfg, from, s, t, No);
  }

  lemma VerifyLeft(cfg: Config, from: State, s: State, t: nat, i: Input) returns (s': State)
    requires Alone(cfg, from, t, i, s) && PcOf(s, t).LeavingVerify?
    ensures Alone(cfg, from, t, i, s')
    ensures s' == Goto(s, t, if PcOf(s, t).ok then Returned(true) else TestCooldown).(verifyLock := None)
  {
    s' := Went(cfg, from, s, t, i);
  }

  /** Inside the back-off window the answer is False ... */
  lemma Cooled(cfg: Config, from: State, s: State, t: nat, i: Input) returns (s': State)
    requires Alone(cfg, from, t, i, s) && PcOf(s, t).TestCooldown? && s.now < s.link.notBefore
    ensures Alone(cfg, from, t, i, s') && s' == Goto(s, t, Returned(false))
  {
    s' := Went(cfg, from, s, t, i);
  }

  lemma Locked(cfg: Config, from: State, s: State, t: nat, i: Input) returns (s': State)
    requires Alone(cfg, from, t, i, s) && PcOf(s, t).TestCooldown?
    requires s.now >= s.link.notBefore && s.reconnectLock.None?
    ensures Alone(cfg, from, t, i, s') && s' == Goto(s, t, Holding).(reconnectLock := Some(t))
  {
    s' := Went(cfg, from, s, t, i);
    assert s' == Goto(s, t, WantReconnectLock);
    s' := Went(cfg, from, s', t, i);
  }

  /** ... and outside a thread that finds the session down is cleared to reconnect. */
  lemma GotCleared(cfg: Config, from: State, s: State, t: nat, i: Input) returns (s': State)
    requires Alone(cfg, from, t, i, s) && PcOf(s, t).TestCooldown?
    requires s.now >= s.link.notBefore && s.reconnectLock.None? && s.link.status != Connected
    ensures Alone(cfg, from, t, i, s') && s' == Goto(s, t, Cleared).(reconnectLock := Some(t))
  {
    s' := Locked(cfg, from, s, t, i);
    var held := s.(reconnectLock := Some(t));
    assert s' == Goto(held, t, Holding);
    s' := Went(cfg, from, s', t, i);
    assert s' == Goto(held, t, RetestCooldown);
    s' := Went(cfg, from, s', t, i);
  }

  lemma Reconsidered(cfg: Config, from: State, s: State, t: nat, i: Input) returns (s': State)
    requires Alone(cfg, from, t, i, s) && PcOf(s, t).Holding?
    requires s.link.status == Connected || s.now < s.link.notBefore
    ensures Alone(cfg, from, t, i, s') && s' == Goto(s, t, Unlocking(Some(s.link.status == Connected)))
  {
    s' := Went(cfg, from, s, t, i);
    if s.link.status != Connected {
      assert s' == Goto(s, t, RetestCooldown);
      s' := Went(cfg, from, s', t, i);
    }
  }

  lemma Released(cfg: Config, from: State, s: State, t: nat, i: Input) returns (s': State)
    requires Alone(cfg, from, t, i, s) && PcOf(s, t).Unlocking? && PcOf(s, t).answer.Some?
    ensures Alone(cfg, from, t, i, s') && s' == Goto(s, t, Returned(PcOf(s, t).answer.value)).(reconnectLock := None)
  {
    s' := Went(cfg, from, s, t, i);
  }

  /**
   A caller that gets the lock after another one is done: it is told True if the session is up
   by now, False if the back-off has begun, and initializes nothing.
   */
  lemma LateComer(cfg: Config, s: State, t: nat, i: Input) returns (s': State)
    requires PcOf(s, t).WantReconnectLock? && s.reconnectLock.None?
    requires s.link.status == Connected || s.now < s.link.notBefore
    ensures Alone(cfg, s, t, i, s') && s' == Goto(s, t, Returned(s.link.status == Connected))
  {
    AloneStart(cfg, s, t, i);
    s' := Went(cfg, s, s, t, i);
    assert s' == Goto(s, t, Holding).(reconnectLock := Some(t));
    s' := Reconsidered(cfg, s, s', t, i);
    s' := Released(cfg, s, s', t, i);
  }

  /** What a call makes of a session before it thinks of reconnecting. */
  function Judged(cfg: Config, s: State, alive: bool): State {
    if s.link.status != Connected || s.now - s.link.lastVerifiedAt < cfg.verifyTtl then s
    else if alive then Store(WithProbe(s, |s.verified|, HalfMarked(s)), s.now, false)
    else Dropped(WithProbe(s, |s.verified|, HalfMarked(s)))
  }

  lemma DoubtedAlone(cfg: Config, s: State, t: nat, alive: bool) returns (s': State)
    requires Free(PcOf(s, t)) && s.link.status == Connected && s.now - s.link.lastVerifiedAt >= cfg.verifyTtl
    requires s.verifyLock.None?
    ensures Alone(cfg, s, t, if alive then Yes else No, s')
    ensures s' == Goto(Judged(cfg, s, alive), t, if alive then Returned(true) else TestCooldown)
  {
    var i := if alive then Yes else No;
    s' := Doubted(cfg, s, t, i);
    s' := ProbeBegun(cfg, s, s', t, i);
    assert s' == Goto(WithProbe(s, |s.verified|, HalfMarked(s)), t, Probing).(verifyLock := Some(t));
    if alive {
      s' := ProbeAlive(cfg, s, s', t);
    } else {
      s' := ProbeDead(cfg, s, s', t);
    }
    s' := VerifyLeft(cfg, s, s', t, i);
  }

  lemma JudgedAlone(cfg: Config, s: State, t: nat, alive: bool) returns (s': State)
    requires Free(PcOf(s, t)) && s.verifyLock.None?
    ensures Alone(cfg, s, t, if alive then Yes else No, s')
    ensures var usable := s.link.status == Connected && (s.now - s.link.lastVerifiedAt < cfg.verifyTtl || alive);
      s' == Goto(Judged(cfg, s, alive), t, if usable then Returned(true) else TestCooldown)
  {
    var i := if alive then Yes else No;
    AloneStart(cfg, s, t, i);
    if s.link.status != Connected {
      s' := Went(cfg, s, s, t, i);
    } else if s.now - s.link.lastVerifiedAt < cfg.verifyTtl {
      s' := Tested(cfg, s, s, t, i);
    } else {
      s' := DoubtedAlone(cfg, s, t, alive);
    }
  }

  /**
   A call that no one disturbs, from any state: a fresh session costs nothing; a stale one
   costs one probe, whose answer decides; a dead or missing one leads to the answer False
   inside the back-off window, and to a reconnect outside.
   */
  lemma CallAlone(cfg: Config, s: State, t: nat, alive: bool) returns (s': State)
    requires Free(PcOf(s, t)) && s.verifyLock.None? && s.reconnectLock.None?
    ensures Alone(cfg, s, t, if alive then Yes else No, s')
    ensures var usable := s.link.status == Connected && (s.now - s.link.lastVerifiedAt < cfg.verifyTtl || alive);
      var judged := Judged(cfg, s, alive);
      s' == if usable then Goto(judged, t, Returned(true))
            else if s.now < s.link.notBefore then Goto(judged, t, Returned(false))
            else Goto(judged, t, Cleared).(reconnectLock := Some(t))
  {
    var i := if alive then Yes else No;
    s' := JudgedAlone(cfg, s, t, alive);
    if PcOf(s', t).TestCooldown? {
      if s.now < s.link.notBefore {
        s' := Cooled(cfg, s, s', t, i);
      } else {
        s' := GotCleared(cfg, s, s', t, i);
      }
    }
  }

  /** A thread that doubts the verification stops short of the probe. */
  lemma FoundStale(cfg: Config, s: State, t: nat) returns (s': State)
    requires Reachable(cfg, s) && Free(PcOf(s, t))
    requires s.link.status.Connected? && !VerificationFresh(cfg, s.link, s.now) && s.verifyLock.None?
    ensures Reachable(cfg, s') && s' == Goto(s, t, Stale(|s.verified|, HalfMarked(s))).(verifyLock := Some(t))
  {
    s' := Doubted(cfg, s, t, Yes);
    AloneReachable(cfg, s, t, Yes, s');
  }

  /** A thread that finds the session down, outside the back-off, is cleared to reconnect ... */
  lemma DownCleared(cfg: Config, s: State, t: nat) returns (s': State)
    requires Reachable(cfg, s) && Free(PcOf(s, t))
    requires s.link.status.Disconnected? && s.link.notBefore <= s.now && s.reconnectLock.None?
    ensures Reachable(cfg, s') && s' == Goto(s, t, Cleared).(reconnectLock := Some(t))
  {
    AloneStart(cfg, s, t, Yes);
    s' := Went(cfg, s, s, t, Yes);
    assert s' == Goto(s, t, TestCooldown);
    s' := GotCleared(cfg, s, s', t, Yes);
    AloneReachable(cfg, s, t, Yes, s');
  }

  /** ... gets as far as a status without a time ... */
  lemma HalfReattached(cfg: Config, s: State, t: nat) returns (s': State)
    requires Reachable(cfg, s) && Free(PcOf(s, t))
    requires s.link.status.Disconnected? && s.link.notBefore <= s.now && s.reconnectLock.None?
    ensures Reachable(cfg, s')
    ensures s' == Goto(s, t, Marking(s.now)).(link := s.link.(status := Connected),
                    reconnectLock := Some(t), inits := s.inits + [Init(s.now, s.link.notBefore)])
  {
    s' := DownCleared(cfg, s, t);
    var held := s.(reconnectLock := Some(t), inits := s.inits + [Init(s.now, s.link.notBefore)]);
    s' := Moved(cfg, s', t, Yes);
    assert s' == Goto(held, t, Initializing(s.now, false));
    s' := Moved(cfg, s', t, Input.Mark(Connected));
  }

  /** ... and as a marked session. */
  lemma Reattached(cfg: Config, s: State, t: nat) returns (s': State)
    requires Reachable(cfg, s) && Free(PcOf(s, t))
    requires s.link.status.Disconnected? && s.link.notBefore <= s.now && s.reconnectLock.None?
    ensures Reachable(cfg, s')
    ensures s' == Goto(Store(s.(link := s.link.(status := Connected)), s.now, true), t, Initializing(s.now, true)).(
                    reconnectLock := Some(t), inits := s.inits + [Init(s.now, s.link.notBefore)])
  {
    s' := HalfReattached(cfg, s, t);
    var marking := s';
    s' := Moved(cfg, s', t, Yes);
    assert s' == Goto(marking, t, Stamped(s.now, s.now));
    s' := Moved(cfg, s', t, Yes);
  }

  /** ... reconciles ... */
  lemma Reconciled(cfg: Config, s: State, t: nat) returns (s': State)
    requires Reachable(cfg, s) && PcOf(s, t) == Initializing(s.now, true)
    ensures Reachable(cfg, s') && s' == Goto(s, t, Noting(s.now, true))
  {
    s' := Moved(cfg, s, t, Yes);
    assert s' == Goto(s, t, Reconciling(s.now));
    s' := Moved(cfg, s', t, Yes);
  }

  /** ... notes the success and releases the lock. */
  lemma Reconnected(cfg: Config, s: State, t: nat) returns (s': State)
    requires Reachable(cfg, s) && PcOf(s, t) == Initializing(s.now, true)
    ensures Reachable(cfg, s')
    ensures s' == Goto(s, t, Returned(true)).(reconnectLock := None, streak := [], link := NoteOutcome(cfg, s.link, true, s.now))
  {
    s' := Reconciled(cfg, s, t);
    s' := Moved(cfg, s', t, Yes);
    var noted := s.(streak := [], link := NoteOutcome(cfg, s.link, true, s.now));
    assert s' == Goto(noted, t, Unlocking(Some(true)));
    s' := Moved(cfg, s', t, Yes);
  }

  /** Its probe starts ... */
  lemma ProbeStarted(cfg: Config, s: State, t: nat) returns (s': State)
    requires Reachable(cfg, s) && PcOf(s, t).Stale?
    ensures Reachable(cfg, s')
    ensures s' == Goto(s, t, Probing).(
                    probes := s.probes + [Probe(s.now, PcOf(s, t).known, |s.verified|, PcOf(s, t).halfMarked, StampPending(s))])
  {
    s' := Moved(cfg, s, t, Yes);
  }

  /** ... is answered well ... */
  lemma ProbeAnswered(cfg: Config, s: State, t: nat) returns (s': State)
    requires Reachable(cfg, s) && PcOf(s, t).Stale?
    ensures Reachable(cfg, s')
    ensures s' == Goto(s, t, Answered(s.now)).(
                    probes := s.probes + [Probe(s.now, PcOf(s, t).known, |s.verified|, PcOf(s, t).halfMarked, StampPending(s))])
  {
    var probing := ProbeStarted(cfg, s, t);
    s' := Moved(cfg, probing, t, Yes);
    assert s' == Goto(probing, t, Answered(s.now));
  }

  /** ... and the thread stores the answer and leaves. */
  lemma AnswerStored(cfg: Config, s: State, t: nat) returns (s': State)
    requires Reachable(cfg, s) && PcOf(s, t).Answered?
    ensures Reachable(cfg, s') && s' == Goto(Store(s, PcOf(s, t).at, false), t, Returned(true)).(verifyLock := None)
  {
    s' := Moved(cfg, s, t, Yes);
    assert s' == Goto(Store(s, PcOf(s, t).at, false), t, LeavingVerify(true));
    s' := Moved(cfg, s', t, Yes);
  }

  /** Thread 1 holds a stale finding while thread 0 is idle and the link has just dropped. */
  lemma DroppedUnderStale(cfg: Config) returns (s: State)
    requires cfg.verifyTtl > 0.0
    ensures Reachable(cfg, s) && s.now == cfg.verifyTtl
    ensures Free(PcOf(s, 0)) && PcOf(s, 1) == Stale(|s.verified|, false)
    ensures s.link.status.Disconnected? && s.link.notBefore == 0.0 && s.reconnectLock.None?
    ensures PcOf(s, 2).Idle? && s.link.lastVerifiedAt == 0.0 && s.probes == [] && s.verifyLock == Some(1)
  {
    assert After(cfg, []) == Initial;
    s := Initial;
    s := Reattached(cfg, s, 0);
    s := Reconnected(cfg, s, 0);
    ReachNext(cfg, s, Tick(cfg.verifyTtl));
    s := Apply(cfg, s, Tick(cfg.verifyTtl));
    s := FoundStale(cfg, s, 1);
    ReachNext(cfg, s, IpcFailure);
    s := Apply(cfg, s, IpcFailure);
  }

  /** A probe can start the moment after a reconnect marked the session connected. */
  lemma ProbeCanFollowReconnect(cfg: Config)
    requires cfg.verifyTtl > 0.0
    ensures exists run, p, k: nat :: p in After(cfg, run).probes && k < p.seen && YoungAt(cfg, After(cfg, run), p, k)
  {
    var s := DroppedUnderStale(cfg);
    s := Reattached(cfg, s, 0);
    s := Moved(cfg, s, 1, Yes);
    var run :| After(cfg, run) == s;
    var p := s.probes[|s.probes| - 1];
    assert p in After(cfg, run).probes && YoungAt(cfg, After(cfg, run), p, p.seen - 1);
  }

  /** Thread 1 probed a link that had just dropped. */
  lemma ProbeFailed(cfg: Config) returns (s: State)
    requires cfg.verifyTtl > 0.0
    ensures Reachable(cfg, s) && s.now == cfg.verifyTtl && s.verifyLock.None? && s.reconnectLock.None?
    ensures Free(PcOf(s, 0)) && PcOf(s, 1).TestCooldown? && PcOf(s, 2).Idle?
    ensures s.link.status.Disconnected? && s.link.notBefore == 0.0 && s.link.lastVerifiedAt == 0.0
    ensures |s.probes| == 1 && s.probes[0].at == cfg.verifyTtl && !s.probes[0].duringStamp
  {
    s := DroppedUnderStale(cfg);
    s := ProbeStarted(cfg, s, 1);
    var probing := s;
    s := Moved(cfg, s, 1, No);
    assert s == Goto(Dropped(probing), 1, LeavingVerify(false));
    s := Moved(cfg, s, 1, No);
  }

  /** Thread 0 is between the two writes of its mark, just after a probe of thread 1 failed. */
  lemma HalfMarkedAfterProbe(cfg: Config) returns (s: State)
    requires cfg.verifyTtl > 0.0
    ensures Reachable(cfg, s) && s.now == cfg.verifyTtl && HalfMarked(s) && s.link.status.Connected?
    ensures s.link.lastVerifiedAt == 0.0 && s.verifyLock.None? && PcOf(s, 2).Idle?
    ensures |s.probes| == 1 && s.probes[0].at == cfg.verifyTtl && !s.probes[0].duringStamp
  {
    s := ProbeFailed(cfg);
    s := HalfReattached(cfg, s, 0);
  }

  /** So two probes can start in the same instant, for every positive TTL, with no stamp waiting at the first. */
  lemma ProbesCanCollide(cfg: Config)
    requires cfg.verifyTtl > 0.0
    ensures exists run :: var ps := After(cfg, run).probes;
      |ps| == 2 && ps[0].at == ps[1].at && !ps[0].duringStamp
  {
    var s := HalfMarkedAfterProbe(cfg);
    s := FoundStale(cfg, s, 2);
    s := Moved(cfg, s, 2, Yes);
    assert |s.probes| == 2 && s.probes[0].at == s.probes[1].at && !s.probes[0].duringStamp;
    var run :| After(cfg, run) == s;
    assert |After(cfg, run).probes| == 2;
  }

  /** Thread 0 read its clock one TTL in; thread 1 is about to probe half a TTL later. */
  lemma StampedBeforeProbe(cfg: Config) returns (s: State)
    requires cfg.verifyTtl > 0.0
    ensures Reachable(cfg, s) && s.now == 1.5 * cfg.verifyTtl && s.link.status.Connected?
    ensures PcOf(s, 0) == Stamped(cfg.verifyTtl, cfg.verifyTtl) && s.reconnectLock == Some(0)
    ensures PcOf(s, 1) == Stale(|s.verified|, false) && s.verifyLock == Some(1) && s.probes == [] && PcOf(s, 2).Idle?
  {
    s := DroppedUnderStale(cfg);
    s := HalfReattached(cfg, s, 0);
    s := Moved(cfg, s, 0, Yes);
    ReachNext(cfg, s, Tick(1.5 * cfg.verifyTtl));
    s := Apply(cfg, s, Tick(1.5 * cfg.verifyTtl));
  }

  /** ... its probe succeeds, and only then is the older time stored over it. */
  lemma StoredLate(cfg: Config) returns (s: State)
    requires cfg.verifyTtl > 0.0
    ensures Reachable(cfg, s) && s.now == 2.0 * cfg.verifyTtl && s.link.status.Connected? && !HalfMarked(s)
    ensures s.link.lastVerifiedAt == cfg.verifyTtl && s.verifyLock.None? && PcOf(s, 2).Idle?
    ensures |s.probes| == 1 && s.probes[0].at == 1.5 * cfg.verifyTtl
    ensures |s.verified| >= 2 && s.verified[|s.verified| - 2].at == 1.5 * cfg.verifyTtl
  {
    s := StampedBeforeProbe(cfg);
    s := ProbeAnswered(cfg, s, 1);
    s := AnswerStored(cfg, s, 1);
    s := Moved(cfg, s, 0, Yes);
    ReachNext(cfg, s, Tick(2.0 * cfg.verifyTtl));
    s := Apply(cfg, s, Tick(2.0 * cfg.verifyTtl));
  }

  /**
   A mark that stores its time late lets the next probe start too soon after the last one, and
   after that one's verification, although no re-test fell into a half-made mark.
   */
  lemma LateStoreBreaks(cfg: Config)
    requires cfg.verifyTtl > 0.0
    ensures exists run :: var s := After(cfg, run);
      && |s.probes| == 2 && s.probes[1].at - s.probes[0].at < cfg.verifyTtl && !s.probes[1].halfMarked
      && exists k: nat :: k < s.probes[1].known && YoungAt(cfg, s, s.probes[1], k)
  {
    var s := StoredLate(cfg);
    var k := |s.verified| - 2;
    s := FoundStale(cfg, s, 2);
    s := Moved(cfg, s, 2, Yes);
    assert s.probes[1].at - s.probes[0].at < cfg.verifyTtl && !s.probes[1].halfMarked;
    assert YoungAt(cfg, s, s.probes[1], k);
    var run :| After(cfg, run) == s;
    assert |After(cfg, run).probes| == 2;
  }

  /** A thread that marked the session fails in the reconciliation with an error nobody expects ... */
  lemma ReconcileRaised(cfg: Config, s: State, t: nat) returns (s': State)
    requires Reachable(cfg, s) && PcOf(s, t) == Initializing(s.now, true)
    ensures Reachable(cfg, s') && s' == Goto(s, t, Unlocking(None))
  {
    s' := Moved(cfg, s, t, Yes);
    assert s' == Goto(s, t, Reconciling(s.now));
    s' := Moved(cfg, s', t, Raise);
  }

  /** ... which goes on to the caller. */
  lemma RaisedThrough(cfg: Config, s: State, t: nat) returns (s': State)
    requires Reachable(cfg, s) && PcOf(s, t) == Unlocking(None)
    ensures Reachable(cfg, s') && s' == Goto(s, t, Idle).(reconnectLock := None)
  {
    s' := Moved(cfg, s, t, Yes);
  }

  /** Such a reconnect starts no back-off: once the link drops, the next one can begin in the same instant. */
  lemma RaiseStartsNoBackOff(cfg: Config)
    ensures exists run :: |After(cfg, run).inits| == 2 && After(cfg, run).inits[0].at == After(cfg, run).inits[1].at
  {
    assert After(cfg, []) == Initial;
    var s := Reattached(cfg, Initial, 0);
    s := ReconcileRaised(cfg, s, 0);
    s := RaisedThrough(cfg, s, 0);
    ReachNext(cfg, s, IpcFailure);
    s := Apply(cfg, s, IpcFailure);
    s := HalfReattached(cfg, s, 0);
    assert |s.inits| == 2 && s.inits[0].at == s.inits[1].at;
    var run :| After(cfg, run) == s;
    assert |After(cfg, run).inits| == 2;
  }
}
