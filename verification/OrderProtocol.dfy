/**
 `POST /order` as a protocol: any number of requests, interleaved step by step over one
 idempotency store and one clock.

 A request reserves its key, validates, sends once, and then either completes the
 reservation or abandons it. Requests never leave the state, so the state carries the whole
 history of what was sent and with which result.
 */
module OrderProtocol {
  import opened Wrappers
  import opened Idempotency

  /** The retcode classes, plus the two ways `order_send` can come back without a retcode. */
  datatype Outcome = Success | Ambiguous | Retryable | Permanent | NoResult | Raised

  /** Outcomes after which the order may be live at the broker, so the key must stay taken. */
  predicate Kept(o: Outcome) {
    o.Success? || o.Ambiguous? || o.NoResult?
  }

  datatype Send = NotSent | InFlight | Done(outcome: Outcome)

  /**
   Arrived: `begin` not yet called. Turned: `begin` did not grant the key. Reserved: owns
   the reservation. Leaving: on its way to the `finally` clause with nothing completed.
   Closed: reservation completed or abandoned.
   */
  datatype Phase = Arrived | Turned(decision: Decision) | Reserved | Leaving | Closed

  datatype Request = Request(
    key: string,
    fingerprint: string,
    phase: Phase,
    ticket: nat,        // position among all granted reservations
    begunAt: real,      // when `begin` answered
    send: Send,
    reply: Option<StoredResponse>)

  /** `owner` remembers which request was last granted each key. */
  datatype State = State(
    now: real,
    store: Entries,
    requests: map<nat, Request>,
    granted: nat,
    owner: map<string, nat>)

  datatype Action =
    | Tick(to: real)
    | Arrive(id: nat, key: string, fingerprint: string)
    | Reserve(id: nat)
    | SendStart(id: nat)
    | SendEnd(id: nat, outcome: Outcome)
    | Finish(id: nat, response: StoredResponse)
    | Fail(id: nat)
    | Release(id: nat)

  predicate Owns(r: Request) {
    r.phase.Reserved? || r.phase.Leaving?
  }

  predicate WasGranted(r: Request) {
    Owns(r) || r.phase.Closed?
  }

  predicate WasKept(r: Request) {
    r.send.Done? && Kept(r.send.outcome)
  }

  predicate WasRefused(r: Request) {
    r.send.Done? && !Kept(r.send.outcome)
  }

  const Initial := State(0.0, map[], map[], 0, map[])

  predicate Enabled(s: State, a: Action) {
    match a
    case Tick(to) => s.now <= to
    case Arrive(id, _, _) => id !in s.requests
    case Reserve(id) => id in s.requests && s.requests[id].phase.Arrived?
    case SendStart(id) => id in s.requests && s.requests[id].phase.Reserved? && s.requests[id].send.NotSent?
    case SendEnd(id, _) => id in s.requests && s.requests[id].phase.Reserved? && s.requests[id].send.InFlight?
    case Finish(id, _) => id in s.requests && s.requests[id].phase.Reserved? && WasKept(s.requests[id])
    case Fail(id) => id in s.requests && s.requests[id].phase.Reserved? && !s.requests[id].send.InFlight?
    case Release(id) => id in s.requests && s.requests[id].phase.Leaving?
  }

  function With(s: State, id: nat, r: Request): State {
    s.(requests := s.requests[id := r])
  }

  function Apply(ttl: real, s: State, a: Action): State
    requires Enabled(s, a)
  {
    match a
    case Tick(to) => s.(now := to)
    case Arrive(id, key, fp) => With(s, id, Request(key, fp, Arrived, 0, 0.0, NotSent, None))
    case Reserve(id) =>
      var r := s.requests[id];
      var (store, decision) := Began(s.store, ttl, r.key, r.fingerprint, s.now);
      if decision.New? then
        With(s, id, r.(phase := Reserved, ticket := s.granted, begunAt := s.now))
          .(store := store, granted := s.granted + 1, owner := s.owner[r.key := id])
      else
        With(s, id, r.(phase := Turned(decision), begunAt := s.now)).(store := store)
    case SendStart(id) => With(s, id, s.requests[id].(send := InFlight))
    case SendEnd(id, o) => With(s, id, s.requests[id].(send := Done(o)))
    case Finish(id, response) =>
      var r := s.requests[id];
      With(s, id, r.(phase := Closed, reply := Some(response)))
        .(store := Completed(s.store, r.key, r.fingerprint, response))
    case Fail(id) => With(s, id, s.requests[id].(phase := Leaving))
    case Release(id) =>
      var r := s.requests[id];
      With(s, id, r.(phase := Closed)).(store := Abandoned(s.store, r.key, r.fingerprint))
  }

  /** Hypothesis: no request still holding a reservation has reached the TTL. */
  ghost predicate FinishInTime(ttl: real, s: State) {
    forall id :: id in s.requests && Owns(s.requests[id]) ==> s.now - s.requests[id].begunAt < ttl
  }

  /** Hypothesis: the code between a kept send and `complete` does not raise. */
  predicate NoRaiseAfterSend(s: State, a: Action) {
    a.Fail? && a.id in s.requests ==> !WasKept(s.requests[a.id])
  }

  /** `run` can happen, whatever the hypotheses. */
  ghost predicate Possible(ttl: real, run: seq<Action>)
    decreases |run|, 0
  {
    run != [] ==>
      var n := |run| - 1;
      Possible(ttl, run[..n]) && Enabled(After(ttl, run[..n]), run[n])
  }

  ghost function After(ttl: real, run: seq<Action>): State
    requires Possible(ttl, run)
    decreases |run|, 1
  {
    if run == [] then Initial
    else Apply(ttl, After(ttl, run[..|run| - 1]), run[|run| - 1])
  }

  /** Every state of the run keeps `FinishInTime`. */
  ghost predicate AlwaysInTime(ttl: real, run: seq<Action>)
    requires Possible(ttl, run)
  {
    && FinishInTime(ttl, After(ttl, run))
    && (run != [] ==> AlwaysInTime(ttl, run[..|run| - 1]))
  }

  /** Every action of the run keeps `NoRaiseAfterSend`. */
  ghost predicate NeverRaises(ttl: real, run: seq<Action>)
    requires Possible(ttl, run)
  {
    run != [] ==>
      var n := |run| - 1;
      NoRaiseAfterSend(After(ttl, run[..n]), run[n]) && NeverRaises(ttl, run[..n])
  }

  // ---------------------------------------------------------------------------------------
  // The invariant
  // ---------------------------------------------------------------------------------------

  /** A kept reservation still shields its key, or its TTL is over. */
  ghost predicate Shielded(ttl: real, s: State, id: nat)
    requires id in s.requests
  {
    var r := s.requests[id];
    || s.now - r.begunAt >= ttl
    || (&& r.key in s.owner && s.owner[r.key] == id
        && r.key in s.store
        && s.store[r.key] == Entry(r.fingerprint, r.begunAt, r.reply)
        && r.reply.Some?)
  }

  ghost predicate RequestOk(ttl: real, s: State, id: nat)
    requires id in s.requests
  {
    var r := s.requests[id];
    && (WasGranted(r) ==> r.begunAt <= s.now && r.ticket < s.granted && r.key in s.owner)
    && (r.phase.Arrived? || r.phase.Turned? ==> r.send.NotSent?)
    && (r.phase.Leaving? ==> !WasKept(r))
    && (r.reply.Some? ==> r.phase.Closed? && WasKept(r))
    && (!r.phase.Reserved? ==> !r.send.InFlight?)
    && (Owns(r) ==>
          && s.owner[r.key] == id
          && r.key in s.store
          && s.store[r.key] == Entry(r.fingerprint, r.begunAt, None))
    && (r.phase.Closed? && WasKept(r) ==> Shielded(ttl, s, id))
  }

  /** Two reservations of one key: the earlier one is over, and if it was kept, long over. */
  ghost predicate PairOk(ttl: real, r1: Request, r2: Request) {
    WasGranted(r1) && WasGranted(r2) && r1.key == r2.key && r1.ticket <= r2.ticket ==>
      && r1.ticket != r2.ticket
      && r1.phase.Closed?
      && r1.begunAt <= r2.begunAt
      && (WasKept(r1) ==> r2.begunAt - r1.begunAt >= ttl)
  }

  /** A stored entry belongs to the owner of its key, and a stored reply is the owner's own. */
  ghost predicate EntryOk(s: State, key: string)
    requires key in s.store
  {
    && key in s.owner && s.owner[key] in s.requests
    && var r := s.requests[s.owner[key]];
       && WasGranted(r) && r.key == key
       && s.store[key] == Entry(r.fingerprint, r.begunAt, r.reply)
  }

  ghost predicate RequestsOk(ttl: real, s: State) {
    forall id :: id in s.requests ==> RequestOk(ttl, s, id)
  }

  ghost predicate PairsOk(ttl: real, s: State) {
    forall i, j :: i in s.requests && j in s.requests && i != j ==> PairOk(ttl, s.requests[i], s.requests[j])
  }

  ghost predicate EntriesOk(s: State) {
    forall key :: key in s.store ==> EntryOk(s, key)
  }

  ghost predicate Inv(ttl: real, s: State) {
    RequestsOk(ttl, s) && PairsOk(ttl, s) && EntriesOk(s)
  }

  lemma RequestReserve(ttl: real, s: State, id: nat, i: nat)
    requires RequestsOk(ttl, s) && FinishInTime(ttl, s) && Enabled(s, Reserve(id)) && i in s.requests
    ensures RequestOk(ttl, Apply(ttl, s, Reserve(id)), i)
  {
    assert RequestOk(ttl, s, i);
  }

  lemma PairReserve(ttl: real, s: State, id: nat, i: nat, j: nat)
    requires RequestsOk(ttl, s) && PairsOk(ttl, s) && FinishInTime(ttl, s) && Enabled(s, Reserve(id))
    requires i in s.requests && j in s.requests && i != j
    ensures var rs := Apply(ttl, s, Reserve(id)).requests; PairOk(ttl, rs[i], rs[j])
  {
    assert RequestOk(ttl, s, i) && RequestOk(ttl, s, j);
    assert PairOk(ttl, s.requests[i], s.requests[j]);
  }

  lemma InvReserve(ttl: real, s: State, id: nat)
    requires Inv(ttl, s) && FinishInTime(ttl, s) && Enabled(s, Reserve(id))
    ensures Inv(ttl, Apply(ttl, s, Reserve(id)))
  {
    var s' := Apply(ttl, s, Reserve(id));
    forall i | i in s'.requests ensures RequestOk(ttl, s', i) {
      RequestReserve(ttl, s, id, i);
    }
    EntriesReserve(ttl, s, id);
    var rs := s'.requests;
    forall i, j | i in rs && j in rs && i != j ensures PairOk(ttl, rs[i], rs[j]) {
      PairReserve(ttl, s, id, i, j);
    }
  }

  lemma EntriesReserve(ttl: real, s: State, id: nat)
    requires RequestsOk(ttl, s) && EntriesOk(s) && FinishInTime(ttl, s) && Enabled(s, Reserve(id))
    ensures EntriesOk(Apply(ttl, s, Reserve(id)))
  {
    var s' := Apply(ttl, s, Reserve(id));
    assert RequestOk(ttl, s, id);
    forall key | key in s'.store ensures EntryOk(s', key) {
      if key in s.store {
        assert EntryOk(s, key);
      }
    }
  }

  /** What a step other than a grant may do to a request. */
  predicate Kin(r: Request, r': Request) {
    && r'.key == r.key && r'.fingerprint == r.fingerprint && r'.ticket == r.ticket && r'.begunAt == r.begunAt
    && WasGranted(r') == WasGranted(r)
    && (r.phase.Closed? || r.phase.Turned? ==> r' == r)
  }

  lemma KinStep(ttl: real, s: State, a: Action, i: nat)
    requires Enabled(s, a) && !a.Reserve? && i in s.requests
    ensures i in Apply(ttl, s, a).requests && Kin(s.requests[i], Apply(ttl, s, a).requests[i])
  {
  }

  lemma PairsStep(ttl: real, s: State, a: Action)
    requires PairsOk(ttl, s) && Enabled(s, a) && !a.Reserve?
    ensures PairsOk(ttl, Apply(ttl, s, a))
  {
    var rs := Apply(ttl, s, a).requests;
    forall i, j | i in rs && j in rs && i != j ensures PairOk(ttl, rs[i], rs[j]) {
      if i in s.requests && j in s.requests {
        KinStep(ttl, s, a, i);
        KinStep(ttl, s, a, j);
        assert PairOk(ttl, s.requests[i], s.requests[j]);
      }
    }
  }

  /** Completing or abandoning touches the entry of the owner and nothing else. */
  lemma RequestClose(ttl: real, s: State, a: Action, i: nat)
    requires Inv(ttl, s) && FinishInTime(ttl, s) && Enabled(s, a) && (a.Finish? || a.Release?) && i in s.requests
    ensures RequestOk(ttl, Apply(ttl, s, a), i)
  {
    assert RequestOk(ttl, s, a.id) && RequestOk(ttl, s, i);
  }

  lemma InvClose(ttl: real, s: State, a: Action)
    requires Inv(ttl, s) && FinishInTime(ttl, s) && Enabled(s, a) && (a.Finish? || a.Release?)
    ensures Inv(ttl, Apply(ttl, s, a))
  {
    var s' := Apply(ttl, s, a);
    forall i | i in s'.requests ensures RequestOk(ttl, s', i) {
      RequestClose(ttl, s, a, i);
    }
    PairsStep(ttl, s, a);
    assert RequestOk(ttl, s, a.id);
    forall key | key in s'.store ensures EntryOk(s', key) {
      assert EntryOk(s, key);
    }
  }

  /** The other steps leave the store alone. */
  lemma RequestProgress(ttl: real, s: State, a: Action, i: nat)
    requires Inv(ttl, s) && Enabled(s, a) && NoRaiseAfterSend(s, a)
    requires !a.Reserve? && !a.Finish? && !a.Release? && i in Apply(ttl, s, a).requests
    ensures RequestOk(ttl, Apply(ttl, s, a), i)
  {
    assert i in s.requests ==> RequestOk(ttl, s, i);
  }

  lemma InvProgress(ttl: real, s: State, a: Action)
    requires Inv(ttl, s) && Enabled(s, a) && NoRaiseAfterSend(s, a)
    requires !a.Reserve? && !a.Finish? && !a.Release?
    ensures Inv(ttl, Apply(ttl, s, a))
  {
    var s' := Apply(ttl, s, a);
    forall i | i in s'.requests ensures RequestOk(ttl, s', i) {
      RequestProgress(ttl, s, a, i);
    }
    PairsStep(ttl, s, a);
    forall key | key in s'.store ensures EntryOk(s', key) {
      assert EntryOk(s, key);
      KinStep(ttl, s, a, s.owner[key]);
    }
  }

  lemma InvStep(ttl: real, s: State, a: Action)
    requires Inv(ttl, s) && FinishInTime(ttl, s) && Enabled(s, a) && NoRaiseAfterSend(s, a)
    ensures Inv(ttl, Apply(ttl, s, a))
  {
    match a
    case Reserve(id) => InvReserve(ttl, s, id);
    case Finish(_, _) => InvClose(ttl, s, a);
    case Release(_) => InvClose(ttl, s, a);
    case _ => InvProgress(ttl, s, a);
  }

  lemma {:induction false} InvHolds(ttl: real, run: seq<Action>)
    requires Possible(ttl, run) && AlwaysInTime(ttl, run) && NeverRaises(ttl, run)
    ensures Inv(ttl, After(ttl, run))
  {
    if run != [] {
      var n := |run| - 1;
      InvHolds(ttl, run[..n]);
      InvStep(ttl, After(ttl, run[..n]), run[n]);
    }
  }

  // ---------------------------------------------------------------------------------------
  // At most once
  // ---------------------------------------------------------------------------------------

  ghost predicate FarApart(ttl: real, r1: Request, r2: Request) {
    r1.begunAt - r2.begunAt >= ttl || r2.begunAt - r1.begunAt >= ttl
  }

  lemma KeptShieldsKey(ttl: real, s: State, kept: nat, other: nat)
    requires Inv(ttl, s) && kept in s.requests && other in s.requests && kept != other
    requires s.requests[kept].key == s.requests[other].key
    requires WasKept(s.requests[kept]) && !s.requests[other].send.NotSent?
    ensures var k, o := s.requests[kept], s.requests[other];
      FarApart(ttl, k, o) || (WasRefused(o) && o.phase.Closed? && o.ticket < k.ticket)
  {
    assert RequestOk(ttl, s, kept) && RequestOk(ttl, s, other);
    assert PairOk(ttl, s.requests[kept], s.requests[other]);
    assert PairOk(ttl, s.requests[other], s.requests[kept]);
  }

  /**
   Once a send under a key succeeded, or nobody knows that it did not, every other send under
   that key belongs to a reservation at least a TTL away, unless that other send had already
   been refused or raised and its reservation closed before the kept one was granted.
   */
  lemma {:induction false} AtMostOnce(ttl: real, run: seq<Action>, kept: nat, other: nat)
    requires Possible(ttl, run) && AlwaysInTime(ttl, run) && NeverRaises(ttl, run)
    requires kept in After(ttl, run).requests && other in After(ttl, run).requests && kept != other
    requires After(ttl, run).requests[kept].key == After(ttl, run).requests[other].key
    requires var send := After(ttl, run).requests[kept].send;
      send == Done(Success) || send == Done(Ambiguous) || send == Done(NoResult)
    requires After(ttl, run).requests[other].send != NotSent
    ensures var k, o := After(ttl, run).requests[kept], After(ttl, run).requests[other];
      || k.begunAt - o.begunAt >= ttl || o.begunAt - k.begunAt >= ttl
      || (&& (o.send == Done(Retryable) || o.send == Done(Permanent) || o.send == Done(Raised))
          && o.phase.Closed? && o.ticket < k.ticket)
  {
    InvHolds(ttl, run);
    KeptShieldsKey(ttl, After(ttl, run), kept, other);
  }

  /** Two sends that are kept or still in flight never share a key within one TTL. */
  lemma {:induction false} NoTwoLiveOrders(ttl: real, run: seq<Action>, a: nat, b: nat)
    requires Possible(ttl, run) && AlwaysInTime(ttl, run) && NeverRaises(ttl, run)
    requires a in After(ttl, run).requests && b in After(ttl, run).requests && a != b
    requires var rs := After(ttl, run).requests;
      && rs[a].key == rs[b].key
      && rs[a].send in {InFlight, Done(Success), Done(Ambiguous), Done(NoResult)}
      && rs[b].send in {InFlight, Done(Success), Done(Ambiguous), Done(NoResult)}
    ensures var ra, rb := After(ttl, run).requests[a], After(ttl, run).requests[b];
      ra.begunAt - rb.begunAt >= ttl || rb.begunAt - ra.begunAt >= ttl
  {
    InvHolds(ttl, run);
    var s := After(ttl, run);
    assert RequestOk(ttl, s, a) && RequestOk(ttl, s, b);
    assert PairOk(ttl, s.requests[a], s.requests[b]);
    assert PairOk(ttl, s.requests[b], s.requests[a]);
  }

  lemma {:induction false} SentStays(ttl: real, run: seq<Action>, i: nat, n: nat, id: nat)
    requires Possible(ttl, run) && i < n <= |run| && run[i] == SendStart(id)
    ensures Possible(ttl, run[..n])
    ensures var rs := After(ttl, run[..n]).requests; id in rs && rs[id].send != NotSent && rs[id].phase != Arrived
    decreases |run|
  {
    var last := |run| - 1;
    if n == |run| {
      assert run[..n] == run;
      if i < last {
        SentStays(ttl, run[..last], i, last, id);
        assert run[..last][..last] == run[..last];
      }
    } else {
      SentStays(ttl, run[..last], i, n, id);
      assert run[..last][..n] == run[..n];
    }
  }

  /** No request ever sends twice, whatever happens to its key. */
  lemma {:induction false} EachSendsOnce(ttl: real, run: seq<Action>, i: nat, j: nat, id: nat)
    requires Possible(ttl, run) && i <= j < |run| && run[i] == SendStart(id) && run[j] == SendStart(id)
    ensures i == j
    decreases |run|
  {
    var last := |run| - 1;
    if j < last {
      EachSendsOnce(ttl, run[..last], i, j, id);
    } else if i < j {
      SentStays(ttl, run, i, j, id);
    }
  }

  // ---------------------------------------------------------------------------------------
  // Why a request is turned away
  // ---------------------------------------------------------------------------------------

  /** `w` holds the reservation that made `begin` answer `r` the way it did. */
  predicate Justifies(ttl: real, w: Request, r: Request) {
    && r.phase.Turned? && WasGranted(w) && w.key == r.key
    && 0.0 <= r.begunAt - w.begunAt < ttl
    && match r.phase.decision
       case New => false
       case Conflict => w.fingerprint != r.fingerprint
       case InProgress => w.fingerprint == r.fingerprint
       case Replay(stored) =>
         w.fingerprint == r.fingerprint && w.phase.Closed? && WasKept(w) && w.reply == Some(stored)
  }

  ghost predicate TurnedOk(ttl: real, s: State) {
    forall id :: id in s.requests && s.requests[id].phase.Turned? ==>
      exists w :: w in s.requests && Justifies(ttl, s.requests[w], s.requests[id])
  }

  lemma TurnedNow(ttl: real, s: State, id: nat)
    requires Inv(ttl, s) && Enabled(s, Reserve(id)) && Apply(ttl, s, Reserve(id)).requests[id].phase.Turned?
    ensures var rs := Apply(ttl, s, Reserve(id)).requests;
      exists w :: w in rs && Justifies(ttl, rs[w], rs[id])
  {
    var rs := Apply(ttl, s, Reserve(id)).requests;
    var key := s.requests[id].key;
    assert EntryOk(s, key);
    assert RequestOk(ttl, s, s.owner[key]);
    assert Justifies(ttl, rs[s.owner[key]], rs[id]);
  }

  lemma TurnedBefore(ttl: real, s: State, a: Action, w: nat, id: nat)
    requires Enabled(s, a) && w in s.requests && id in s.requests && Justifies(ttl, s.requests[w], s.requests[id])
    ensures var rs := Apply(ttl, s, a).requests; w in rs && id in rs && Justifies(ttl, rs[w], rs[id])
  {
    if !a.Reserve? {
      KinStep(ttl, s, a, w);
      KinStep(ttl, s, a, id);
    }
  }

  lemma TurnedStep(ttl: real, s: State, a: Action)
    requires Inv(ttl, s) && TurnedOk(ttl, s) && Enabled(s, a)
    ensures TurnedOk(ttl, Apply(ttl, s, a))
  {
    var rs := Apply(ttl, s, a).requests;
    forall id | id in rs && rs[id].phase.Turned?
      ensures exists w :: w in rs && Justifies(ttl, rs[w], rs[id])
    {
      if id in s.requests && s.requests[id].phase.Turned? {
        var w :| w in s.requests && Justifies(ttl, s.requests[w], s.requests[id]);
        TurnedBefore(ttl, s, a, w, id);
      } else {
        TurnedNow(ttl, s, id);
      }
    }
  }

  lemma {:induction false} TurnedHolds(ttl: real, run: seq<Action>)
    requires Possible(ttl, run) && AlwaysInTime(ttl, run) && NeverRaises(ttl, run)
    ensures TurnedOk(ttl, After(ttl, run))
  {
    if run != [] {
      var n := |run| - 1;
      InvHolds(ttl, run[..n]);
      TurnedHolds(ttl, run[..n]);
      TurnedStep(ttl, After(ttl, run[..n]), run[n]);
    }
  }

  /**
   A replay hands out the very reply of a kept send for the same key and intent, reserved
   less than a TTL before.
   */
  lemma ReplayIsGenuine(ttl: real, run: seq<Action>, id: nat)
    requires Possible(ttl, run) && AlwaysInTime(ttl, run) && NeverRaises(ttl, run)
    requires id in After(ttl, run).requests
    requires var r := After(ttl, run).requests[id]; r.phase.Turned? && r.phase.decision.Replay?
    ensures var rs := After(ttl, run).requests;
      exists w :: && w in rs && rs[w].send in {Done(Success), Done(Ambiguous), Done(NoResult)}
                  && rs[w].key == rs[id].key
                  && rs[w].fingerprint == rs[id].fingerprint
                  && rs[w].reply == Some(rs[id].phase.decision.stored)
                  && 0.0 <= rs[id].begunAt - rs[w].begunAt < ttl
  {
    TurnedHolds(ttl, run);
    var rs := After(ttl, run).requests;
    var w :| w in rs && Justifies(ttl, rs[w], rs[id]);
  }

  // ---------------------------------------------------------------------------------------
  // Each hypothesis is needed
  // ---------------------------------------------------------------------------------------

  lemma Extend(ttl: real, run: seq<Action>, a: Action)
    requires Possible(ttl, run) && Enabled(After(ttl, run), a)
    ensures Possible(ttl, run + [a]) && After(ttl, run + [a]) == Apply(ttl, After(ttl, run), a)
    ensures AlwaysInTime(ttl, run) && FinishInTime(ttl, After(ttl, run + [a])) ==> AlwaysInTime(ttl, run + [a])
    ensures NeverRaises(ttl, run) && NoRaiseAfterSend(After(ttl, run), a) ==> NeverRaises(ttl, run + [a])
  {
    assert (run + [a])[..|run|] == run;
  }

  /** Both sends of one key kept, by reservations closer than a TTL. */
  ghost predicate SentTwice(ttl: real, s: State) {
    exists a, b :: && a in s.requests && b in s.requests && a != b
                   && s.requests[a].key == s.requests[b].key
                   && WasKept(s.requests[a]) && WasKept(s.requests[b])
                   && !FarApart(ttl, s.requests[a], s.requests[b])
  }

  /** `run` reaches `s`, and keeps each hypothesis where the flags say so. */
  ghost predicate Reaches(ttl: real, run: seq<Action>, s: State, inTime: bool, quiet: bool) {
    && Possible(ttl, run)
    && After(ttl, run) == s
    && (inTime ==> AlwaysInTime(ttl, run))
    && (quiet ==> NeverRaises(ttl, run))
  }

  lemma Extended(ttl: real, run: seq<Action>, s: State, a: Action, inTime: bool, quiet: bool)
    returns (run': seq<Action>, s': State)
    requires Reaches(ttl, run, s, inTime, quiet) && Enabled(s, a)
    requires inTime ==> FinishInTime(ttl, Apply(ttl, s, a))
    requires quiet ==> NoRaiseAfterSend(s, a)
    ensures s' == Apply(ttl, s, a) && Reaches(ttl, run', s', inTime, quiet)
  {
    Extend(ttl, run, a);
    run', s' := run + [a], Apply(ttl, s, a);
  }

  /** `id` reserves its free key and starts sending. */
  lemma Submitted(ttl: real, run: seq<Action>, s: State, id: nat, inTime: bool, quiet: bool)
    returns (run': seq<Action>, s': State)
    requires 0.0 < ttl && Reaches(ttl, run, s, inTime, quiet) && (inTime ==> FinishInTime(ttl, s))
    requires Enabled(s, Reserve(id)) && s.requests[id].send.NotSent?
    requires s.requests[id].key !in Purge(s.store, ttl, s.now)
    ensures Reaches(ttl, run', s', inTime, quiet) && (inTime ==> FinishInTime(ttl, s'))
    ensures var r := s.requests[id];
      s' == State(s.now, Purge(s.store, ttl, s.now)[r.key := Entry(r.fingerprint, s.now, None)],
                  s.requests[id := r.(phase := Reserved, ticket := s.granted, begunAt := s.now, send := InFlight)],
                  s.granted + 1, s.owner[r.key := id])
  {
    run', s' := Extended(ttl, run, s, Reserve(id), inTime, quiet);
    run', s' := Extended(ttl, run', s', SendStart(id), inTime, quiet);
  }

  /** `id` hears back and drops its reservation. */
  lemma Dropped(ttl: real, run: seq<Action>, s: State, id: nat, o: Outcome, inTime: bool, quiet: bool)
    returns (run': seq<Action>, s': State)
    requires Reaches(ttl, run, s, inTime, quiet) && (inTime ==> FinishInTime(ttl, s))
    requires Enabled(s, SendEnd(id, o)) && (quiet ==> !Kept(o))
    ensures Reaches(ttl, run', s', inTime, quiet) && (inTime ==> FinishInTime(ttl, s'))
    ensures var r := s.requests[id];
      s' == With(s, id, r.(phase := Closed, send := Done(o))).(store := Abandoned(s.store, r.key, r.fingerprint))
  {
    run', s' := Extended(ttl, run, s, SendEnd(id, o), inTime, quiet);
    run', s' := Extended(ttl, run', s', Fail(id), inTime, quiet);
    run', s' := Extended(ttl, run', s', Release(id), inTime, quiet);
  }

  /** Requests 0, 1 and 2 arrive with one key and one intent. */
  lemma Arrived3(ttl: real, inTime: bool) returns (run: seq<Action>, s: State)
    ensures Reaches(ttl, run, s, inTime, true) && FinishInTime(ttl, s)
    ensures var r := Request("k", "f", Arrived, 0, 0.0, NotSent, None);
      s == Initial.(requests := map[0 := r, 1 := r, 2 := r])
  {
    run, s := [], Initial;
    run, s := Extended(ttl, run, s, Arrive(0, "k", "f"), inTime, true);
    run, s := Extended(ttl, run, s, Arrive(1, "k", "f"), inTime, true);
    run, s := Extended(ttl, run, s, Arrive(2, "k", "f"), inTime, true);
  }

  /** Request 0 sends with outcome `o`, drops its key, and request 1 sends with success. */
  lemma DropThenSend(ttl: real, o: Outcome, quiet: bool) returns (run: seq<Action>, s: State)
    requires 0.0 < ttl && (quiet ==> !Kept(o))
    ensures Reaches(ttl, run, s, true, quiet)
    ensures 0 in s.requests && 1 in s.requests && s.requests[0].key == s.requests[1].key
    ensures s.requests[0].send == Done(o) && s.requests[1].send == Done(Success)
    ensures s.requests[0].begunAt == s.requests[1].begunAt
  {
    run, s := Arrived3(ttl, true);
    run, s := Submitted(ttl, run, s, 0, true, quiet);
    run, s := Dropped(ttl, run, s, 0, o, true, quiet);
    run, s := Submitted(ttl, run, s, 1, true, quiet);
    run, s := Extended(ttl, run, s, SendEnd(1, Success), true, quiet);
  }

  /** An exception after a kept send frees the key, and a retry sends a second live order. */
  lemma RaiseAfterSendBreaks(ttl: real)
    requires 0.0 < ttl
    ensures exists run :: Possible(ttl, run) && AlwaysInTime(ttl, run) && SentTwice(ttl, After(ttl, run))
  {
    var run, s := DropThenSend(ttl, Success, false);
  }

  /**
   The exception in `AtMostOnce` is real: any send that is not kept frees the key at once, so
   a kept send can follow it within the same TTL. That includes a send that raised, of which
   nobody knows whether the broker took the order.
   */
  lemma RefusedThenKept(ttl: real, o: Outcome)
    requires 0.0 < ttl && !Kept(o)
    ensures exists run, kept, other ::
      && Possible(ttl, run) && AlwaysInTime(ttl, run) && NeverRaises(ttl, run)
      && var rs := After(ttl, run).requests;
         && kept in rs && other in rs && rs[kept].key == rs[other].key
         && WasKept(rs[kept]) && rs[other].send == Done(o) && !FarApart(ttl, rs[kept], rs[other])
  {
    var run, s := DropThenSend(ttl, o, true);
  }

  /** The in-time hypothesis leaves a request every instant before its TTL. */
  lemma {:induction false} HeldInTime(ttl: real, held: real)
    requires 0.0 <= held < ttl
    ensures exists run ::
      && Possible(ttl, run) && AlwaysInTime(ttl, run) && NeverRaises(ttl, run)
      && var s := After(ttl, run);
         0 in s.requests && s.requests[0].send == InFlight && s.now - s.requests[0].begunAt == held
  {
    var run, s := Arrived3(ttl, true);
    run, s := Submitted(ttl, run, s, 0, true, true);
    run, s := Extended(ttl, run, s, Tick(held), true, true);
  }

  /** Request 0 outlives its TTL while sending; request 1 is granted the key in its place. */
  lemma Overrun(ttl: real) returns (run: seq<Action>, s: State)
    requires 0.0 < ttl
    ensures Reaches(ttl, run, s, false, true) && s.now == ttl && s.granted == 2
    ensures s.store == map["k" := Entry("f", ttl, None)]
    ensures 0 in s.requests && 1 in s.requests && 2 in s.requests
    ensures s.requests[0] == Request("k", "f", Reserved, 0, 0.0, InFlight, None)
    ensures s.requests[1] == Request("k", "f", Reserved, 1, ttl, InFlight, None)
    ensures s.requests[2] == Request("k", "f", Arrived, 0, 0.0, NotSent, None)
  {
    run, s := Arrived3(ttl, false);
    run, s := Submitted(ttl, run, s, 0, false, true);
    run, s := Extended(ttl, run, s, Tick(ttl), false, true);
    run, s := Submitted(ttl, run, s, 1, false, true);
  }

  /** Request 0 is refused at last and frees the key under request 1; request 2 takes it. */
  lemma Overtaken(ttl: real) returns (run: seq<Action>, s: State)
    requires 0.0 < ttl
    ensures Reaches(ttl, run, s, false, true)
    ensures 1 in s.requests && 2 in s.requests
    ensures s.requests[1] == Request("k", "f", Reserved, 1, ttl, InFlight, None)
    ensures s.requests[2] == Request("k", "f", Reserved, 2, ttl, InFlight, None)
  {
    run, s := Overrun(ttl);
    run, s := Dropped(ttl, run, s, 0, Permanent, false, true);
    assert s.store == map[];
    run, s := Submitted(ttl, run, s, 2, false, true);
  }

  /** A request that outlives its TTL abandons its successor's reservation of the same intent. */
  lemma OverrunBreaks(ttl: real)
    requires 0.0 < ttl
    ensures exists run :: Possible(ttl, run) && NeverRaises(ttl, run) && SentTwice(ttl, After(ttl, run))
  {
    var run, s := Overtaken(ttl);
    run, s := Extended(ttl, run, s, SendEnd(1, Success), false, true);
    run, s := Extended(ttl, run, s, SendEnd(2, Success), false, true);
    assert s.requests[1].key == s.requests[2].key;
  }
}
