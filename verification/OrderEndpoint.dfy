/**
 One call of `POST /order`, written with the flags and the `finally` clause of the endpoint,
 and proved to be a run of the order protocol.

 What the endpoint cannot decide by itself (validation, the broker's answer, exceptions) is
 a script.
 */
module OrderEndpoint {
  import opened Wrappers
  import opened Idempotency
  import opened OrderProtocol

  /** Whether the request survives everything that comes before `order_send`. */
  datatype Check = Passes | Rejected | Throws

  /** Where the code after `order_send` raises, if it does. */
  datatype Crash = NoCrash | BeforeComplete | AfterComplete

  datatype Script = Script(check: Check, outcome: Outcome, crash: Crash, response: StoredResponse)

  datatype Reply = TurnedAway(decision: Decision) | Invalid | InternalError | Answer(response: StoredResponse)

  /** The script lets the endpoint reach `complete`. */
  predicate Completes(script: Script) {
    script.check.Passes? && Kept(script.outcome) && !script.crash.BeforeComplete?
  }

  /** The endpoint calls `order_send`. */
  predicate Sends(decision: Decision, script: Script) {
    decision.New? && script.check.Passes?
  }

  /** The dictionary a granted request leaves behind. */
  function Settled(entries: Entries, key: string, fingerprint: string, script: Script): Entries {
    if Completes(script) then Completed(entries, key, fingerprint, script.response)
    else Abandoned(entries, key, fingerprint)
  }

  /** The dictionary, and the decision on the key, after one whole call. */
  function Handled(entries: Entries, ttl: real, key: string, fingerprint: string, now: real, script: Script)
    : (Entries, Decision)
  {
    var (reserved, decision) := Began(entries, ttl, key, fingerprint, now);
    (if decision.New? then Settled(reserved, key, fingerprint, script) else reserved, decision)
  }

  method SubmitOrder(store: IdempotencyStore, key: Option<string>, fingerprint: string, now: real, script: Script)
    returns (reply: Reply, sent: bool)
    modifies store
    ensures key.None? ==> store.entries == old(store.entries) && sent == script.check.Passes?
    ensures key.Some? ==>
      var (entries, decision) := Handled(old(store.entries), store.ttl, key.value, fingerprint, now, script);
      && store.entries == entries
      && sent == Sends(decision, script)
      && (!decision.New? ==> reply == TurnedAway(decision))
    ensures key.None? || Handled(old(store.entries), store.ttl, key.value, fingerprint, now, script).1.New? ==>
      && (script.check.Rejected? ==> reply == Invalid)
      && (script.check.Throws? ==> reply == InternalError)
      && (sent && (script.outcome == Raised || script.crash != NoCrash) ==> reply == InternalError)
      && (sent && script.outcome != Raised && script.crash == NoCrash ==> reply == Answer(script.response))
  {
    var reservationOwned, reservationCompleted := false, false;
    sent := false;
    label guarded: {
      if key.Some? {
        var decision := store.Begin(key.value, fingerprint, now);
        if !decision.New? {
          reply := TurnedAway(decision);
          break guarded;
        }
        reservationOwned := true;
      }
      if script.check.Rejected? {
        reply := Invalid;
        break guarded;
      }
      if script.check.Throws? {
        reply := InternalError;
        break guarded;
      }
      sent := true;
      if script.outcome.Raised? || script.crash.BeforeComplete? {
        reply := InternalError;
        break guarded;
      }
      if reservationOwned && Kept(script.outcome) {
        store.Complete(key.value, fingerprint, script.response);
        reservationCompleted := true;
      }
      reply := if script.crash.AfterComplete? then InternalError else Answer(script.response);
    }
    if reservationOwned && !reservationCompleted {
      store.Abandon(key.value, fingerprint);
    }
  }

  /**
   What a granted call leaves behind. The key stays taken, with the response, exactly if the
   order went out and succeeded, got an ambiguous answer or none, and nothing raised before
   the reservation was completed; else it is free. Other keys lose what has expired.
   */
  lemma KeyAfterCall(entries: Entries, ttl: real, key: string, fingerprint: string, now: real, script: Script)
    requires Began(entries, ttl, key, fingerprint, now).1 == New
    ensures var left := Handled(entries, ttl, key, fingerprint, now, script).0;
      && (if script.check == Passes && script.outcome in {Success, Ambiguous, NoResult} && script.crash != BeforeComplete
          then key in left && left[key] == Entry(fingerprint, now, Some(script.response))
          else key !in left)
      && (forall k :: k != key && k in left ==> k in entries && left[k] == entries[k])
      && (forall k :: k != key && k in entries ==> (k in left <==> now - entries[k].createdAt < ttl))
  {
  }

  /** A repeat of a completed order within the TTL is answered from the store, never sent. */
  lemma RepeatIsReplayed(entries: Entries, ttl: real, key: string, fingerprint: string, script: Script, script': Script,
                         fingerprint': string, now: real, later: real)
    requires Completes(script) && now <= later < now + ttl
    requires Began(entries, ttl, key, fingerprint, now).1.New?
    ensures var (left, _) := Handled(entries, ttl, key, fingerprint, now, script);
      var (left', decision) := Handled(left, ttl, key, fingerprint', later, script');
      && decision == (if fingerprint' == fingerprint then Replay(script.response) else Conflict)
      && key in left' && left'[key] == left[key]
  {
  }

  /** After any other ending the key is free at once, and the other keys are untouched. */
  lemma RefusalFreesKey(entries: Entries, ttl: real, key: string, fingerprint: string, script: Script, now: real)
    requires !Completes(script)
    requires Began(entries, ttl, key, fingerprint, now).1.New?
    ensures Handled(entries, ttl, key, fingerprint, now, script).0 == Purge(entries, ttl, now)
    ensures key !in Purge(entries, ttl, now)
  {
  }

  /** The protocol steps request `id` takes when it meets `script`. */
  function Steps(id: nat, script: Script): seq<Action> {
    if !script.check.Passes? then [Reserve(id), Fail(id), Release(id)]
    else
      [Reserve(id), SendStart(id), SendEnd(id, script.outcome)]
      + (if Completes(script) then [Finish(id, script.response)] else [Fail(id), Release(id)])
  }

  ghost predicate CanFollow(ttl: real, s: State, actions: seq<Action>)
    decreases |actions|
  {
    actions != [] ==> Enabled(s, actions[0]) && CanFollow(ttl, Apply(ttl, s, actions[0]), actions[1..])
  }

  ghost function Follow(ttl: real, s: State, actions: seq<Action>): State
    requires CanFollow(ttl, s, actions)
    decreases |actions|
  {
    if actions == [] then s else Follow(ttl, Apply(ttl, s, actions[0]), actions[1..])
  }

  lemma FollowOne(ttl: real, s: State, a: Action, rest: seq<Action>)
    requires Enabled(s, a) && CanFollow(ttl, Apply(ttl, s, a), rest)
    ensures CanFollow(ttl, s, [a] + rest)
    ensures Follow(ttl, s, [a] + rest) == Follow(ttl, Apply(ttl, s, a), rest)
  {
    assert ([a] + rest)[1..] == rest;
  }

  /** Dropping the reservation, as protocol steps. */
  lemma DropFollows(ttl: real, s: State, id: nat)
    requires Enabled(s, Fail(id))
    ensures CanFollow(ttl, s, [Fail(id), Release(id)])
    ensures var r := s.requests[id];
      Follow(ttl, s, [Fail(id), Release(id)])
      == With(s, id, r.(phase := Closed)).(store := Abandoned(s.store, r.key, r.fingerprint))
  {
    var s1 := Apply(ttl, s, Fail(id));
    var s2 := Apply(ttl, s1, Release(id));
    FollowOne(ttl, s1, Release(id), []);
    FollowOne(ttl, s, Fail(id), [Release(id)]);
    assert [Fail(id)] + [Release(id)] == [Fail(id), Release(id)];
    assert Follow(ttl, s2, []) == s2;
  }

  /** A granted request once its send, if any, is over and its reservation is settled. */
  function Settlement(r: Request, script: Script): Request {
    r.(phase := Closed,
       send := if script.check.Passes? then Done(script.outcome) else r.send,
       reply := if Completes(script) then Some(script.response) else r.reply)
  }

  /** The whole protocol state after one call by `id`. */
  function AfterCall(ttl: real, s: State, id: nat, script: Script): State
    requires id in s.requests
  {
    var r := s.requests[id];
    var (entries, decision) := Handled(s.store, ttl, r.key, r.fingerprint, s.now, script);
    if decision.New? then
      With(s, id, Settlement(r.(ticket := s.granted, begunAt := s.now), script))
        .(store := entries, granted := s.granted + 1, owner := s.owner[r.key := id])
    else
      With(s, id, r.(phase := Turned(decision), begunAt := s.now)).(store := entries)
  }

  /** Sending and settling, as protocol steps. */
  lemma SendFollows(ttl: real, s: State, id: nat, script: Script)
    requires Enabled(s, SendStart(id)) && script.check.Passes?
    ensures CanFollow(ttl, s, Steps(id, script)[1..])
    ensures var r := s.requests[id];
      Follow(ttl, s, Steps(id, script)[1..])
      == With(s, id, Settlement(r, script)).(store := Settled(s.store, r.key, r.fingerprint, script))
  {
    var s1 := Apply(ttl, s, SendStart(id));
    var s2 := Apply(ttl, s1, SendEnd(id, script.outcome));
    var tail := if Completes(script) then [Finish(id, script.response)] else [Fail(id), Release(id)];
    if Completes(script) {
      FollowOne(ttl, s2, Finish(id, script.response), []);
    } else {
      DropFollows(ttl, s2, id);
    }
    FollowOne(ttl, s1, SendEnd(id, script.outcome), tail);
    FollowOne(ttl, s, SendStart(id), [SendEnd(id, script.outcome)] + tail);
    assert Steps(id, script)[1..] == [SendStart(id)] + ([SendEnd(id, script.outcome)] + tail);
  }

  /**
   An undisturbed call of the endpoint is a run of the protocol, from every state: its steps
   can be taken, they leave the store and the request as the call does, and they send
   exactly if the call does.
   */
  lemma EndpointFollowsProtocol(ttl: real, s: State, id: nat, script: Script)
    requires Enabled(s, Reserve(id)) && s.requests[id].send.NotSent?
    ensures var r := s.requests[id];
      var decision := Handled(s.store, ttl, r.key, r.fingerprint, s.now, script).1;
      var actions := if decision.New? then Steps(id, script) else [Reserve(id)];
      && CanFollow(ttl, s, actions)
      && Follow(ttl, s, actions) == AfterCall(ttl, s, id, script)
      && (SendStart(id) in actions <==> Sends(decision, script))
  {
    var r := s.requests[id];
    var decision := Began(s.store, ttl, r.key, r.fingerprint, s.now).1;
    var s1 := Apply(ttl, s, Reserve(id));
    if !decision.New? {
      FollowOne(ttl, s, Reserve(id), []);
    } else if script.check.Passes? {
      SendFollows(ttl, s1, id, script);
      FollowOne(ttl, s, Reserve(id), Steps(id, script)[1..]);
      assert Steps(id, script) == [Reserve(id)] + Steps(id, script)[1..];
      assert Steps(id, script)[1] == SendStart(id);
    } else {
      DropFollows(ttl, s1, id);
      FollowOne(ttl, s, Reserve(id), [Fail(id), Release(id)]);
      assert Steps(id, script) == [Reserve(id)] + [Fail(id), Release(id)];
    }
  }

  /** Every step of `actions` keeps `NoRaiseAfterSend`. */
  ghost predicate KeepsQuiet(ttl: real, s: State, actions: seq<Action>)
    requires CanFollow(ttl, s, actions)
    decreases |actions|
  {
    actions != [] ==>
      NoRaiseAfterSend(s, actions[0]) && KeepsQuiet(ttl, Apply(ttl, s, actions[0]), actions[1..])
  }

  lemma QuietOne(ttl: real, s: State, a: Action, rest: seq<Action>)
    requires Enabled(s, a) && CanFollow(ttl, Apply(ttl, s, a), rest)
    ensures CanFollow(ttl, s, [a] + rest)
    ensures KeepsQuiet(ttl, s, [a] + rest) <==> NoRaiseAfterSend(s, a) && KeepsQuiet(ttl, Apply(ttl, s, a), rest)
  {
    assert ([a] + rest)[1..] == rest;
  }

  lemma QuietDrop(ttl: real, s: State, id: nat)
    requires Enabled(s, Fail(id))
    ensures CanFollow(ttl, s, [Fail(id), Release(id)])
    ensures KeepsQuiet(ttl, s, [Fail(id), Release(id)]) <==> !WasKept(s.requests[id])
  {
    var s1 := Apply(ttl, s, Fail(id));
    QuietOne(ttl, s1, Release(id), []);
    QuietOne(ttl, s, Fail(id), [Release(id)]);
    assert [Fail(id)] + [Release(id)] == [Fail(id), Release(id)];
  }

  lemma QuietSend(ttl: real, s: State, id: nat, script: Script)
    requires Enabled(s, SendStart(id)) && script.check.Passes?
    ensures CanFollow(ttl, s, Steps(id, script)[1..])
    ensures KeepsQuiet(ttl, s, Steps(id, script)[1..]) <==> Completes(script) || !Kept(script.outcome)
  {
    var s1 := Apply(ttl, s, SendStart(id));
    var s2 := Apply(ttl, s1, SendEnd(id, script.outcome));
    var tail := if Completes(script) then [Finish(id, script.response)] else [Fail(id), Release(id)];
    if Completes(script) {
      QuietOne(ttl, s2, Finish(id, script.response), []);
    } else {
      QuietDrop(ttl, s2, id);
    }
    QuietOne(ttl, s1, SendEnd(id, script.outcome), tail);
    QuietOne(ttl, s, SendStart(id), [SendEnd(id, script.outcome)] + tail);
    assert Steps(id, script)[1..] == [SendStart(id)] + ([SendEnd(id, script.outcome)] + tail);
  }

  /**
   A granted call keeps the no-raise hypothesis of the protocol exactly unless its order went
   out with an outcome that must be kept and something raised before `complete`.
   */
  lemma CallKeepsNoRaise(ttl: real, s: State, id: nat, script: Script)
    requires Enabled(s, Reserve(id)) && s.requests[id].send.NotSent?
    requires var r := s.requests[id]; Began(s.store, ttl, r.key, r.fingerprint, s.now).1 == New
    ensures CanFollow(ttl, s, Steps(id, script))
    ensures KeepsQuiet(ttl, s, Steps(id, script)) <==>
      !(script.check == Passes && script.outcome in {Success, Ambiguous, NoResult} && script.crash == BeforeComplete)
  {
    var s1 := Apply(ttl, s, Reserve(id));
    if script.check.Passes? {
      QuietSend(ttl, s1, id, script);
    } else {
      QuietDrop(ttl, s1, id);
    }
    QuietOne(ttl, s, Reserve(id), Steps(id, script)[1..]);
    assert Steps(id, script) == [Reserve(id)] + Steps(id, script)[1..];
  }
}
