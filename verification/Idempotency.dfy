/**
 The TTL cache that reserves an idempotency key before an order reaches the broker.

 The store is modelled three times: as pure functions on its dictionary, as the class that
 updates the dictionary in place, and as a timestamped log in which every key is looked at
 on its own and its entry vanishes at the very instant it expires. The class is proved
 against the functions, and the functions against the log.
 */
module Idempotency {
  import opened Wrappers

  datatype StoredResponse = StoredResponse(payload: string, statusCode: int)

  datatype Entry = Entry(fingerprint: string, createdAt: real, response: Option<StoredResponse>)

  type Entries = map<string, Entry>

  datatype Decision = New | Replay(stored: StoredResponse) | Conflict | InProgress

  predicate Expired(e: Entry, ttl: real, now: real) {
    now - e.createdAt >= ttl
  }

  function Purge(entries: Entries, ttl: real, now: real): Entries {
    map k | k in entries && !Expired(entries[k], ttl, now) :: entries[k]
  }

  function Slot(entries: Entries, key: string): Option<Entry> {
    if key in entries then Some(entries[key]) else None
  }

  /** What `begin` answers when it finds `slot` under the key. */
  function Decide(slot: Option<Entry>, fingerprint: string): Decision {
    match slot
    case None => New
    case Some(e) =>
      if e.fingerprint != fingerprint then Conflict
      else if e.response.None? then InProgress
      else Replay(e.response.value)
  }

  function Began(entries: Entries, ttl: real, key: string, fingerprint: string, now: real): (Entries, Decision) {
    var live := Purge(entries, ttl, now);
    var decision := Decide(Slot(live, key), fingerprint);
    (if decision.New? then live[key := Entry(fingerprint, now, None)] else live, decision)
  }

  function Completed(entries: Entries, key: string, fingerprint: string, response: StoredResponse): Entries {
    if key in entries && entries[key].fingerprint == fingerprint
    then entries[key := entries[key].(response := Some(response))]
    else entries
  }

  function Abandoned(entries: Entries, key: string, fingerprint: string): Entries {
    if key in entries && entries[key].fingerprint == fingerprint && entries[key].response.None?
    then entries - {key}
    else entries
  }

  /** The store as the gateway runs it: one dictionary, changed in place under its lock. */
  class IdempotencyStore {
    const ttl: real
    var entries: Entries

    constructor (ttl: real)
      ensures this.ttl == ttl && entries == map[]
    {
      this.ttl := ttl;
      entries := map[];
    }

    method PurgeExpired(now: real)
      modifies this
      ensures entries == Purge(old(entries), ttl, now)
    {
      var expired := set k | k in entries && Expired(entries[k], ttl, now);
      while expired != {}
        invariant forall k :: k in expired ==> k in entries && Expired(entries[k], ttl, now)
        invariant forall k :: k in entries ==> k in old(entries) && entries[k] == old(entries)[k]
        invariant forall k :: k in entries && Expired(entries[k], ttl, now) ==> k in expired
        invariant forall k :: k in old(entries) && !Expired(old(entries)[k], ttl, now) ==> k in entries
        decreases expired
      {
        var k :| k in expired;
        entries := entries - {k};
        expired := expired - {k};
      }
    }

    method Begin(key: string, fingerprint: string, now: real) returns (decision: Decision)
      modifies this
      ensures (entries, decision) == Began(old(entries), ttl, key, fingerprint, now)
    {
      PurgeExpired(now);
      if key !in entries {
        entries := entries[key := Entry(fingerprint, now, None)];
        return New;
      }
      var entry := entries[key];
      if entry.fingerprint != fingerprint {
        return Conflict;
      }
      if entry.response.None? {
        return InProgress;
      }
      return Replay(entry.response.value);
    }

    method Complete(key: string, fingerprint: string, response: StoredResponse)
      modifies this
      ensures entries == Completed(old(entries), key, fingerprint, response)
    {
      if key !in entries || entries[key].fingerprint != fingerprint {
        return;
      }
      entries := entries[key := entries[key].(response := Some(response))];
    }

    method Abandon(key: string, fingerprint: string)
      modifies this
      ensures entries == Abandoned(old(entries), key, fingerprint)
    {
      if key in entries && entries[key].fingerprint == fingerprint && entries[key].response.None? {
        entries := entries - {key};
      }
    }
  }

  // ---------------------------------------------------------------------------------------
  // The reference: a log of timed calls, read one key at a time
  // ---------------------------------------------------------------------------------------

  datatype Call =
    | BeginCall(key: string, fingerprint: string)
    | CompleteCall(key: string, fingerprint: string, response: StoredResponse)
    | AbandonCall(key: string, fingerprint: string)

  datatype Event = Event(at: real, call: Call)

  predicate Monotone(log: seq<Event>) {
    forall i, j :: 0 <= i < j < |log| ==> log[i].at <= log[j].at
  }

  function Fresh(slot: Option<Entry>, ttl: real, now: real): Option<Entry> {
    if slot.Some? && Expired(slot.value, ttl, now) then None else slot
  }

  /** The effect of one call on the entry of its own key. */
  function Touch(slot: Option<Entry>, e: Event): Option<Entry> {
    match e.call
    case BeginCall(_, fp) => if slot.None? then Some(Entry(fp, e.at, None)) else slot
    case CompleteCall(_, fp, response) =>
      if slot.Some? && slot.value.fingerprint == fp then Some(slot.value.(response := Some(response))) else slot
    case AbandonCall(_, fp) =>
      if slot.Some? && slot.value.fingerprint == fp && slot.value.response.None? then None else slot
  }

  /**
   The entry an observer sees under `key` at `now`. Calls on other keys play no part, and at
   every instant an entry that has reached its TTL is already gone.
   */
  function Visible(ttl: real, log: seq<Event>, key: string, now: real): Option<Entry> {
    if log == [] then None
    else
      var last := log[|log| - 1];
      var before := Visible(ttl, log[..|log| - 1], key, last.at);
      Fresh(if last.call.key == key then Touch(before, last) else before, ttl, now)
  }

  /** The dictionary after the store has served `log`, purging only when `begin` runs. */
  function Serve(ttl: real, log: seq<Event>): Entries {
    if log == [] then map[]
    else
      var last := log[|log| - 1];
      var entries := Serve(ttl, log[..|log| - 1]);
      match last.call
      case BeginCall(key, fp) => Began(entries, ttl, key, fp, last.at).0
      case CompleteCall(key, fp, response) => Completed(entries, key, fp, response)
      case AbandonCall(key, fp) => Abandoned(entries, key, fp)
  }

  lemma MonotonePrefix(log: seq<Event>, n: nat)
    requires Monotone(log) && n <= |log|
    ensures Monotone(log[..n])
  {
  }

  /** The dictionary, once its expired entries are ignored, is exactly what the log shows. */
  lemma {:induction false} StoreRefinesLog(ttl: real, log: seq<Event>, key: string, now: real)
    requires Monotone(log)
    requires log != [] ==> log[|log| - 1].at <= now
    ensures Fresh(Slot(Serve(ttl, log), key), ttl, now) == Visible(ttl, log, key, now)
  {
    if log != [] {
      var last := log[|log| - 1];
      var rest := log[..|log| - 1];
      MonotonePrefix(log, |log| - 1);
      StoreRefinesLog(ttl, rest, key, last.at);
    }
  }

  /** Every answer `begin` gives, replayed response included, is the one the log dictates. */
  lemma BeginAnswersFromLog(ttl: real, log: seq<Event>, key: string, fingerprint: string, now: real)
    requires Monotone(log)
    requires log != [] ==> log[|log| - 1].at <= now
    ensures Began(Serve(ttl, log), ttl, key, fingerprint, now).1
         == Decide(Visible(ttl, log, key, now), fingerprint)
  {
    StoreRefinesLog(ttl, log, key, now);
    var entries := Serve(ttl, log);
    assert Slot(Purge(entries, ttl, now), key) == Fresh(Slot(entries, key), ttl, now);
  }

  /** `log[i]` is the `begin` that created `e`: it found the key free at its own instant. */
  ghost predicate Granted(ttl: real, log: seq<Event>, i: nat, key: string, e: Entry) {
    && i < |log|
    && log[i].call == BeginCall(key, e.fingerprint)
    && log[i].at == e.createdAt
    && Visible(ttl, log[..i], key, log[i].at).None?
  }

  /** `log[j]` is a `complete` that wrote the response of `e` while `e` was still young. */
  ghost predicate Answered(ttl: real, log: seq<Event>, i: nat, j: nat, key: string, e: Entry) {
    && i < j < |log|
    && e.response.Some?
    && log[j].call == CompleteCall(key, e.fingerprint, e.response.value)
    && log[j].at - e.createdAt < ttl
  }

  ghost predicate Provenance(ttl: real, log: seq<Event>, key: string, e: Entry, now: real) {
    && now - e.createdAt < ttl
    && exists i: nat ::
         && Granted(ttl, log, i, key, e)
         && (e.response.Some? ==> exists j: nat :: Answered(ttl, log, i, j, key, e))
  }

  /**
   Whatever is visible was granted by one `begin` less than a TTL ago, and its response, if
   any, was stored by a `complete` for the same intent that came in before the entry expired:
   a late `complete` never surfaces.
   */
  lemma {:induction false} VisibleHasProvenance(ttl: real, log: seq<Event>, key: string, now: real)
    requires Visible(ttl, log, key, now).Some?
    ensures Provenance(ttl, log, key, Visible(ttl, log, key, now).value, now)
  {
    var n := |log| - 1;
    var last, rest := log[n], log[..n];
    var before := Visible(ttl, rest, key, last.at);
    var e := Visible(ttl, log, key, now).value;
    if before.None? {
      assert Granted(ttl, log, n, key, e);
    } else {
      VisibleHasProvenance(ttl, rest, key, last.at);
      var b := before.value;
      var i: nat :| Granted(ttl, rest, i, key, b)
        && (b.response.Some? ==> exists j: nat :: Answered(ttl, rest, i, j, key, b));
      assert rest[..i] == log[..i];
      assert Granted(ttl, log, i, key, e);
      if e.response != b.response {
        assert Answered(ttl, log, i, n, key, e);
      } else if b.response.Some? {
        var j: nat :| Answered(ttl, rest, i, j, key, b);
        assert Answered(ttl, log, i, j, key, e);
      }
    }
  }
}
