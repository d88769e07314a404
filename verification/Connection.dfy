/**
 The connection object: its four mutable fields, the back-off between reconnects and the
 retry loop of `initialize`.
 */
module Connection {

  datatype Status = Disconnected | Connected | Reconnecting

  datatype Config = Config(
    verifyTtl: real,
    cooldownBase: real,
    cooldownMax: real,
    maxAttempts: int,
    baseDelay: real)

  /** What `MT5Connection` remembers between calls. */
  datatype Link = Link(status: Status, lastVerifiedAt: real, failedReconnects: nat, notBefore: real)

  const Unlinked := Link(Disconnected, 0.0, 0, 0.0)

  function Pow2(n: nat): (p: nat)
    ensures p >= 1
  {
    if n == 0 then 1 else 2 * Pow2(n - 1)
  }

  function Min(a: real, b: real): real {
    if a < b then a else b
  }

  /** The pause after the k-th failure in a row. */
  function Wait(cfg: Config, k: nat): real
    requires k >= 1
  {
    Min(cfg.cooldownBase * Pow2(k - 1) as real, cfg.cooldownMax)
  }

  /** The waits double from the base until they meet the cap, and stay there. */
  lemma WaitDoublesToCap(cfg: Config, k: nat)
    requires k >= 1 && 0.0 <= cfg.cooldownBase && 0.0 <= cfg.cooldownMax
    ensures Wait(cfg, 1) == Min(cfg.cooldownBase, cfg.cooldownMax)
    ensures Wait(cfg, k + 1) == Min(2.0 * Wait(cfg, k), cfg.cooldownMax)
  {
    var p := Pow2(k - 1) as real;
    assert Pow2(k) as real == 2.0 * p;
    assert cfg.cooldownBase * (2.0 * p) == 2.0 * (cfg.cooldownBase * p);
    assert cfg.cooldownBase * p >= 0.0;
    assert Pow2(0) == 1;
  }

  function SetStatus(link: Link, status: Status, now: real): Link {
    link.(status := status, lastVerifiedAt := if status.Connected? then now else link.lastVerifiedAt)
  }

  function NoteOutcome(cfg: Config, link: Link, connected: bool, now: real): Link {
    if connected then link.(failedReconnects := 0, notBefore := 0.0)
    else link.(failedReconnects := link.failedReconnects + 1, notBefore := now + Wait(cfg, link.failedReconnects + 1))
  }

  /** What the IPC boundary reports when a call fails at the transport level. */
  function NoteIpcFailure(link: Link): Link {
    if link.status.Connected? then link.(status := Disconnected) else link
  }

  predicate VerificationFresh(cfg: Config, link: Link, now: real) {
    now - link.lastVerifiedAt < cfg.verifyTtl
  }

  predicate CoolingDown(link: Link, now: real) {
    now < link.notBefore
  }

  /** Total of the retry pauses after `n` failed attempts inside one `initialize`. */
  function Backoff(base: real, n: nat): real {
    if n == 0 then 0.0 else Backoff(base, n - 1) + base * Pow2(n - 1) as real
  }

  lemma {:induction false} BackoffClosedForm(base: real, n: nat)
    ensures Backoff(base, n) == base * (Pow2(n) - 1) as real
  {
    if n > 0 {
      BackoffClosedForm(base, n - 1);
      var p := Pow2(n - 1) as real;
      assert Pow2(n) as real == 2.0 * p;
      assert base * (2.0 * p - 1.0) == base * (p - 1.0) + base * p;
    }
  }

  /** Total of the pauses after the first `n` failures in a row. */
  function SumWaits(cfg: Config, n: nat): real {
    if n == 0 then 0.0 else SumWaits(cfg, n - 1) + Wait(cfg, n)
  }

  /** How one attempt of `initialize` can go. */
  datatype Attempt =
    | Attached(ipcFailed: bool)    // connected; an IPC failure may be reported before it returns
    | Refused                      // not attached, or no account
    | Threw(afterConnected: bool)  // an exception, possibly after the session was marked connected

  predicate ReachedConnected(a: Attempt) {
    a.Attached? || (a.Threw? && a.afterConnected)
  }

  /** `at` is when the last of the first `made` attempts that reached a session ended, or else `before`. */
  ghost predicate LastMark(answers: nat -> Attempt, clock: nat -> real, made: nat, before: real, at: real) {
    || ((forall i: nat :: i < made ==> !Reaches(answers, i)) && at == before)
    || exists i: nat ::
         && i < made && Reaches(answers, i) && at == clock(i)
         && forall j: nat :: i < j < made ==> !Reaches(answers, j)
  }

  predicate Reaches(answers: nat -> Attempt, i: nat) {
    answers(i) == Attached(true) || answers(i) == Attached(false) || answers(i) == Threw(true)
  }

  class MT5Connection {
    const cfg: Config
    var status: Status
    var lastVerifiedAt: real
    var failedReconnects: nat
    var notBefore: real

    ghost function Value(): Link
      reads this
    {
      Link(status, lastVerifiedAt, failedReconnects, notBefore)
    }

    constructor (cfg: Config)
      ensures this.cfg == cfg && Value() == Unlinked
    {
      this.cfg := cfg;
      status, lastVerifiedAt, failedReconnects, notBefore := Disconnected, 0.0, 0, 0.0;
    }

    method MarkStatus(newStatus: Status, now: real)
      modifies this
      ensures Value() == SetStatus(old(Value()), newStatus, now)
    {
      status := newStatus;
      if newStatus.Connected? {
        lastVerifiedAt := now;
      }
    }

    method NoteReconnectOutcome(connected: bool, now: real)
      modifies this
      ensures Value() == NoteOutcome(cfg, old(Value()), connected, now)
    {
      if connected {
        failedReconnects, notBefore := 0, 0.0;
        return;
      }
      failedReconnects := failedReconnects + 1;
      var delay := cfg.cooldownBase * Pow2(failedReconnects - 1) as real;
      notBefore := now + Min(delay, cfg.cooldownMax);
    }

    method NoteConnectionFailure()
      modifies this
      ensures Value() == NoteIpcFailure(old(Value()))
      ensures Value() == old(Value()).(status := if old(status) == Connected then Disconnected else old(status))
    {
      if status.Connected? {
        status := Disconnected;
      }
    }

    /**
     Attach with retries. `answers(i)` is how attempt i goes and `clock(i)` the instant it
     ends. It succeeds exactly when some allowed attempt attaches, stops at the first that
     does, and pauses base, 2*base, 4*base, ... between attempts; the reconnect back-off is
     not its business.
     */
    method Initialize(answers: nat -> Attempt, clock: nat -> real)
      returns (ok: bool, made: nat, slept: real)
      modifies this
      ensures made <= (if cfg.maxAttempts < 0 then 0 else cfg.maxAttempts)
      ensures ok ==> made >= 1 && answers(made - 1).Attached? && forall i: nat :: i < made - 1 ==> !answers(i).Attached?
      ensures !ok ==> cfg.maxAttempts <= made && forall i: nat :: i < made ==> !answers(i).Attached?
      ensures slept == Backoff(cfg.baseDelay, if made == 0 then 0 else made - 1)
      ensures status == if ok && !answers(made - 1).ipcFailed then Connected else Disconnected
      ensures ok ==> lastVerifiedAt == clock(made - 1)
      ensures LastMark(answers, clock, made, old(lastVerifiedAt), lastVerifiedAt)
      ensures failedReconnects == old(failedReconnects) && notBefore == old(notBefore)
    {
      made, slept := 0, 0.0;
      while made < cfg.maxAttempts
        invariant made <= (if cfg.maxAttempts < 0 then 0 else cfg.maxAttempts)
        invariant forall i: nat :: i < made ==> !answers(i).Attached?
        invariant slept == Backoff(cfg.baseDelay, if 0 < made == cfg.maxAttempts then made - 1 else made)
        invariant LastMark(answers, clock, made, old(lastVerifiedAt), lastVerifiedAt)
        invariant failedReconnects == old(failedReconnects) && notBefore == old(notBefore)
        decreases cfg.maxAttempts - made
      {
        var answer, now := answers(made), clock(made);
        made := made + 1;
        if made > 1 {
          MarkStatus(Reconnecting, now);
        }
        if ReachedConnected(answer) {
          MarkStatus(Connected, now);
        }
        if answer.Attached? {
          if answer.ipcFailed {
            NoteConnectionFailure();
          }
          return true, made, slept;
        }
        MarkStatus(Disconnected, now);
        if made < cfg.maxAttempts {
          slept := slept + cfg.baseDelay * Pow2(made - 1) as real;
        }
      }
      MarkStatus(Disconnected, clock(made));
      ok := false;
    }

    /** One `account_info` round trip, unless the verification is fresh after all. */
    method VerifyLiveConnection(alive: bool, now: real) returns (ok: bool)
      modifies this
      ensures ok <==> old(status).Connected? && (now - old(lastVerifiedAt) < cfg.verifyTtl || alive)
      ensures Value() ==
        if !old(status).Connected? || now - old(lastVerifiedAt) < cfg.verifyTtl then old(Value())
        else if alive then old(Value()).(lastVerifiedAt := now)
        else old(Value()).(status := Disconnected)
    {
      if !status.Connected? {
        return false;
      }
      if now - lastVerifiedAt < cfg.verifyTtl {
        return true;
      }
      if alive {
        lastVerifiedAt := now;
        return true;
      }
      MarkStatus(Disconnected, now);
      ok := false;
    }

    /**
     `ensure_connection` for a caller no one disturbs: `alive` is what a probe would find,
     `reconciled` whether the broker snapshot succeeds, `end` when the outcome is noted. A
     reconnect runs only outside the back-off window, and each one either clears the back-off
     or lengthens it.
     */
    method EnsureConnection(alive: bool, answers: nat -> Attempt, clock: nat -> real, reconciled: bool, now: real, end: real)
      returns (ok: bool, reconnected: bool, made: nat)
      modifies this
      ensures old(status).Connected? && now - old(lastVerifiedAt) < cfg.verifyTtl ==>
        ok && !reconnected && Value() == old(Value())
      ensures old(status).Connected? && now - old(lastVerifiedAt) >= cfg.verifyTtl && alive ==>
        ok && !reconnected && Value() == old(Value()).(lastVerifiedAt := now)
      ensures var usable := old(status).Connected? && (now - old(lastVerifiedAt) < cfg.verifyTtl || alive);
        && reconnected == (!usable && now >= old(notBefore))
        && (!usable && !reconnected ==>
              !ok && Value() == old(Value()).(status := if old(status).Connected? then Disconnected else old(status)))
      ensures reconnected ==>
        && ok == (reconciled && exists i: nat :: i < cfg.maxAttempts && answers(i).Attached?)
        && LastMark(answers, clock, made, old(lastVerifiedAt), lastVerifiedAt)
        && (ok ==> && failedReconnects == 0 && notBefore == 0.0 && made >= 1 && answers(made - 1).Attached?
                   && status == if answers(made - 1).ipcFailed then Disconnected else Connected)
        && (!ok ==> status.Disconnected? && failedReconnects == old(failedReconnects) + 1
                    && notBefore == end + Wait(cfg, failedReconnects))
    {
      reconnected, made := false, 0;
      if status.Connected? {
        if now - lastVerifiedAt < cfg.verifyTtl {
          return true, false, 0;
        }
        ok := VerifyLiveConnection(alive, now);
        if ok {
          return;
        }
      }
      if now < notBefore {
        return false, false, 0;
      }
      reconnected := true;
      var slept;
      ok, made, slept := Initialize(answers, clock);
      if ok && !reconciled {
        MarkStatus(Disconnected, end);
        ok := false;
      }
      NoteReconnectOutcome(ok, end);
    }
  }
}
