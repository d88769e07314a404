/**
 The serialized boundary around the process-global MetaTrader client.

 One lock lets one thread at a time into the native module. The module keeps a single "last
 error" cell that every call overwrites; the boundary copies it, still under the lock, into
 a slot of the calling thread.
 */
module SerializedCalls {
  import opened Wrappers

  datatype NativeError = NativeError(code: int, text: string)

  const IPC_FAILURE_CODE := -10000

  predicate IsIpcFailure(e: NativeError) {
    e.code <= IPC_FAILURE_CODE
  }

  function IpcFailures(errors: seq<NativeError>): seq<NativeError> {
    if errors == [] then []
    else
      var last := errors[|errors| - 1];
      IpcFailures(errors[..|errors| - 1]) + if IsIpcFailure(last) then [last] else []
  }

  /** Calls whose missing result is not looked into. */
  predicate Uncaptured(name: string) {
    name == "last_error" || name == "shutdown"
  }

  /** The boundary as one object: the cell of the native module, the thread slots, and the failures reported. */
  class SerializedMT5 {
    var cell: NativeError
    var lastCallErrors: map<nat, NativeError>
    var reported: seq<NativeError>

    constructor (cell: NativeError)
      ensures this.cell == cell && lastCallErrors == map[] && reported == []
    {
      this.cell := cell;
      lastCallErrors, reported := map[], [];
    }

    /** One wrapped call of thread `t`; `none` and `left` are what the native function does. */
    method Call(t: nat, name: string, none: bool, left: NativeError)
      modifies this
      ensures cell == left
      ensures lastCallErrors ==
        if none && name != "last_error" && name != "shutdown" then old(lastCallErrors)[t := left] else old(lastCallErrors)
      ensures reported ==
        if none && name != "last_error" && name != "shutdown" && left.code <= -10000 then old(reported) + [left]
        else old(reported)
      ensures forall u: nat ::
        LastCallError(u) == if u == t && none && name != "last_error" && name != "shutdown" then Some(left) else old(LastCallError(u))
    {
      cell := left;
      if !Uncaptured(name) && none {
        var error := cell;
        lastCallErrors := lastCallErrors[t := error];
        if IsIpcFailure(error) {
          reported := reported + [error];
        }
      }
    }

    /** What thread `t` is told about its last failed call. */
    function LastCallError(t: nat): Option<NativeError>
      reads this
    {
      if t in lastCallErrors then Some(lastCallErrors[t]) else None
    }
  }

  // ---------------------------------------------------------------------------------------
  // The same calls, interleaved
  // ---------------------------------------------------------------------------------------

  /** Inside: in the native module, or in a multi-call operation. Reading: about to copy the cell. */
  datatype Pc = Outside | Inside(captured: bool) | Reading

  datatype State = State(
    lock: Option<nat>,
    cell: NativeError,
    slots: map<nat, NativeError>,
    reported: seq<NativeError>,
    pcs: map<nat, Pc>,
    left: map<nat, NativeError>,    // the error left by each thread's last captured failure
    failures: seq<NativeError>)     // the errors of all captured failures whose cell has been read

  datatype Action =
    | Enter(thread: nat, captured: bool)
    | Work(thread: nat, error: NativeError)
    | Return(thread: nat, none: bool, error: NativeError)
    | Throw(thread: nat, error: NativeError)
    | Read(thread: nat)

  function Initial(cell: NativeError): State {
    State(None, cell, map[], [], map[], map[], [])
  }

  function PcOf(s: State, t: nat): Pc {
    if t in s.pcs then s.pcs[t] else Outside
  }

  function Goto(s: State, t: nat, pc: Pc): State {
    s.(pcs := s.pcs[t := pc])
  }

  /** An action that cannot happen in `s` leaves it alone. */
  function Apply(s: State, a: Action): State {
    var t, pc := a.thread, PcOf(s, a.thread);
    match a
    case Enter(_, captured) =>
      if pc.Outside? && s.lock.None? then Goto(s, t, Inside(captured)).(lock := Some(t)) else s
    case Work(_, error) =>
      if pc.Inside? && !pc.captured then s.(cell := error) else s
    case Return(_, none, error) =>
      if !pc.Inside? then s
      else if pc.captured && none then Goto(s, t, Reading).(cell := error, left := s.left[t := error])
      else Goto(s, t, Outside).(cell := error, lock := None)
    case Throw(_, error) =>
      if pc.Inside? then Goto(s, t, Outside).(cell := error, lock := None) else s
    case Read(_) =>
      if !pc.Reading? then s
      else Goto(s, t, Outside).(
        lock := None, slots := s.slots[t := s.cell], 
        failures := if t in s.left then s.failures + [s.left[t]] else s.failures,
        reported := if IsIpcFailure(s.cell) then s.reported + [s.cell] else s.reported)
  }

  function After(s: State, run: seq<Action>): State {
    if run == [] then s else Apply(After(s, run[..|run| - 1]), run[|run| - 1])
  }

  ghost predicate Inv(s: State) {
    && (forall t: nat :: !PcOf(s, t).Outside? ==> s.lock == Some(t))
    && (forall t: nat :: PcOf(s, t).Reading? ==> t in s.left && s.left[t] == s.cell)
    && (forall t: nat :: !PcOf(s, t).Reading? ==>
          (t in s.slots <==> t in s.left) && (t in s.left ==> s.slots[t] == s.left[t]))
    && s.reported == IpcFailures(s.failures)
  }

  lemma InvStep(s: State, a: Action)
    requires Inv(s)
    ensures Inv(Apply(s, a))
  {
    var s' := Apply(s, a);
    if s'.failures != s.failures {
      assert s'.failures[..|s.failures|] == s.failures;
    }
  }

  lemma {:induction false} InvHolds(cell: NativeError, run: seq<Action>)
    ensures Inv(After(Initial(cell), run))
  {
    if run != [] {
      InvHolds(cell, run[..|run| - 1]);
      InvStep(After(Initial(cell), run[..|run| - 1]), run[|run| - 1]);
    }
  }

  /** No two threads are ever inside the native module. */
  lemma OneThreadInside(cell: NativeError, run: seq<Action>, t: nat, u: nat)
    requires !PcOf(After(Initial(cell), run), t).Outside? && !PcOf(After(Initial(cell), run), u).Outside?
    ensures t == u
  {
    InvHolds(cell, run);
  }

  /** The failure hook has seen exactly the IPC-level errors of captured failures, in order. */
  lemma HookSeesIpcFailures(cell: NativeError, run: seq<Action>)
    ensures After(Initial(cell), run).reported == IpcFailures(After(Initial(cell), run).failures)
  {
    InvHolds(cell, run);
  }

  /** A call no one disturbs does in steps what the boundary does in one. */
  lemma LoneCall(s: State, t: nat, name: string, none: bool, left: NativeError)
    requires PcOf(s, t).Outside? && s.lock.None?
    ensures var captured := name != "last_error" && name != "shutdown";
      var done := Apply(Apply(Apply(s, Enter(t, !Uncaptured(name))), Return(t, none, left)), Read(t));
      && done.lock.None? && PcOf(done, t).Outside? && done.cell == left
      && done.slots == (if none && captured then s.slots[t := left] else s.slots)
      && done.reported == (if none && captured && left.code <= -10000 then s.reported + [left] else s.reported)
      && done.failures == (if none && captured then s.failures + [left] else s.failures)
  {
  }

  lemma {:induction false} AfterConcat(s: State, run: seq<Action>, more: seq<Action>)
    ensures After(s, run + more) == After(After(s, run), more)
  {
    if more == [] {
      assert run + more == run;
    } else {
      var n := |more| - 1;
      assert (run + more)[..|run| + n] == run + more[..n];
      AfterConcat(s, run, more[..n]);
    }
  }

  /** Thread `t` does nothing in `actions` but read the cell. */
  ghost predicate OnlyReads(actions: seq<Action>, t: nat) {
    forall a :: a in actions && a.thread == t ==> a.Read?
  }

  lemma {:induction false} LeftIsKept(s: State, actions: seq<Action>, t: nat)
    requires OnlyReads(actions, t) && t in s.left && !PcOf(s, t).Inside?
    ensures var s' := After(s, actions); t in s'.left && s'.left[t] == s.left[t] && !PcOf(s', t).Inside?
  {
    if actions != [] {
      LeftIsKept(s, actions[..|actions| - 1], t);
    }
  }

  /**
   A captured call of `t` comes back empty with `error`; whatever the other threads call
   before and after `t` reads the cell, its slot ends up holding that very error.
   */
  lemma ErrorOfThatCall(cell: NativeError, before: seq<Action>, t: nat, error: NativeError, others: seq<Action>)
    requires PcOf(After(Initial(cell), before), t) == Inside(true)
    requires OnlyReads(others, t)
    ensures var s := After(Initial(cell), before + [Return(t, true, error)] + others);
      PcOf(s, t).Outside? ==> t in s.slots && s.slots[t] == error
  {
    var run := before + [Return(t, true, error)];
    AfterConcat(Initial(cell), before, [Return(t, true, error)]);
    var s := After(Initial(cell), before);
    assert [Return(t, true, error)][..0] == [];
    assert After(s, [Return(t, true, error)]) == Apply(s, Return(t, true, error));
    AfterConcat(Initial(cell), run, others);
    LeftIsKept(After(Initial(cell), run), others, t);
    InvHolds(cell, run + others);
  }

  lemma Next(cell: NativeError, run: seq<Action>, s: State, a: Action) returns (run': seq<Action>, s': State)
    requires After(Initial(cell), run) == s
    ensures s' == Apply(s, a) && After(Initial(cell), run') == s'
  {
    run', s' := run + [a], Apply(s, a);
    assert run'[..|run|] == run;
  }

  /** Without the read under the lock the cell may already belong to someone else. */
  lemma CellIsNotEnough(cell: NativeError, mine: NativeError, theirs: NativeError)
    ensures exists run ::
      var s := After(Initial(cell), run);
      PcOf(s, 0).Outside? && 0 in s.slots && s.slots[0] == mine && s.cell == theirs
  {
    var run, s := [], Initial(cell);
    run, s := Next(cell, run, s, Enter(0, true));
    run, s := Next(cell, run, s, Return(0, true, mine));
    run, s := Next(cell, run, s, Read(0));
    assert s.slots == map[0 := mine] && s.lock.None? && PcOf(s, 0).Outside? && PcOf(s, 1).Outside?;
    run, s := Next(cell, run, s, Enter(1, true));
    run, s := Next(cell, run, s, Return(1, false, theirs));
  }
}
