/** One call of the engine: lock, gates, the loop over the files, unlock. Every statement it sends is a step of the
    machine, so what holds over all runs holds of it. */
module MigrationEngine {
  import opened Outcomes
  import opened PatchRegistry
  import opened MigrationMachine
  import opened MigrationInvariants
  import opened MigrationAttempts
  import opened MigrationRuns
  import opened MigrationSurvivors
  import opened MigrationPrograms
  import opened MigrationOutcomes

  datatype Report = Report(applied: seq<Name>, failed: seq<Name>, pendingReview: seq<Name>, skipped: seq<Name>)

  /** Whether the lock is granted, which statement of which patch fails and when the failure cannot be written down. */
  datatype Weather = Weather(locked: bool, fails: (nat, nat) -> bool, loses: nat -> bool, ms: nat)

  /** No statement fails. */
  ghost predicate Calm(env: Weather) {
    forall k, pc :: !env.fails(k, pc)
  }

  /** The files before `m` in file order: those settled at the start are skipped, the others applied. */
  function NamesWhere(files: seq<File>, m: nat, start: Rows, settled: bool): seq<Name>
    requires m <= |files|
  {
    if m == 0 then []
    else NamesWhere(files, m - 1, start, settled)
         + (if Settled(start, files[m - 1].name) == settled then [files[m - 1].name] else [])
  }

  class Engine {
    var store: Store
    ghost var run: seq<Step>
    ghost var world: World

    ghost predicate Valid(G: seq<Name>)
      reads this
    {
      Distinct(G) && After(run, G) == Some(world) && world.store == store
    }

    constructor ()
      ensures store == Init.store && run == [] && world == Init
    {
      store := Init.store;
      run, world := [], Init;
    }

    ghost method Take(s: Step, G: seq<Name>)
      requires Distinct(G) && After(run, G) == Some(world) && Enabled(world, s, G)
      requires store == Do(world, s, G).store
      modifies `run, `world
      ensures Valid(G) && run == old(run) + [s] && world == Do(old(world), s, G)
    {
      hide Enabled, Do, Distinct;
      OneMore(run, s, G);
      run, world := run + [s], Do(world, s, G);
    }

    /** Sends the statements of one patch until one fails, which rolls the open transaction back. */
    method Attempt(pid: nat, o: Options, k: nat, env: Weather, ghost snap: Rows, ghost G: seq<Name>)
        returns (ok: bool, pc: nat)
      requires Valid(G) && k < |o.files| && pid in world.procs
      requires world.procs[pid] == Proc(o, Executing(snap, k, 0, Auto))
      modifies this
      ensures Valid(G) && old(run) <= run && pid in world.procs
      ensures world.procs[pid] == Proc(o, if ok then Looping(snap, k + 1) else Failing(snap, k))
      ensures pc <= |Program(o.files[k].content)| && (ok <==> pc == |Program(o.files[k].content)|)
      ensures exists s :: PlayedTo(old(store), store, s, o.files[k], pc, Success(o, o.files[k], env.ms))
      ensures Calm(env) && Plain(o.files[k].content) ==> ok
    {
      var f := o.files[k];
      var program := Program(f.content);
      var session := Auto;
      pc := 0;
      ghost var start, before, a := run, store, Success(o, f, env.ms);
      PlayedStart(before, f, a);
      hide Program, Perform, After, Distinct, CanRun, Plain, PlayedTo, Success, Do, Enabled;
      while pc < |program|
        invariant pc <= |program| && Valid(G) && start <= run && pid in world.procs
        invariant world.procs[pid] == Proc(o, if pc < |program| then Executing(snap, k, pc, session) else Looping(snap, k + 1))
        invariant PlayedTo(before, store, session, f, pc, a)
      {
        RefusedIsNoCommit(session, program[pc]);
        if !CanRun(session, program[pc]) || (env.fails(k, pc) && (session.Tx? || !program[pc].Commit?)) {
          if Plain(f.content) { NeverRefused(f.content, session, pc); }
          FailDoes(world, pid, o, snap, k, pc, session, G);
          Take(Step.Fail(pid), G);
          return false, pc;
        }
        ExecDoes(world, pid, o, snap, k, pc, session, env.ms, G);
        PlayedMore(before, store, session, f, pc, a);
        var (d, s) := Perform(store, session, program[pc], f, Success(o, f, env.ms));
        store, session, pc := d, s, pc + 1;
        Take(Exec(pid, env.ms), G);
      }
      ok := true;
    }

    lemma ExecDoes(w: World, pid: nat, o: Options, snap: Rows, k: nat, pc: nat, s: Session, ms: nat, G: seq<Name>)
      requires pid in w.procs && w.procs[pid] == Proc(o, Executing(snap, k, pc, s)) && k < |o.files|
      requires pc < |Program(o.files[k].content)| && CanRun(s, Program(o.files[k].content)[pc])
      ensures Enabled(w, Exec(pid, ms), G)
      ensures var f, v := o.files[k], Do(w, Exec(pid, ms), G);
        var (d, t) := Perform(w.store, s, Program(f.content)[pc], f, Success(o, f, ms));
        v.store == d && pid in v.procs
        && v.procs[pid] == Proc(o, if pc + 1 < |Program(f.content)| then Executing(snap, k, pc + 1, t) else Looping(snap, k + 1))
    {
      hide Program, Perform, CanRun, Success;
    }

    lemma FailDoes(w: World, pid: nat, o: Options, snap: Rows, k: nat, pc: nat, s: Session, G: seq<Name>)
      requires pid in w.procs && w.procs[pid] == Proc(o, Executing(snap, k, pc, s)) && k < |o.files|
      requires pc < |Program(o.files[k].content)| && (s.Tx? || !Program(o.files[k].content)[pc].Commit?)
      ensures Enabled(w, Step.Fail(pid), G)
      ensures var v := Do(w, Step.Fail(pid), G);
        v.store == w.store && pid in v.procs && v.procs[pid] == Proc(o, Failing(snap, k))
    {
      hide Program;
    }

    lemma RefusedIsNoCommit(s: Session, i: Instr)
      ensures i.Commit? ==> CanRun(s, i)
    {
    }

    /** The failure marker is written after the rollback, on its own; when even that fails the run throws. */
    method StopAtFailure(pid: nat, o: Options, k: nat, env: Weather, ghost snap: Rows, ghost G: seq<Name>) returns (r: Outcome)
      requires Valid(G) && k < |o.files| && pid in world.procs && world.procs[pid] == Proc(o, Failing(snap, k))
      modifies this
      ensures Valid(G) && old(run) <= run && pid in world.procs && world.procs[pid] == Proc(o, Unwinding(r))
      ensures r == if env.loses(k) then Threw else Returned(Apply, true)
      ensures store == if env.loses(k) then old(store)
        else old(store).(rows := Upserted(old(store).rows, o.files[k].name, Failure(o, o.files[k], "failed")))
    {
      hide After, Distinct, Upserted;
      if env.loses(k) {
        Take(LoseFailure(pid), G);
        return Threw;
      }
      store := store.(rows := Upserted(store.rows, o.files[k].name, Failure(o, o.files[k], "failed")));
      Take(RecordFailure(pid, "failed"), G);
      return Returned(Apply, true);
    }

    method StopForReview(pid: nat, o: Options, k: nat, snap: Rows, ghost G: seq<Name>)
      requires Valid(G) && k < |o.files| && pid in world.procs && world.procs[pid] == Proc(o, Looping(snap, k))
      requires !Settled(snap, o.files[k].name) && NeedsReview(o, snap, o.files[k])
      modifies this
      ensures Valid(G) && old(run) <= run && pid in world.procs
      ensures world.procs[pid] == Proc(o, Unwinding(Returned(Apply, true)))
      ensures store == old(store).(rows := Upserted(old(store).rows, o.files[k].name, ReviewWanted(o, o.files[k])))
    {
      hide After, Distinct, Upserted, Settled, NeedsReview;
      store := store.(rows := Upserted(store.rows, o.files[k].name, ReviewWanted(o, o.files[k])));
      Take(Advance(pid), G);
    }

    /** What the loop does to one file: whether it goes on, and whether the file was applied. */
    method Handle(pid: nat, o: Options, k: nat, snap: Rows, env: Weather, ghost G: seq<Name>) returns (r: Option<Outcome>)
      requires Valid(G) && k < |o.files| && pid in world.procs && world.procs[pid] == Proc(o, Looping(snap, k))
      modifies this
      ensures Valid(G) && old(run) <= run && pid in world.procs
      ensures world.procs[pid] == Proc(o, if r == None then Looping(snap, k + 1) else Unwinding(r.value))
      ensures r.Some? ==> !Settled(snap, o.files[k].name) && (r.value == Threw || r.value == Returned(Apply, true))
      ensures r.Some? && NeedsReview(o, snap, o.files[k]) ==> r.value == Returned(Apply, true)
      ensures r == None && !Settled(snap, o.files[k].name) ==> !NeedsReview(o, snap, o.files[k])
      ensures Turned(o, snap, old(store), store, o.files[k], r, env)
    {
      hide After, Distinct, Settled, NeedsReview, Upserted, Program, View, Plain, Registered, Logged, PlayedTo;
      if Settled(snap, o.files[k].name) {
        Take(Advance(pid), G);
        return None;
      }
      if NeedsReview(o, snap, o.files[k]) {
        StopForReview(pid, o, k, snap, G);
        return Some(Returned(Apply, true));
      }
      Take(Advance(pid), G);
      ghost var d, f := store, o.files[k];
      var ok, pc := Attempt(pid, o, k, env, snap, G);
      if ok {
        if Plain(f.content) { HandledWell(d, store, o, f, pc, env); }
        return None;
      }
      ghost var mid := store;
      var stop := StopAtFailure(pid, o, k, env, snap, G);
      if Plain(f.content) { HandledBadly(d, mid, store, o, f, pc, stop, env); }
      return Some(stop);
    }

    /** A settled file changes nothing, one that wants review gets its row, any other is attempted. */
    ghost predicate Turned(o: Options, snap: Rows, d: Store, e: Store, f: File, r: Option<Outcome>, env: Weather) {
      if Settled(snap, f.name) then r == None && e == d
      else if NeedsReview(o, snap, f) then
        r.Some? && r.value.Returned? && e == d.(rows := Upserted(d.rows, f.name, ReviewWanted(o, f)))
      else Plain(f.content) ==> Handled(d, e, o, f, r, env)
    }

    /** A patch without controls was applied with all its effects and its row, or failed with an initial part of them. */
    ghost predicate Handled(d: Store, e: Store, o: Options, f: File, r: Option<Outcome>, env: Weather)
      requires Plain(f.content)
    {
      if r == None then e == Registered(Logged(d, f, AllTags(f.content.segments)), f, Success(o, f, env.ms))
      else !Calm(env) && exists j :: FailedAfter(d, e, o, f, r.value, j)
    }

    lemma HandledWell(d: Store, e: Store, o: Options, f: File, pc: nat, env: Weather)
      requires Plain(f.content) && pc == |Program(f.content)|
      requires exists s :: PlayedTo(d, e, s, f, pc, Success(o, f, env.ms))
      ensures Handled(d, e, o, f, None, env)
    {
      PlayedProgram(d, f, Success(o, f, env.ms));
      assert Program(f.content)[..pc] == Program(f.content);
      hide Program, Played, Registered, Logged;
    }

    lemma HandledBadly(d: Store, mid: Store, e: Store, o: Options, f: File, pc: nat, r: Outcome, env: Weather)
      requires Plain(f.content) && pc < |Program(f.content)| && !Calm(env)
      requires exists s :: PlayedTo(d, mid, s, f, pc, Success(o, f, env.ms))
      requires e == if r.Threw? then mid else mid.(rows := Upserted(mid.rows, f.name, Failure(o, f, "failed")))
      ensures Handled(d, e, o, f, Some(r), env)
    {
      var j := Unfinished(d, f, Success(o, f, env.ms), pc);
      hide Program, Played, Upserted;
      assert FailedAfter(d, e, o, f, r, j);
    }

    /** The files before `m` were skipped or applied, the run stopped at file `m`; for patches without controls the store is
        exactly what that leaves. */
    ghost predicate Worked(o: Options, before: Store, after: Store, r: Outcome, report: Report, m: nat, env: Weather) {
      m <= |o.files| && (if m == |o.files| then r == Returned(Apply, false) else r == Threw || r == Returned(Apply, true))
      && report.applied == NamesWhere(o.files, m, before.rows, false)
      && report.skipped == NamesWhere(o.files, m, before.rows, true)
      && report.failed + report.pendingReview == (if m < |o.files| && r.Returned? then [o.files[m].name] else [])
      && (report.pendingReview != [] <==> m < |o.files| && NeedsReview(o, before.rows, o.files[m]))
      && (PlainFiles(o.files) ==>
            Left(o, before, after, r, m, report.pendingReview != [], env.ms)
            && (Calm(env) && m < |o.files| ==> report.pendingReview != []))
    }

    /** The loop over the files: skip, stop for review, apply, or stop at a failure. */
    method ApplyFiles(pid: nat, o: Options, env: Weather, ghost G: seq<Name>) returns (r: Outcome, report: Report, m: nat)
      requires Valid(G) && View(o, G) && pid in world.procs && world.procs[pid] == Proc(o, Looping(store.rows, 0))
      modifies this
      ensures Valid(G) && old(run) <= run && pid in world.procs && world.procs[pid] == Proc(o, Unwinding(r))
      ensures Worked(o, old(store), store, r, report, m, env)
    {
      var snap := store.rows;
      ghost var start, before := run, store;
      report := Report([], [], [], []);
      m := 0;
      ViewDistinct(o, G);
      ListsStart(o, snap);
      hide After, Distinct, Settled, NeedsReview, Program, Upserted, View, DistinctFiles, Progressed, Left, Registered, Logged,
           FailedAfter, PlainFiles, Turned, Calm, Worked, NamesWhere, Lists, Do, Enabled, Valid;
      if PlainFiles(o.files) { ProgressStarts(o, store, env.ms); }
      while m < |o.files|
        invariant m <= |o.files| && Valid(G) && start <= run && pid in world.procs
        invariant world.procs[pid] == Proc(o, Looping(snap, m))
        invariant report == Lists(o, m, snap)
        invariant PlainFiles(o.files) ==> Progressed(o, before, store, m, env.ms)
      {
        var f := o.files[m];
        ghost var now := store;
        var stop := Handle(pid, o, m, snap, env, G);
        if PlainFiles(o.files) { Onward(o, before, now, store, m, stop, env); }
        if stop.Some? {
          r := stop.value;
          if NeedsReview(o, snap, f) { report := report.(pendingReview := [f.name]); }
          else if r.Returned? { report := report.(failed := [f.name]); }
          WorkedUpTo(o, before, store, r, report, m, env);
          return;
        }
        ListsMore(o, m, snap);
        if Settled(snap, f.name) { report := report.(skipped := report.skipped + [f.name]); }
        else { report := report.(applied := report.applied + [f.name]); }
        m := m + 1;
      }
      LeaveLoop(pid, o, snap, G);
      r := Returned(Apply, false);
      WorkedThrough(o, before, store, r, env);
    }

    ghost method LeaveLoop(pid: nat, o: Options, snap: Rows, G: seq<Name>)
      requires Valid(G) && pid in world.procs && world.procs[pid] == Proc(o, Looping(snap, |o.files|))
      modifies `run, `world
      ensures Valid(G) && old(run) <= run && pid in world.procs
      ensures world.procs[pid] == Proc(o, Unwinding(Returned(Apply, false)))
    {
      hide After, Distinct, Enabled, Do;
      LoopEnds(world, pid, o, snap, G);
      Take(Advance(pid), G);
    }

    function Lists(o: Options, m: nat, start: Rows): Report
      requires m <= |o.files|
    {
      Report(NamesWhere(o.files, m, start, false), [], [], NamesWhere(o.files, m, start, true))
    }

    lemma ListsMore(o: Options, m: nat, start: Rows)
      requires m < |o.files|
      ensures var n, l := o.files[m].name, Lists(o, m, start);
        Lists(o, m + 1, start) ==
          if Settled(start, n) then l.(skipped := l.skipped + [n]) else l.(applied := l.applied + [n])
    {
      hide Settled;
    }

    lemma ListsStart(o: Options, start: Rows)
      ensures Lists(o, 0, start) == Report([], [], [], [])
    {
    }

    lemma LoopEnds(w: World, pid: nat, o: Options, snap: Rows, G: seq<Name>)
      requires pid in w.procs && w.procs[pid] == Proc(o, Looping(snap, |o.files|))
      ensures Enabled(w, Advance(pid), G)
      ensures var v := Do(w, Advance(pid), G);
        v.store == w.store && pid in v.procs && v.procs[pid] == Proc(o, Unwinding(Returned(Apply, false)))
    {
    }

    lemma WorkedUpTo(o: Options, before: Store, after: Store, r: Outcome, report: Report, m: nat, env: Weather)
      requires m < |o.files| && (r == Threw || r == Returned(Apply, true))
      requires var review, n := NeedsReview(o, before.rows, o.files[m]), o.files[m].name; var l := Lists(o, m, before.rows);
        (review ==> r.Returned?)
        && report == if review then l.(pendingReview := [n]) else if r.Returned? then l.(failed := [n]) else l
      requires PlainFiles(o.files) ==>
        Left(o, before, after, r, m, NeedsReview(o, before.rows, o.files[m]), env.ms)
        && (Calm(env) ==> NeedsReview(o, before.rows, o.files[m]))
      ensures Worked(o, before, after, r, report, m, env)
    {
      hide Left, NeedsReview, NamesWhere, PlainFiles, Calm;
    }

    lemma WorkedThrough(o: Options, before: Store, after: Store, r: Outcome, env: Weather)
      requires r == Returned(Apply, false)
      requires PlainFiles(o.files) ==> Progressed(o, before, after, |o.files|, env.ms)
      ensures Worked(o, before, after, r, Lists(o, |o.files|, before.rows), |o.files|, env)
    {
      if PlainFiles(o.files) { LeftAtEnd(o, before, after, r, env.ms); }
      hide Left, NamesWhere, PlainFiles;
    }

    lemma Onward(o: Options, before: Store, now: Store, after: Store, m: nat, stop: Option<Outcome>, env: Weather)
      requires PlainFiles(o.files) && DistinctFiles(o.files) && m < |o.files| && Progressed(o, before, now, m, env.ms)
      requires Turned(o, before.rows, now, after, o.files[m], stop, env)
      ensures stop == None ==> Progressed(o, before, after, m + 1, env.ms)
      ensures stop.Some? ==> Left(o, before, after, stop.value, m, NeedsReview(o, before.rows, o.files[m]), env.ms)
      ensures stop.Some? && Calm(env) ==> NeedsReview(o, before.rows, o.files[m])
    {
      var f := o.files[m];
      hide Settled, NeedsReview, Progressed, Left, Upserted, Logged, Registered, FailedAfter, DistinctFiles;
      if Settled(before.rows, f.name) {
        ProgressSkips(o, before, now, m, env.ms);
      } else if NeedsReview(o, before.rows, f) {
        LeftAtReview(o, before, now, after, stop.value, m, env.ms);
      } else if stop == None {
        ProgressApplies(o, before, now, after, m, env.ms);
      } else {
        var j :| FailedAfter(now, after, o, f, stop.value, j);
        LeftAtFailure(o, before, now, after, stop.value, m, env.ms, j);
      }
    }

    ghost predicate Enters(o: Options, rows: Rows, mode: Mode) {
      mode == Apply && o.files != [] && Admitted(o) && forall i :: 0 <= i < |o.files| ==> Unchanged(rows, o.files[i])
    }

    /** The gates, and the loop behind them. */
    method UnderLock(pid: nat, o: Options, mode: Mode, env: Weather, ghost G: seq<Name>)
        returns (r: Outcome, report: Report, m: nat)
      requires Valid(G) && View(o, G) && pid in world.procs && world.procs[pid] == Proc(o, Locked)
      modifies this
      ensures Valid(G) && old(run) <= run && pid in world.procs && world.procs[pid] == Proc(o, Unwinding(r))
      ensures if Enters(o, old(store).rows, mode) then Worked(o, old(store), store, r, report, m, env)
              else store == old(store) && report == Report([], [], [], []) && m == 0
                   && Refuses(o, old(store).rows, mode, r)
    {
      report, m := Report([], [], [], []), 0;
      hide After, Distinct, Unchanged, Admitted, Settled, NeedsReview, View;
      Take(Read(pid, mode), G);
      var gate := ReadPhase(o, store.rows, mode);
      assert gate.Looping? <==> Enters(o, store.rows, mode);
      if gate.Looping? {
        r, report, m := ApplyFiles(pid, o, env, G);
      } else {
        r := gate.outcome;
      }
    }

    /** What the call answers when it stops before its loop. */
    ghost predicate Refuses(o: Options, rows: Rows, mode: Mode, r: Outcome) {
      if o.files == [] || mode == Off then r == Returned(mode, false)
      else if Admitted(o) && forall i :: 0 <= i < |o.files| ==> Unchanged(rows, o.files[i]) then r == Returned(Check, false)
      else r == Threw
    }

    /** The whole call. Nothing but the lock is touched when a gate refuses, and the lock is always given back. */
    method RunMigrations(pid: nat, o: Options, mode: Mode, env: Weather, ghost G: seq<Name>)
        returns (r: Outcome, report: Report, m: nat)
      requires Valid(G) && View(o, G) && pid !in world.procs && world.lock == None
      modifies this
      ensures Valid(G) && old(run) <= run && pid in world.procs && world.procs[pid] == Proc(o, Done(r)) && world.lock == None
      ensures if env.locked && Enters(o, old(store).rows, mode) then Worked(o, old(store), store, r, report, m, env)
              else store == old(store) && report == Report([], [], [], []) && m == 0
                   && if env.locked then Refuses(o, old(store).rows, mode, r) else r == Threw
      ensures r == Returned(Apply, false) ==> forall f :: f in o.files ==> Settled(store.rows, f.name)
    {
      report, m := Report([], [], [], []), 0;
      hide After, Distinct, View, Enters, Worked, Refuses;
      Take(Start(pid, o), G);
      if !env.locked {
        Take(GiveUp(pid), G);
        r := Threw;
      } else {
        Take(Acquire(pid), G);
        r, report, m := UnderLock(pid, o, mode, env, G);
        Take(Unlock(pid), G);
      }
      if r == Returned(Apply, false) { Successful(pid, o, G); }
    }

    lemma Successful(pid: nat, o: Options, G: seq<Name>)
      requires Valid(G) && pid in world.procs && world.procs[pid] == Proc(o, Done(Returned(Apply, false)))
      ensures forall f :: f in o.files ==> Settled(store.rows, f.name)
    {
      hide After, Distinct, Settled;
      SuccessStays(run, G, pid);
    }
  }
}
