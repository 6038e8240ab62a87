/** What holds over whole runs: exactly once, settled prefix, applied is final, review before running. */
module MigrationRuns {
  import opened Outcomes
  import opened PatchRegistry
  import opened MigrationMachine
  import opened MigrationInvariants
  import opened MigrationAttempts

  // ----- where contents come from

  predicate Shown(run: seq<Step>, f: File) {
    exists i :: 0 <= i < |run| && run[i].Start? && f in run[i].options.files
  }

  ghost predicate Origins(run: seq<Step>, w: World) {
    (forall q :: q in w.procs ==> forall f :: f in w.procs[q].options.files ==> Shown(run, f))
    && (forall n :: n in w.store.ran ==> Shown(run, File(n, w.store.ran[n])))
    && (forall n :: n in w.unclean ==> exists c :: Shown(run, File(n, c)) && !Clean(c))
  }

  lemma ShownMore(run: seq<Step>, s: Step)
    ensures forall f :: Shown(run, f) ==> Shown(run + [s], f)
    ensures s.Start? ==> forall f :: f in s.options.files ==> Shown(run + [s], f)
  {
    var more := run + [s];
    forall f | Shown(run, f) ensures Shown(more, f) {
      var i :| 0 <= i < |run| && run[i].Start? && f in run[i].options.files;
      assert more[i] == run[i];
    }
    assert more[|run|] == s;
  }

  lemma {:induction false} RunOrigins(run: seq<Step>, G: seq<Name>)
    requires After(run, G).Some?
    ensures Origins(run, After(run, G).value)
  {
    if run != [] {
      var less, s := run[..|run| - 1], run[|run| - 1];
      assert run == less + [s];
      RunOrigins(less, G);
      ShownMore(less, s);
      StepOrigins(less, After(less, G).value, s, G);
    }
  }

  lemma StepOrigins(run: seq<Step>, w: World, s: Step, G: seq<Name>)
    requires Origins(run, w) && Enabled(w, s, G)
    requires forall f :: Shown(run, f) ==> Shown(run + [s], f)
    requires s.Start? ==> forall f :: f in s.options.files ==> Shown(run + [s], f)
    ensures Origins(run + [s], Do(w, s, G))
  {
    hide Shown, Clean, View, Program, Perform;
    if s.Exec? { ExecOrigins(run, w, s, G); } else { assert Do(w, s, G).store.ran == w.store.ran; }
  }

  lemma ExecOrigins(run: seq<Step>, w: World, s: Step, G: seq<Name>)
    requires Origins(run, w) && s.Exec? && Enabled(w, s, G)
    requires forall f :: Shown(run, f) ==> Shown(run + [s], f)
    ensures Origins(run + [s], Do(w, s, G))
  {
    var v, o, p := Do(w, s, G), w.procs[s.pid].options, w.procs[s.pid].phase;
    var f := o.files[p.k];
    PerformIs(w.store, p.session, Program(f.content)[p.pc], f, Success(o, f, s.ms));
    assert v.store.ran == w.store.ran || v.store.ran == w.store.ran[f.name := f.content];
    assert Shown(run, f) && f == File(f.name, f.content);
    assert v.procs == w.procs[s.pid := Proc(o, v.procs[s.pid].phase)] && v.unclean == w.unclean;
    hide Shown, Clean, View, Program, Perform, Do, Enabled;
  }

  // ----- exactly once

  predicate AlwaysClean(run: seq<Step>, n: Name) {
    forall i :: 0 <= i < |run| && run[i].Start? ==>
      forall f :: f in run[i].options.files && f.name == n ==> Clean(f.content)
  }

  /** With any processes, crashes and admin operations: a patch whose every content was one clean transaction has
      its effects durable exactly when it is `applied`, all of them once, in order. */
  lemma ExactlyOnce(run: seq<Step>, G: seq<Name>, n: Name)
    requires Distinct(G) && After(run, G).Some? && AlwaysClean(run, n)
    ensures var d := After(run, G).value.store;
      if IsApplied(d.rows, n) then n in d.ran && Shown(run, File(n, d.ran[n])) && Of(d.log, n) == AllEffects(d.ran[n].segments)
      else Of(d.log, n) == []
  {
    RunKeeps(run, G);
    RunOrigins(run, G);
    var w := After(run, G).value;
    assert n !in w.unclean;
    assert ExactlyOnceAt(w.store, n);
  }

  // ----- the settled patches are a prefix

  /** The settled patches are an initial part of the list, and at most the next patch has a row besides. */
  lemma SettledPrefix(run: seq<Step>, G: seq<Name>) returns (m: nat)
    requires Distinct(G) && After(run, G).Some?
    ensures m <= |G|
    ensures var rows := After(run, G).value.store.rows;
      (forall i :: 0 <= i < m ==> Settled(rows, G[i])) && (forall i :: m <= i < |G| ==> !Settled(rows, G[i]))
      && (forall n :: n in rows ==> exists i :: 0 <= i <= m && i < |G| && n == G[i])
  {
    RunKeeps(run, G);
    var rows := After(run, G).value.store.rows;
    m := 0;
    while m < |G| && Settled(rows, G[m])
      invariant m <= |G| && forall i :: 0 <= i < m ==> Settled(rows, G[i])
    {
      m := m + 1;
    }
    assert Ordered(rows, G);
    hide After, Inv, Settled;
    assert forall j :: m < j < |G| ==> G[j] !in rows;
  }

  /** A run in apply mode that returned without `degraded` left everything it saw settled, and it stays settled. */
  lemma SuccessStays(run: seq<Step>, G: seq<Name>, pid: nat)
    requires Distinct(G) && After(run, G).Some?
    requires var w := After(run, G).value; pid in w.procs && w.procs[pid].phase == Done(Returned(Apply, false))
    ensures var w := After(run, G).value;
      forall f :: f in w.procs[pid].options.files ==> Settled(w.store.rows, f.name)
  {
    RunKeeps(run, G);
    var w := After(run, G).value;
    assert AllSettled(w.store.rows, G, |w.procs[pid].options.files|) && View(w.procs[pid].options, G);
  }

  /** At most one process is between taking the lock and giving it back. */
  lemma OneHolder(run: seq<Step>, G: seq<Name>, p: nat, q: nat)
    requires Distinct(G) && After(run, G).Some?
    requires var w := After(run, G).value;
      p in w.procs && q in w.procs && Holding(w.procs[p].phase) && Holding(w.procs[q].phase)
    ensures p == q
  {
    RunKeeps(run, G);
    assert LockOk(After(run, G).value);
  }

  // ----- applied is final

  /** An applied patch keeps its whole row and the content behind it through any one step. */
  lemma AppliedStep(w: World, s: Step, G: seq<Name>, n: Name)
    requires Inv(w, G) && Enabled(w, s, G) && IsApplied(w.store.rows, n)
    ensures var v := Do(w, s, G).store;
      n in v.rows && v.rows[n] == w.store.rows[n] && (n in w.store.ran ==> n in v.ran && v.ran[n] == w.store.ran[n])
  {
    if s.Exec? { AppliedExec(w, s, G, n); }
    else if s.RecordFailure? || s.Advance? { AppliedMark(w, s, G, n); }
    else if s.Retry? || s.Approve? || s.Resolve? { AdminSteps(w, s, G); AppliedAdmin(w, s, G, n); }
    else { hide Inv; }
  }

  lemma AppliedAdmin(w: World, s: Step, G: seq<Name>, n: Name)
    requires (s.Retry? || s.Approve? || s.Resolve?) && Enabled(w, s, G) && IsApplied(w.store.rows, n)
    requires AdminStep(w.store.rows, Do(w, s, G).store.rows, Do(w, s, G).cleared)
    ensures var v := Do(w, s, G).store; n in v.rows && v.rows[n] == w.store.rows[n] && v.ran == w.store.ran
  {
    hide Retried, ApprovedRows, ResolvedRows;
  }

  /** The patch a holder is about to mark is not applied. */
  lemma MarkedNotApplied(w: World, o: Options, p: Phase, G: seq<Name>)
    requires Distinct(G) && PhaseOk(w, o, p, G) && (p.Looping? || p.Failing?) && p.k < |o.files|
    requires !Settled(p.snap, o.files[p.k].name)
    ensures !IsApplied(w.store.rows, o.files[p.k].name)
  {
    hide Ordered, Admitted, Unchanged, SuccessesSettled, StillSettled, AllSettled, Grown, ApprovedStill;
  }

  lemma AppliedMark(w: World, s: Step, G: seq<Name>, n: Name)
    requires Inv(w, G) && (s.RecordFailure? || s.Advance?) && Enabled(w, s, G) && IsApplied(w.store.rows, n)
    ensures var v := Do(w, s, G).store; n in v.rows && v.rows[n] == w.store.rows[n] && v.ran == w.store.ran
  {
    var o, p := w.procs[s.pid].options, w.procs[s.pid].phase;
    assert PhaseOk(w, o, p, G);
    assert p.Failing? ==> !Settled(p.snap, o.files[p.k].name);
    if p.k < |o.files| && !Settled(p.snap, o.files[p.k].name) { MarkedNotApplied(w, o, p, G); }
    hide Inv, PhaseOk, NeedsReview, Settled;
  }

  lemma AppliedExec(w: World, s: Step, G: seq<Name>, n: Name)
    requires Inv(w, G) && s.Exec? && Enabled(w, s, G) && IsApplied(w.store.rows, n)
    ensures var v := Do(w, s, G).store;
      n in v.rows && v.rows[n] == w.store.rows[n] && (n in w.store.ran ==> n in v.ran && v.ran[n] == w.store.ran[n])
  {
    var o, p := w.procs[s.pid].options, w.procs[s.pid].phase;
    var f := o.files[p.k];
    var i, a := Program(f.content)[p.pc], Success(o, f, s.ms);
    assert PhaseOk(w, o, p, G);
    PerformIs(w.store, p.session, i, f, a);
    StagedStep(w.store, f, p.pc, p.session, a);
    if DurableRow(p.session, i, a).Some? {
      assert !(p.pc == Last(f.content) && !p.session.Tx?);
      hide Inv, Program, Perform, PhaseOk;
      NotYetApplied(w, o, p, G);
    }
    hide Inv, Program, Perform, PhaseOk;
  }

  /** Through any further processes, crashes and admin operations an applied row never changes again. */
  lemma {:induction false} AppliedIsFinal(run: seq<Step>, more: seq<Step>, G: seq<Name>, n: Name)
    requires Distinct(G) && After(run, G).Some? && After(run + more, G).Some?
    requires IsApplied(After(run, G).value.store.rows, n)
    ensures var d, e := After(run, G).value.store, After(run + more, G).value.store;
      n in e.rows && e.rows[n] == d.rows[n] && n in d.ran && n in e.ran && e.ran[n] == d.ran[n]
      && e.rows[n].hash == e.ran[n].sha
    decreases |more|
  {
    if more == [] {
      assert run + more == run;
      RunKeeps(run, G);
    } else {
      var less, s := more[..|more| - 1], more[|more| - 1];
      assert (run + more)[..|run + more| - 1] == run + less;
      AppliedIsFinal(run, less, G, n);
      RunKeeps(run + less, G);
      hide Inv, Enabled, Do;
      AppliedStep(After(run + less, G).value, s, G, n);
    }
  }

  // ----- changed content

  /** The manifest lists the file under its hash; if it is settled, its row has the hash of the file, or of its raw text. */
  ghost predicate Intact(o: Options, rows: Rows, f: File) {
    var n, c := f.name, f.content;
    n in o.manifest && o.manifest[n] == c.sha
    && (n in rows && rows[n].status in {Status.Applied, Status.ResolvedManual} ==> rows[n].hash in {c.sha, c.shaRaw})
  }

  /** Where the gates lead. A run enters its loop exactly when it is in apply mode and its files, signed for, are all intact; one
      with nothing to do, switched off or checking returns; any other throws. */
  lemma EntersLoop(w: World, s: Step, G: seq<Name>)
    requires s.Read? && Enabled(w, s, G)
    ensures var o, p := w.procs[s.pid].options, Do(w, s, G).procs[s.pid].phase;
      var intact := o.signed && forall f :: f in o.files ==> Intact(o, w.store.rows, f);
      (p.Looping? <==> o.files != [] && s.mode == Apply && intact)
      && (p == Unwinding(Returned(s.mode, false)) <==> o.files == [] || s.mode == Off || (s.mode == Check && intact))
      && (p == Unwinding(Threw) <==> o.files != [] && s.mode != Off && !intact)
    ensures Do(w, s, G).store == w.store
  {
    var o, rows := w.procs[s.pid].options, w.store.rows;
    forall f | f in o.files ensures Intact(o, rows, f) <==> Declared(o, f) && Unchanged(rows, f) {
    }
    var intact := forall f :: f in o.files ==> Intact(o, rows, f);
    assert intact <==> forall i :: 0 <= i < |o.files| ==> Declared(o, o.files[i]) && Unchanged(rows, o.files[i]) by {
      hide Intact, Declared, Unchanged;
      if !intact {
        var f :| f in o.files && !Intact(o, rows, f);
        var i :| 0 <= i < |o.files| && o.files[i] == f;
        assert !(Declared(o, o.files[i]) && Unchanged(rows, o.files[i]));
      }
    }
    hide Intact, Declared, Unchanged;
  }

  /** One turn of the loop, by the row the run saw: a file is skipped exactly when it was applied or resolved; any other that
      wants review and has none from the row or the options gets the row that waits for it and ends the run; any other runs. */
  lemma TurnsExactly(w: World, s: Step, G: seq<Name>)
    requires s.Advance? && Enabled(w, s, G)
    ensures var o, was, v := w.procs[s.pid].options, w.procs[s.pid].phase, Do(w, s, G);
      var p := v.procs[s.pid].phase;
      if was.k == |o.files| then p == Unwinding(Returned(Apply, false)) && v.store == w.store
      else
        var f := o.files[was.k];
        var seen := if f.name in was.snap then {was.snap[f.name].status} else {};
        var settled := Status.Applied in seen || Status.ResolvedManual in seen;
        var stops := !settled && f.content.review && Status.Approved !in seen && f.name !in o.approvedReviews;
        (p == Looping(was.snap, was.k + 1) <==> settled) && (p == Unwinding(Returned(Apply, true)) <==> stops)
        && (p == Executing(was.snap, was.k, 0, Auto) <==> !settled && !stops)
        && v.store.log == w.store.log && v.store.ran == w.store.ran
        && (stops ==> AwaitsReview(w.store.rows, v.store.rows, o, f)) && (!stops ==> v.store.rows == w.store.rows)
  {
  }

  /** The row of `f` now waits for review, the others are as they were. */
  ghost predicate AwaitsReview(before: Rows, after: Rows, o: Options, f: File) {
    after.Keys == before.Keys + {f.name} && (forall n :: n in before && n != f.name ==> after[n] == before[n])
    && var r := after[f.name];
       r.status == Status.PendingReview && r.hash == f.content.sha && r.keyId == o.keyId && r.error == None
       && r.attempts == (if f.name in before then before[f.name].attempts else 0) + 1 && (r.atomic <==> !f.content.noTransaction)
  }

  /** In every reachable state, a process at work holds, for every applied patch it was shown before its loop, the
      content that was executed: its hash is the one recorded when that content ran. */
  lemma ChangedContentNeverRuns(run: seq<Step>, G: seq<Name>, pid: nat, f: File)
    requires Distinct(G) && After(run, G).Some?
    requires var w := After(run, G).value;
      pid in w.procs && w.procs[pid].phase.Executing? && f in w.procs[pid].options.files
      && IsApplied(w.procs[pid].phase.snap, f.name)
    ensures var d := After(run, G).value.store;
      f.name in d.ran && (f.content.sha == d.ran[f.name].sha || f.content.shaRaw == d.ran[f.name].sha)
  {
    RunKeeps(run, G);
    var w := After(run, G).value;
    var o, p := w.procs[pid].options, w.procs[pid].phase;
    assert PhaseOk(w, o, p, G);
    var i :| 0 <= i < |o.files| && o.files[i] == f;
    assert Unchanged(p.snap, o.files[i]);
    assert RanOk(w.store) && StillSettled(w.store.rows, p.snap);
  }

  // ----- review

  predicate Approves(w: World, s: Step, n: Name) {
    s.Approve? && s.name == n && n in w.store.rows && w.store.rows[n].status == Status.PendingReview
  }

  predicate RecordsFailure(w: World, s: Step, n: Name) {
    s.RecordFailure? && s.pid in w.procs && w.procs[s.pid].phase.Failing?
    && w.procs[s.pid].phase.k < |w.procs[s.pid].options.files|
    && w.procs[s.pid].options.files[w.procs[s.pid].phase.k].name == n
  }

  predicate ApprovedAt(run: seq<Step>, G: seq<Name>, n: Name, i: nat) {
    i < |run| && After(run[..i], G).Some? && Approves(After(run[..i], G).value, run[i], n)
  }

  predicate FailedAt(run: seq<Step>, G: seq<Name>, n: Name, i: nat) {
    i < |run| && After(run[..i], G).Some? && RecordsFailure(After(run[..i], G).value, run[i], n)
  }

  /** An admin approved `n`, and no failure of `n` was recorded after that. */
  ghost predicate ApprovedSinceFailure(run: seq<Step>, G: seq<Name>, n: Name) {
    exists i :: 0 <= i < |run| && ApprovedAt(run, G, n, i) && forall j :: i < j < |run| ==> !FailedAt(run, G, n, j)
  }

  lemma {:induction false} ClearedMeans(run: seq<Step>, G: seq<Name>, n: Name)
    requires After(run, G).Some? && n in After(run, G).value.cleared
    ensures ApprovedSinceFailure(run, G, n)
  {
    var k := |run| - 1;
    var w, s := After(run[..k], G).value, run[k];
    assert forall i :: 0 <= i < k ==> run[..k][..i] == run[..i];
    if Approves(w, s, n) {
      assert ApprovedAt(run, G, n, k);
    } else {
      ClearedStep(w, s, G, n);
      ClearedMeans(run[..k], G, n);
      var i :| 0 <= i < k && ApprovedAt(run[..k], G, n, i) && forall j :: i < j < k ==> !FailedAt(run[..k], G, n, j);
      hide After, Enabled, Do, RecordsFailure, Approves;
      assert ApprovedAt(run, G, n, i);
      assert forall j :: i < j < k ==> (FailedAt(run, G, n, j) <==> FailedAt(run[..k], G, n, j));
    }
  }

  lemma ClearedStep(w: World, s: Step, G: seq<Name>, n: Name)
    requires Enabled(w, s, G) && n in Do(w, s, G).cleared && !Approves(w, s, n)
    ensures n in w.cleared && !RecordsFailure(w, s, n)
  {
    hide View, Program, Perform, PatchRegistry.Upserted;
  }

  /** A patch that requires review runs only when the caller's options approve it, or an admin approved it and no
      failure was recorded since. */
  lemma ReviewBeforeRun(run: seq<Step>, G: seq<Name>, pid: nat)
    requires Distinct(G) && After(run, G).Some?
    requires var w := After(run, G).value; pid in w.procs && w.procs[pid].phase.Executing?
    ensures var o, k := After(run, G).value.procs[pid].options, After(run, G).value.procs[pid].phase.k;
      k < |o.files| && (o.files[k].content.review ==>
        o.files[k].name in o.approvedReviews || ApprovedSinceFailure(run, G, o.files[k].name))
  {
    RunKeeps(run, G);
    var w := After(run, G).value;
    assert PhaseOk(w, w.procs[pid].options, w.procs[pid].phase, G);
    var n := w.procs[pid].options.files[w.procs[pid].phase.k].name;
    hide After, Inv;
    if n in w.cleared { ClearedMeans(run, G, n); }
  }
}
