/** What every step of every process, crash or admin keeps. */
module MigrationInvariants {
  import opened Outcomes
  import opened PatchRegistry
  import opened PatchStatements
  import opened MigrationMachine

  ghost predicate Distinct(G: seq<Name>) {
    forall i, j :: 0 <= i < j < |G| ==> G[i] != G[j]
  }

  ghost predicate Before(G: seq<Name>, k: nat, n: Name) {
    exists i :: 0 <= i < k && i < |G| && G[i] == n
  }

  /** A patch has a registry row only when everything before it is settled. */
  ghost predicate Ordered(rows: Rows, G: seq<Name>) {
    (forall n :: n in rows ==> n in G)
    && (forall i, j :: 0 <= i < j < |G| && G[j] in rows ==> Settled(rows, G[i]))
  }

  ghost predicate AllSettled(rows: Rows, G: seq<Name>, k: nat) {
    k <= |G| && forall i :: 0 <= i < k ==> Settled(rows, G[i])
  }

  // ----- live rows against the snapshot the lock holder works from

  ghost predicate Grown(rows: Rows, snap: Rows, G: seq<Name>, k: nat) {
    forall n :: n in rows ==> n in snap || Before(G, k, n)
  }

  ghost predicate AppliedSince(rows: Rows, snap: Rows, G: seq<Name>, k: nat) {
    forall n :: IsApplied(rows, n) ==> IsApplied(snap, n) || Before(G, k, n)
  }

  ghost predicate IsApproved(rows: Rows, n: Name) {
    n in rows && rows[n].status == Status.Approved
  }

  ghost predicate ApprovedStill(rows: Rows, snap: Rows, G: seq<Name>, k: nat) {
    forall n :: IsApproved(snap, n) ==> IsApproved(rows, n) || Before(G, k, n)
  }

  ghost predicate StillSettled(rows: Rows, snap: Rows) {
    forall n :: Settled(snap, n) ==> n in rows && rows[n] == snap[n]
  }

  /** The gates this run passed before its loop. */
  ghost predicate Gated(o: Options, snap: Rows, G: seq<Name>) {
    View(o, G) && Admitted(o) && Ordered(snap, G)
    && forall i :: 0 <= i < |o.files| ==> Unchanged(snap, o.files[i])
  }

  ghost predicate Success?(p: Proc) {
    p.phase == Done(Returned(Apply, false))
  }

  ghost predicate SuccessesSettled(procs: map<nat, Proc>, rows: Rows, G: seq<Name>) {
    forall q :: q in procs && Success?(procs[q]) ==> AllSettled(rows, G, |procs[q].options.files|)
  }

  // ----- the transaction an attempt holds open

  function Last(c: Content): int {
    |Program(c)| - 1
  }

  ghost predicate StagedOk(d: Store, f: File, pc: nat, s: Session) {
    if pc < Last(f.content) then s.Tx? ==> s.staged == None
    else if !s.Tx? then IsApplied(d.rows, f.name)
    else s.staged.Some? && s.staged.value.status == Applied && s.staged.value.hash == f.content.sha
  }

  /** Of a clean patch nothing is durable before its last commit. While its message runs, the session has the effects since
      the last control; after it, all of them, in an explicit transaction. */
  ghost predicate TxAt(c: Content, pc: nat, s: Session)
    requires Clean(c)
  {
    var stmts := c.segments[0].stmts;
    if pc == 0 then s.Auto?
    else if pc <= |stmts| + 1 then InMessage(stmts, pc - 1, s)
    else s.Tx? && s.effects == Effects(stmts)
  }

  ghost predicate InMessage(stmts: seq<Stmt>, k: nat, s: Session)
    requires k <= |stmts|
  {
    Accepted(stmts, k) && (s.Tx? <==> InTx(stmts, k)) && !s.Auto? && s.effects == Held(stmts, k)
  }

  ghost predicate CleanOk(unclean: set<Name>, f: File, pc: nat, s: Session) {
    f.name !in unclean ==> Clean(f.content) && TxAt(f.content, pc, s)
  }

  ghost predicate ReviewOk(cleared: set<Name>, o: Options, f: File) {
    f.content.review ==> f.name in o.approvedReviews || f.name in cleared
  }

  ghost predicate LoopOk(w: World, o: Options, snap: Rows, k: nat, G: seq<Name>) {
    k <= |o.files| && Gated(o, snap, G) && StillSettled(w.store.rows, snap) && AllSettled(w.store.rows, G, k)
    && SuccessesSettled(w.procs, snap, G)
  }

  ghost predicate AttemptOk(w: World, o: Options, snap: Rows, k: nat, G: seq<Name>) {
    k < |o.files| && LoopOk(w, o, snap, k, G) && !Settled(snap, o.files[k].name)
    && Grown(w.store.rows, snap, G, k + 1)
  }

  ghost predicate PhaseOk(w: World, o: Options, p: Phase, G: seq<Name>) {
    match p
    case Unwinding(outcome) => outcome == Returned(Apply, false) ==> AllSettled(w.store.rows, G, |o.files|)
    case Looping(snap, k) =>
      LoopOk(w, o, snap, k, G) && Grown(w.store.rows, snap, G, k)
      && AppliedSince(w.store.rows, snap, G, k) && ApprovedStill(w.store.rows, snap, G, k)
    case Executing(snap, k, pc, s) =>
      AttemptOk(w, o, snap, k, G)
      && pc <= Last(o.files[k].content)
      && AppliedSince(w.store.rows, snap, G, if pc == Last(o.files[k].content) && !s.Tx? then k + 1 else k)
      && ApprovedStill(w.store.rows, snap, G, k + 1)
      && StagedOk(w.store, o.files[k], pc, s)
      && CleanOk(w.unclean, o.files[k], pc, s)
      && ReviewOk(w.cleared, o, o.files[k])
    case Failing(snap, k) => AttemptOk(w, o, snap, k, G) && AppliedSince(w.store.rows, snap, G, k)
    case _ => true
  }

  // ----- the whole database

  function Of(log: seq<Entry>, n: Name): seq<int> {
    if log == [] then []
    else Of(log[..|log| - 1], n) + (if log[|log| - 1].name == n then [log[|log| - 1].tag] else [])
  }

  function AllEffects(segments: seq<Segment>): seq<int> {
    if segments == [] then [] else Effects(segments[0].stmts) + AllEffects(segments[1..])
  }

  /** What is durable of patch `n` is exactly what the content that registered it as applied does. */
  ghost predicate ExactlyOnceAt(d: Store, n: Name) {
    if IsApplied(d.rows, n) then n in d.ran && Of(d.log, n) == AllEffects(d.ran[n].segments) else Of(d.log, n) == []
  }

  ghost predicate LogOk(d: Store, unclean: set<Name>) {
    forall n :: n !in unclean ==> ExactlyOnceAt(d, n)
  }

  ghost predicate RanOk(d: Store) {
    forall n :: IsApplied(d.rows, n) ==> n in d.ran && d.rows[n].hash == d.ran[n].sha
  }

  ghost predicate ClearedOk(rows: Rows, cleared: set<Name>) {
    forall n :: IsApproved(rows, n) ==> n in cleared
  }

  ghost predicate StoreOk(w: World, G: seq<Name>) {
    Ordered(w.store.rows, G) && RanOk(w.store) && LogOk(w.store, w.unclean) && ClearedOk(w.store.rows, w.cleared)
    && SuccessesSettled(w.procs, w.store.rows, G)
  }

  ghost predicate LockOk(w: World) {
    (w.lock.Some? ==> w.lock.value in w.procs)
    && forall q :: q in w.procs ==> (Holding(w.procs[q].phase) <==> w.lock == Some(q))
  }

  ghost predicate ViewsOk(w: World, G: seq<Name>) {
    forall q :: q in w.procs ==> View(w.procs[q].options, G)
  }

  ghost predicate PhasesOk(w: World, G: seq<Name>) {
    forall q :: q in w.procs ==> PhaseOk(w, w.procs[q].options, w.procs[q].phase, G)
  }

  ghost predicate Inv(w: World, G: seq<Name>) {
    Distinct(G) && StoreOk(w, G) && LockOk(w) && ViewsOk(w, G) && PhasesOk(w, G)
  }

  // ----- steps that leave the database alone

  /** No new successful process, same database: whatever a process relies on still holds. */
  ghost predicate Quieter(w: World, v: World) {
    v.store == w.store && v.cleared == w.cleared && v.unclean == w.unclean
    && forall q :: q in v.procs && Success?(v.procs[q]) ==> q in w.procs && v.procs[q] == w.procs[q]
  }

  lemma PhaseQuieter(w: World, v: World, o: Options, p: Phase, G: seq<Name>)
    requires Quieter(w, v) && PhaseOk(w, o, p, G)
    ensures PhaseOk(v, o, p, G)
  {
    hide Gated, Settled, AllSettled, Grown, AppliedSince, ApprovedStill, StagedOk, CleanOk, ReviewOk;
    assert forall s :: SuccessesSettled(w.procs, s, G) ==> SuccessesSettled(v.procs, s, G);
  }

  ghost predicate Moving(w: World, v: World, G: seq<Name>, q: nat)
    requires q in v.procs
  {
    !(q in w.procs && v.procs[q] == w.procs[q]) ==> PhaseOk(v, v.procs[q].options, v.procs[q].phase, G)
  }

  lemma QuietStep(w: World, v: World, G: seq<Name>)
    requires Inv(w, G) && Quieter(w, v) && LockOk(v) && ViewsOk(v, G)
    requires forall q :: q in v.procs ==> Moving(w, v, G, q)
    ensures Inv(v, G)
  {
    hide PhaseOk, Ordered, RanOk, LogOk, ClearedOk, View;
    forall q | q in v.procs ensures PhaseOk(v, v.procs[q].options, v.procs[q].phase, G) {
      if q in w.procs && v.procs[q] == w.procs[q] { PhaseQuieter(w, v, v.procs[q].options, v.procs[q].phase, G); }
    }
  }

  lemma StartKeeps(w: World, s: Step, G: seq<Name>)
    requires Inv(w, G) && (s.Start? || s.GiveUp? || s.LoseFailure?) && Enabled(w, s, G)
    ensures Inv(Do(w, s, G), G)
  {
    hide LoopOk, AppliedSince, ApprovedStill, StagedOk, CleanOk, ReviewOk, AttemptOk;
    hide Ordered, RanOk, LogOk, ClearedOk, View;
    QuietStep(w, Do(w, s, G), G);
  }

  lemma AcquireKeeps(w: World, s: Step, G: seq<Name>)
    requires Inv(w, G) && s.Acquire? && Enabled(w, s, G)
    ensures Inv(Do(w, s, G), G)
  {
    hide LoopOk, AppliedSince, ApprovedStill, StagedOk, CleanOk, ReviewOk, AttemptOk;
    hide Ordered, RanOk, LogOk, ClearedOk, View;
    QuietStep(w, Do(w, s, G), G);
  }

  lemma CrashKeeps(w: World, s: Step, G: seq<Name>)
    requires Inv(w, G) && s.Crash? && Enabled(w, s, G)
    ensures Inv(Do(w, s, G), G)
  {
    hide PhaseOk, Ordered, RanOk, LogOk, ClearedOk, View;
    var v := Do(w, s, G);
    assert forall q :: q in v.procs ==> q in w.procs && v.procs[q] == w.procs[q] && q != s.pid;
    QuietStep(w, v, G);
  }

  lemma SameSettled(rows: Rows)
    ensures StillSettled(rows, rows)
  {
  }

  lemma ReadKeeps(w: World, s: Step, G: seq<Name>)
    requires Inv(w, G) && s.Read? && Enabled(w, s, G)
    ensures Inv(Do(w, s, G), G)
  {
    SameSettled(w.store.rows);
    hide Settled, RanOk, LogOk, ClearedOk, View, Admitted, Unchanged, Ordered, StillSettled;
    QuietStep(w, Do(w, s, G), G);
  }

  lemma ProgramEnds(c: Content)
    ensures Last(c) >= 2 && Program(c)[Last(c)] == Commit && Program(c)[Last(c) - 1] == Register(Atomic(c))
  {
  }

  lemma FailKeeps(w: World, s: Step, G: seq<Name>)
    requires Inv(w, G) && s.Fail? && Enabled(w, s, G)
    ensures Inv(Do(w, s, G), G)
  {
    hide LoopOk, Settled, AppliedSince, ApprovedStill, CleanOk, ReviewOk, StagedOk;
    hide Ordered, RanOk, LogOk, ClearedOk, View, Program, Grown;
    var v, o, p := Do(w, s, G), w.procs[s.pid].options, w.procs[s.pid].phase;
    ProgramEnds(o.files[p.k].content);
    PhaseQuieter(w, v, o, p, G);
    QuietStep(w, v, G);
  }

  lemma UnlockKeeps(w: World, s: Step, G: seq<Name>)
    requires Inv(w, G) && s.Unlock? && Enabled(w, s, G)
    ensures Inv(Do(w, s, G), G)
  {
    hide LoopOk, AppliedSince, ApprovedStill, StagedOk, CleanOk, ReviewOk, AttemptOk;
    hide Ordered, RanOk, LogOk, ClearedOk, View, AllSettled;
    var v := Do(w, s, G);
    assert PhaseOk(w, w.procs[s.pid].options, w.procs[s.pid].phase, G);
    forall q | q in v.procs ensures PhaseOk(v, v.procs[q].options, v.procs[q].phase, G) {
      assert !Holding(v.procs[q].phase);
    }
  }

  // ----- steps of admins

  /** What no admin operation changes: rows appear nowhere, nothing settled or applied is touched. */
  ghost predicate AdminStep(rows: Rows, next: Rows, cleared: set<Name>) {
    next.Keys == rows.Keys
    && (forall n :: n in rows ==> next[n].hash == rows[n].hash)
    && (forall n :: n in rows && (rows[n].status == Applied || rows[n].status == ResolvedManual || IsApproved(rows, n)) ==> next[n] == rows[n])
    && (forall n :: n in rows && next[n].status == Applied ==> rows[n].status == Applied)
    && (forall n :: IsApproved(next, n) && !IsApproved(rows, n) ==> n in cleared)
  }

  lemma RetryStep(rows: Rows, actor: Option<string>, cleared: set<Name>)
    ensures AdminStep(rows, Retried(rows, actor), cleared)
  {
  }

  lemma ApproveStep(rows: Rows, n: Name, actor: string, note: Option<string>, cleared: set<Name>)
    requires n in rows && rows[n].status == Status.PendingReview ==> n in cleared
    ensures AdminStep(rows, ApprovedRows(rows, n, actor, note), cleared)
  {
  }

  lemma ResolveStep(rows: Rows, n: Name, actor: string, note: string, cleared: set<Name>)
    ensures AdminStep(rows, ResolvedRows(rows, n, actor, note), cleared)
  {
  }

  lemma AdminSteps(w: World, s: Step, G: seq<Name>)
    requires (s.Retry? || s.Approve? || s.Resolve?) && Enabled(w, s, G)
    ensures AdminStep(w.store.rows, Do(w, s, G).store.rows, Do(w, s, G).cleared)
  {
    hide AdminStep, Retried, ApprovedRows, ResolvedRows;
    match s
    case Retry(actor) => RetryStep(w.store.rows, actor, w.cleared);
    case Approve(n, actor, note) => ApproveStep(w.store.rows, n, actor, note, Do(w, s, G).cleared);
    case Resolve(n, actor, note) => ResolveStep(w.store.rows, n, actor, note, w.cleared);
  }

  lemma AdminKeepsPhase(w: World, v: World, o: Options, p: Phase, G: seq<Name>)
    requires PhaseOk(w, o, p, G) && AdminStep(w.store.rows, v.store.rows, v.cleared)
    requires v.procs == w.procs && v.unclean == w.unclean && w.cleared <= v.cleared
    ensures PhaseOk(v, o, p, G)
  {
    hide Gated, SuccessesSettled, TxAt, Clean, Last;
  }

  lemma AdminKeeps(w: World, s: Step, G: seq<Name>)
    requires Inv(w, G) && (s.Retry? || s.Approve? || s.Resolve?) && Enabled(w, s, G)
    ensures Inv(Do(w, s, G), G)
  {
    hide PhaseOk, StoreOk, AdminStep, Retried, ApprovedRows, ResolvedRows, View;
    var v := Do(w, s, G);
    AdminSteps(w, s, G);
    forall q | q in v.procs ensures PhaseOk(v, v.procs[q].options, v.procs[q].phase, G) {
      AdminKeepsPhase(w, v, v.procs[q].options, v.procs[q].phase, G);
    }
    AdminKeepsStore(w, v, G);
  }

  lemma AdminKeepsStore(w: World, v: World, G: seq<Name>)
    requires StoreOk(w, G) && AdminStep(w.store.rows, v.store.rows, v.cleared)
    requires v.procs == w.procs && v.unclean == w.unclean && w.cleared <= v.cleared
    requires v.store == w.store.(rows := v.store.rows)
    ensures StoreOk(v, G)
  {
  }

  // ----- steps of the process that holds the lock

  /** Only the holder moves, and it keeps the lock: the other processes are outside. */
  lemma HolderStep(w: World, v: World, pid: nat, G: seq<Name>)
    requires Inv(w, G) && pid in w.procs && Holding(w.procs[pid].phase)
    requires v.lock == w.lock && v.procs.Keys == w.procs.Keys && v.procs[pid].options == w.procs[pid].options
    requires Holding(v.procs[pid].phase) && forall q :: q in w.procs && q != pid ==> v.procs[q] == w.procs[q]
    requires StoreOk(v, G) && PhaseOk(v, v.procs[pid].options, v.procs[pid].phase, G)
    ensures Inv(v, G)
  {
    hide LoopOk, AppliedSince, ApprovedStill, StagedOk, CleanOk, ReviewOk, AttemptOk, StoreOk, View;
    forall q | q in v.procs ensures PhaseOk(v, v.procs[q].options, v.procs[q].phase, G) {
      if q != pid { assert !Holding(v.procs[q].phase); }
    }
  }

  lemma UpsertOrdered(rows: Rows, snap: Rows, k: nat, a: Attempt, G: seq<Name>)
    requires Distinct(G) && k < |G| && Ordered(snap, G) && Ordered(rows, G) && AllSettled(rows, G, k)
    requires Grown(rows, snap, G, k + 1) && !Settled(snap, G[k])
    ensures Ordered(Upserted(rows, G[k], a), G)
  {
    var next := Upserted(rows, G[k], a);
    assert forall j :: k < j < |G| && G[j] in snap ==> Settled(snap, G[k]);
    assert forall j :: k < j < |G| ==> !Before(G, k + 1, G[j]);
    assert forall j :: k < j < |G| ==> G[j] !in next;
    assert forall i :: 0 <= i < k ==> Settled(next, G[i]);
  }

  /** An attempt on patch `k` comes after every patch a successful run has seen. */
  lemma SuccessesBefore(w: World, v: World, o: Options, snap: Rows, k: nat, a: Attempt, G: seq<Name>)
    requires Distinct(G) && AttemptOk(w, o, snap, k, G) && v.store.rows == Upserted(w.store.rows, o.files[k].name, a)
    requires forall q :: q in v.procs && Success?(v.procs[q]) ==> q in w.procs && v.procs[q] == w.procs[q]
    ensures SuccessesSettled(v.procs, v.store.rows, G)
  {
    hide Ordered, Unchanged, Grown, StillSettled, Admitted;
    forall q | q in v.procs && Success?(v.procs[q]) ensures AllSettled(v.store.rows, G, |v.procs[q].options.files|) {
      var m := |v.procs[q].options.files|;
      assert AllSettled(snap, G, m);
      assert m <= k;
      assert forall i :: 0 <= i < m ==> Settled(w.store.rows, G[i]);
    }
  }

  lemma MarkKeepsStore(w: World, v: World, o: Options, snap: Rows, k: nat, a: Attempt, G: seq<Name>)
    requires Distinct(G) && StoreOk(w, G) && AttemptOk(w, o, snap, k, G) && AppliedSince(w.store.rows, snap, G, k)
    requires a.status == Failed || a.status == Status.PendingReview
    requires v.store == w.store.(rows := Upserted(w.store.rows, o.files[k].name, a))
    requires v.unclean == w.unclean && w.cleared - {o.files[k].name} <= v.cleared
    requires forall q :: q in v.procs && Success?(v.procs[q]) ==> q in w.procs && v.procs[q] == w.procs[q]
    ensures StoreOk(v, G)
  {
    var n := o.files[k].name;
    UpsertOrdered(w.store.rows, snap, k, a, G) by { hide SuccessesSettled, Admitted, Unchanged, Settled, Upserted; }
    SuccessesBefore(w, v, o, snap, k, a, G);
    assert !IsApplied(w.store.rows, n);
    MarkKeepsLog(w, v, n, a);
  }

  lemma MarkKeepsLog(w: World, v: World, n: Name, a: Attempt)
    requires RanOk(w.store) && LogOk(w.store, w.unclean) && ClearedOk(w.store.rows, w.cleared)
    requires a.status == Failed || a.status == Status.PendingReview
    requires v.store == w.store.(rows := Upserted(w.store.rows, n, a)) && !IsApplied(w.store.rows, n)
    requires v.unclean == w.unclean && w.cleared - {n} <= v.cleared
    ensures RanOk(v.store) && LogOk(v.store, v.unclean) && ClearedOk(v.store.rows, v.cleared)
  {
    forall m | m !in v.unclean ensures ExactlyOnceAt(v.store, m) {
      assert ExactlyOnceAt(w.store, m);
    }
  }

  lemma RecordKeeps(w: World, s: Step, G: seq<Name>)
    requires Inv(w, G) && s.RecordFailure? && Enabled(w, s, G)
    ensures Inv(Do(w, s, G), G)
  {
    hide Ordered, AppliedSince, StoreOk, View, Upserted, AttemptOk;
    var v, o, p := Do(w, s, G), w.procs[s.pid].options, w.procs[s.pid].phase;
    assert PhaseOk(w, o, p, G);
    MarkKeepsStore(w, v, o, p.snap, p.k, Failure(o, o.files[p.k], s.error), G);
    HolderStep(w, v, s.pid, G);
  }

  lemma ReviewKeeps(w: World, s: Step, G: seq<Name>)
    requires Inv(w, G) && s.Advance? && Enabled(w, s, G)
    requires var o, p := w.procs[s.pid].options, w.procs[s.pid].phase;
      p.k < |o.files| && !Settled(p.snap, o.files[p.k].name) && NeedsReview(o, p.snap, o.files[p.k])
    ensures Inv(Do(w, s, G), G)
  {
    hide Ordered, AppliedSince, StoreOk, View, Upserted, LoopOk, NeedsReview, Settled;
    var v, o, p := Do(w, s, G), w.procs[s.pid].options, w.procs[s.pid].phase;
    assert PhaseOk(w, o, p, G);
    MarkKeepsStore(w, v, o, p.snap, p.k, ReviewWanted(o, o.files[p.k]), G);
    HolderStep(w, v, s.pid, G);
  }

  lemma SkipKeeps(w: World, s: Step, G: seq<Name>)
    requires Inv(w, G) && s.Advance? && Enabled(w, s, G)
    requires var o, p := w.procs[s.pid].options, w.procs[s.pid].phase;
      p.k < |o.files| ==> Settled(p.snap, o.files[p.k].name)
    ensures Inv(Do(w, s, G), G)
  {
    hide Ordered, Admitted, Unchanged, NeedsReview, RanOk, LogOk, ClearedOk;
    var v, o, p := Do(w, s, G), w.procs[s.pid].options, w.procs[s.pid].phase;
    assert PhaseOk(w, o, p, G);
    assert forall n :: Before(G, p.k, n) ==> Before(G, p.k + 1, n);
    HolderStep(w, v, s.pid, G);
  }

  /** A patch starts with nothing in a transaction, cleared for review if it needs to be. */
  lemma BeginKeeps(w: World, s: Step, G: seq<Name>)
    requires Inv(w, G) && s.Advance? && Enabled(w, s, G)
    requires var o, p := w.procs[s.pid].options, w.procs[s.pid].phase;
      p.k < |o.files| && !Settled(p.snap, o.files[p.k].name) && !NeedsReview(o, p.snap, o.files[p.k])
    ensures Inv(Do(w, s, G), G)
  {
    hide Ordered, Admitted, Unchanged, RanOk, LogOk, ClearedOk, Clean, AllSettled, StillSettled;
    hide Settled, AppliedSince;
    var v, o, p := Do(w, s, G), w.procs[s.pid].options, w.procs[s.pid].phase;
    assert PhaseOk(w, o, p, G);
    ProgramEnds(o.files[p.k].content);
    assert forall n :: Before(G, p.k, n) ==> Before(G, p.k + 1, n);
    assert !Before(G, p.k, G[p.k]);
    assert ReviewOk(v.cleared, o, o.files[p.k]) by { assert ClearedOk(w.store.rows, w.cleared); FromClear(w, o, p, G); }
    assert LogOk(v.store, v.unclean) by { LogFewer(w.store, w.unclean, v.unclean); }
    HolderStep(w, v, s.pid, G);
  }

  lemma LogFewer(d: Store, u: set<Name>, v: set<Name>)
    requires LogOk(d, u) && u <= v
    ensures LogOk(d, v)
  {
  }

  lemma FromClear(w: World, o: Options, p: Phase, G: seq<Name>)
    requires p.Looping? && p.k < |o.files| && PhaseOk(w, o, p, G) && ClearedOk(w.store.rows, w.cleared)
    requires Distinct(G) && !NeedsReview(o, p.snap, o.files[p.k])
    ensures ReviewOk(w.cleared, o, o.files[p.k])
  {
    hide Ordered, Admitted, Unchanged, SuccessesSettled, AllSettled, StillSettled, Settled, AppliedSince, Grown;
    assert !Before(G, p.k, G[p.k]);
  }
}
