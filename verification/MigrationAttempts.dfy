/** The statements of one attempt keep the invariant; so does every step, hence every run. */
module MigrationAttempts {
  import opened Outcomes
  import opened PatchRegistry
  import opened PatchStatements
  import opened MigrationMachine
  import opened MigrationInvariants

  // ----- which effects, and which registration, a statement makes durable

  function DurableTags(s: Session, i: Instr): seq<int> {
    match i
    case Run(stmt) => if stmt.EndTx? && stmt.commits then Waits(s) else []
    case Sync => if s.Implicit? then s.effects else []
    case Commit => Waits(s)
    case _ => []
  }

  function DurableRow(s: Session, i: Instr, a: Attempt): Option<Attempt> {
    match i
    case Run(stmt) => if stmt.EndTx? && stmt.commits && s.Tx? then s.staged else None
    case Commit => if s.Tx? then s.staged else None
    case Register(_) => if s.Tx? then None else Some(a)
    case _ => None
  }

  lemma PerformIs(d: Store, s: Session, i: Instr, f: File, a: Attempt)
    ensures Perform(d, s, i, f, a).0 == Flushed(d, f, DurableTags(s, i), DurableRow(s, i, a))
  {
    assert d.log + [] == d.log;
  }

  lemma {:induction false} SinglesNeverRegister(stmts: seq<Stmt>, pc: nat)
    requires pc < |Singles(stmts)|
    ensures !Singles(stmts)[pc].Register?
  {
    if pc >= 2 { SinglesNeverRegister(stmts[1..], pc - 2); }
  }

  lemma {:induction false} SegmentsNeverRegister(segments: seq<Segment>, pc: nat)
    requires pc < |SegmentPrograms(segments)|
    ensures !SegmentPrograms(segments)[pc].Register?
  {
    var s := segments[0];
    var first := if s.transactional then [Begin] + Runs(s.stmts) + [Sync, Commit] else Singles(s.stmts);
    if pc < |first| && !s.transactional { SinglesNeverRegister(s.stmts, pc); }
    if pc >= |first| { SegmentsNeverRegister(segments[1..], pc - |first|); }
  }

  lemma RegistersOnce(c: Content, pc: nat)
    requires pc < |Program(c)|
    ensures Program(c)[pc].Register? <==> pc == Last(c) - 1
  {
    if !Atomic(c) && pc < |SegmentPrograms(c.segments)| { SegmentsNeverRegister(c.segments, pc); }
  }

  lemma CleanProgram(c: Content, pc: nat)
    requires Clean(c) && pc < |Program(c)|
    ensures Last(c) == |c.segments[0].stmts| + 3
    ensures Program(c)[pc] == if pc == 0 then Begin else if pc <= |c.segments[0].stmts| then Run(c.segments[0].stmts[pc - 1])
                              else if pc == |c.segments[0].stmts| + 1 then Sync
                              else if pc == Last(c) then Commit else Register(true)
  {
  }

  // ----- the log

  lemma {:induction false} OfAppend(log: seq<Entry>, n: Name, tags: seq<int>, m: Name)
    ensures Of(log + Entries(n, tags), m) == Of(log, m) + (if m == n then tags else [])
  {
    if tags == [] {
      assert log + Entries(n, tags) == log;
    } else {
      var init := tags[..|tags| - 1];
      var all := log + Entries(n, tags);
      assert all[..|all| - 1] == log + Entries(n, init);
      OfAppend(log, n, init, m);
      assert init + [tags[|tags| - 1]] == tags;
    }
  }

  // ----- a clean patch

  /** An accepted statement of a message runs, and the session stays as the text says. */
  lemma MessageStep(stmts: seq<Stmt>, k: nat, s: Session)
    requires k < |stmts| && InMessage(stmts, k, s) && !Refused(stmts, k)
    ensures CanRun(s, Run(stmts[k])) && InMessage(stmts, k + 1, Stepped(s, stmts[k]))
    ensures (s.Tx? ==> s.staged == None) && Stepped(s, stmts[k]).Tx? ==> Stepped(s, stmts[k]).staged == None
  {
    HeldStep(stmts, k);
    InTxStep(stmts, k);
    assert Accepted(stmts, k + 1);
    hide Held, InTx, Accepted;
  }

  /** A message of a clean patch commits nothing. */
  lemma CleanRun(stmts: seq<Stmt>, k: nat, s: Session)
    requires Harmless(stmts) && k < |stmts| && InMessage(stmts, k, s) && CanRun(s, Run(stmts[k]))
    ensures DurableTags(s, Run(stmts[k])) == [] && InMessage(stmts, k + 1, Stepped(s, stmts[k]))
  {
    HarmlessNeverEarly(stmts);
    hide Held, InTx, Harmless, CommitsEarly, Accepted;
    assert !Refused(stmts, k);
    MessageStep(stmts, k, s);
    assert Accepted(stmts, k + 1);
    if stmts[k].EndTx? && stmts[k].commits && Held(stmts, k) != [] { HeldCommitsEarly(stmts, k); }
  }

  /** At its end everything waits in an explicit transaction. */
  lemma CleanEnd(stmts: seq<Stmt>, s: Session)
    requires Harmless(stmts) && InMessage(stmts, |stmts|, s)
    ensures s.Tx? && s.effects == Effects(stmts)
  {
    AllHeld(stmts);
    hide Held, InTx, EffectsLast;
  }

  /** Before its commit a clean patch has made nothing durable; its commit makes all of it durable. */
  lemma CleanStatement(f: File, pc: nat, s: Session, a: Attempt)
    requires Clean(f.content) && pc <= Last(f.content) && TxAt(f.content, pc, s) && CanRun(s, Program(f.content)[pc])
    requires pc < Last(f.content) && s.Tx? ==> s.staged == None
    ensures var i := Program(f.content)[pc];
      if pc < Last(f.content) then DurableTags(s, i) == [] && DurableRow(s, i, a) == None
      else DurableTags(s, i) == AllEffects(f.content.segments) && DurableRow(s, i, a) == s.staged
  {
    var c := f.content;
    var stmts := c.segments[0].stmts;
    CleanProgram(c, pc);
    assert c.segments[1..] == [];
    assert AllEffects(c.segments) == Effects(stmts) + [];
    hide Harmless, Effects, InMessage, Program;
    if 0 < pc <= |stmts| { CleanRun(stmts, pc - 1, s); }
    if pc == |stmts| + 1 { CleanEnd(stmts, s); }
  }

  lemma CleanSession(d: Store, f: File, pc: nat, s: Session, a: Attempt)
    requires Clean(f.content) && pc < Last(f.content) && TxAt(f.content, pc, s) && CanRun(s, Program(f.content)[pc])
    ensures TxAt(f.content, pc + 1, Perform(d, s, Program(f.content)[pc], f, a).1)
  {
    var stmts := f.content.segments[0].stmts;
    CleanProgram(f.content, pc);
    if pc == 0 { MessageStarts(stmts); }
    hide Harmless, Effects, InMessage, Program;
    if 0 < pc <= |stmts| { CleanRun(stmts, pc - 1, s); }
    if pc == |stmts| + 1 { CleanEnd(stmts, s); }
  }

  lemma MessageStarts(stmts: seq<Stmt>)
    ensures InMessage(stmts, 0, Tx([], None))
  {
  }

  // ----- one statement of any patch

  ghost predicate Succeeds(f: File, a: Attempt) {
    a.status == Applied && a.hash == f.content.sha
  }

  /** A registration becomes durable only in the last two statements, and then says `applied` under this file's hash. */
  lemma StagedStep(d: Store, f: File, pc: nat, s: Session, a: Attempt)
    requires pc <= Last(f.content) && StagedOk(d, f, pc, s) && Succeeds(f, a)
    ensures var i := Program(f.content)[pc]; var r := DurableRow(s, i, a);
      (r.Some? ==> Succeeds(f, r.value))
      && (r.Some? <==> (pc == Last(f.content) - 1 && !s.Tx?) || (pc == Last(f.content) && s.Tx?))
    ensures pc < Last(f.content) ==>
      var (d2, s2) := Perform(d, s, Program(f.content)[pc], f, a); StagedOk(d2, f, pc + 1, s2)
  {
    RegistersOnce(f.content, pc);
    ProgramEnds(f.content);
    PerformIs(d, s, Program(f.content)[pc], f, a);
    hide Program, PatchRegistry.Upserted;
  }

  /** What one statement does to the store, for the patch being attempted. */
  ghost predicate Progress(d: Store, e: Store, f: File, tags: seq<int>, r: Option<Attempt>) {
    e == Flushed(d, f, tags, r) && (r.Some? ==> Succeeds(f, r.value))
  }

  lemma ProgressKeepsLog(d: Store, e: Store, f: File, tags: seq<int>, r: Option<Attempt>, u: set<Name>)
    requires Progress(d, e, f, tags, r) && LogOk(d, u)
    requires f.name !in u ==> !IsApplied(d.rows, f.name)
    requires f.name !in u ==> tags == if r.Some? then AllEffects(f.content.segments) else []
    ensures LogOk(e, u)
  {
    hide Of, AllEffects, Entries;
    forall n | n !in u ensures ExactlyOnceAt(e, n) {
      assert ExactlyOnceAt(d, n);
      OfAppend(d.log, f.name, tags, n);
    }
  }

  lemma ProgressKeepsRows(d: Store, e: Store, f: File, tags: seq<int>, r: Option<Attempt>, cleared: set<Name>)
    requires Progress(d, e, f, tags, r)
    requires RanOk(d) && ClearedOk(d.rows, cleared)
    ensures RanOk(e) && ClearedOk(e.rows, cleared)
  {
  }

  lemma ExecStore(w: World, s: Step, G: seq<Name>)
    requires Inv(w, G) && s.Exec? && Enabled(w, s, G)
    ensures StoreOk(Do(w, s, G), G)
  {
    var v, o, p := Do(w, s, G), w.procs[s.pid].options, w.procs[s.pid].phase;
    var f := o.files[p.k];
    var i, a := Program(f.content)[p.pc], Success(o, f, s.ms);
    var tags, r := DurableTags(p.session, i), DurableRow(p.session, i, a);
    assert PhaseOk(w, o, p, G);
    PerformIs(w.store, p.session, i, f, a);
    StagedStep(w.store, f, p.pc, p.session, a);
    ExecLog(w, s, G);
    ProgressKeepsRows(w.store, v.store, f, tags, r, w.cleared);
    hide Ordered, RanOk, LogOk, ClearedOk, Perform, Program, AppliedSince, ApprovedStill, CleanOk, StagedOk;
    if r.Some? {
      UpsertOrdered(w.store.rows, p.snap, p.k, r.value, G) by { hide PatchRegistry.Upserted, SuccessesSettled; }
      SuccessesBefore(w, v, o, p.snap, p.k, r.value, G);
    }
  }

  lemma NotYetApplied(w: World, o: Options, p: Phase, G: seq<Name>)
    requires Distinct(G) && p.Executing? && PhaseOk(w, o, p, G) && !(p.pc == Last(o.files[p.k].content) && !p.session.Tx?)
    ensures !IsApplied(w.store.rows, o.files[p.k].name)
  {
    hide Ordered, Unchanged, Admitted, StillSettled, Grown, ApprovedStill, CleanOk, StagedOk, Program, SuccessesSettled, AllSettled;
  }

  lemma ExecLog(w: World, s: Step, G: seq<Name>)
    requires Inv(w, G) && s.Exec? && Enabled(w, s, G)
    ensures LogOk(Do(w, s, G).store, w.unclean)
  {
    var v, o, p := Do(w, s, G), w.procs[s.pid].options, w.procs[s.pid].phase;
    var f := o.files[p.k];
    var i, a := Program(f.content)[p.pc], Success(o, f, s.ms);
    var tags, r := DurableTags(p.session, i), DurableRow(p.session, i, a);
    assert PhaseOk(w, o, p, G);
    PerformIs(w.store, p.session, i, f, a);
    StagedStep(w.store, f, p.pc, p.session, a);
    if f.name !in w.unclean {
      CleanStatement(f, p.pc, p.session, a);
      CleanProgram(f.content, p.pc);
      NotYetApplied(w, o, p, G);
    }
    hide Ordered, RanOk, LogOk, ClearedOk, Perform, Program, ApprovedStill, AppliedSince, CleanOk, StagedOk, LoopOk, Flushed;
    ProgressKeepsLog(w.store, v.store, f, tags, r, w.unclean);
  }

  /** The phase after a statement: the next statement, or the next file. */
  lemma ExecPhase(w: World, s: Step, G: seq<Name>)
    requires Inv(w, G) && s.Exec? && Enabled(w, s, G)
    ensures PhaseOk(Do(w, s, G), w.procs[s.pid].options, Do(w, s, G).procs[s.pid].phase, G)
  {
    var v, o, p := Do(w, s, G), w.procs[s.pid].options, w.procs[s.pid].phase;
    assert PhaseOk(w, o, p, G);
    var (d, t) := Perform(w.store, p.session, Program(o.files[p.k].content)[p.pc], o.files[p.k], Success(o, o.files[p.k], s.ms));
    assert v.store == d && v.procs[s.pid].phase ==
      if p.pc < Last(o.files[p.k].content) then Executing(p.snap, p.k, p.pc + 1, t) else Looping(p.snap, p.k + 1);
    assert forall q :: q in v.procs && Success?(v.procs[q]) ==> q in w.procs && v.procs[q] == w.procs[q];
    hide Inv, Do, PhaseOk;
    ExecPhaseAt(w, v, o, p, G, s.ms);
  }

  lemma ExecPhaseAt(w: World, v: World, o: Options, p: Phase, G: seq<Name>, ms: nat)
    requires Distinct(G) && p.Executing? && PhaseOk(w, o, p, G)
    requires v.cleared == w.cleared && v.unclean == w.unclean && CanRun(p.session, Program(o.files[p.k].content)[p.pc])
    requires v.store == Perform(w.store, p.session, Program(o.files[p.k].content)[p.pc], o.files[p.k], Success(o, o.files[p.k], ms)).0
    requires forall q :: q in v.procs && Success?(v.procs[q]) ==> q in w.procs && v.procs[q] == w.procs[q]
    ensures var t := Perform(w.store, p.session, Program(o.files[p.k].content)[p.pc], o.files[p.k], Success(o, o.files[p.k], ms)).1;
      PhaseOk(v, o, if p.pc < Last(o.files[p.k].content) then Executing(p.snap, p.k, p.pc + 1, t) else Looping(p.snap, p.k + 1), G)
  {
    var f := o.files[p.k];
    var i, a := Program(f.content)[p.pc], Success(o, f, ms);
    var (d, t) := Perform(w.store, p.session, i, f, a);
    PerformIs(w.store, p.session, i, f, a);
    StagedStep(w.store, f, p.pc, p.session, a);
    ExecRows(w, v, o, p, G, DurableRow(p.session, i, a));
    LoopStays(w, v, o, p.snap, p.k, G);
    AppliedAtEnd(w.store, f, p, a);
    CleanStays(w, f, p, a);
    RegisteredStaysOutside(w.store, p.session, i, f, a);
    hide *;
    if p.pc < Last(f.content) {
      NextStatement(v, o, p, t, G);
    } else {
      NextFile(v, o, p, G);
    }
  }

  lemma NextStatement(v: World, o: Options, p: Phase, t: Session, G: seq<Name>)
    requires p.Executing? && p.k < |o.files| && LoopOk(v, o, p.snap, p.k, G) && !Settled(p.snap, o.files[p.k].name)
    requires Grown(v.store.rows, p.snap, G, p.k + 1) && ApprovedStill(v.store.rows, p.snap, G, p.k + 1)
    requires p.pc < Last(o.files[p.k].content)
    requires AppliedSince(v.store.rows, p.snap, G, if p.pc + 1 == Last(o.files[p.k].content) && !t.Tx? then p.k + 1 else p.k)
    requires StagedOk(v.store, o.files[p.k], p.pc + 1, t) && CleanOk(v.unclean, o.files[p.k], p.pc + 1, t)
    requires ReviewOk(v.cleared, o, o.files[p.k])
    ensures PhaseOk(v, o, Executing(p.snap, p.k, p.pc + 1, t), G)
  {
    hide LoopOk, Settled, Grown, ApprovedStill, AppliedSince, StagedOk, CleanOk, ReviewOk, Last;
  }

  lemma NextFile(v: World, o: Options, p: Phase, G: seq<Name>)
    requires p.Executing? && p.k < |o.files| && LoopOk(v, o, p.snap, p.k, G) && AllSettled(v.store.rows, G, p.k + 1)
    requires Grown(v.store.rows, p.snap, G, p.k + 1) && ApprovedStill(v.store.rows, p.snap, G, p.k + 1)
    requires AppliedSince(v.store.rows, p.snap, G, p.k + 1)
    ensures PhaseOk(v, o, Looping(p.snap, p.k + 1), G)
  {
    LoopNext(v, o, p.snap, p.k, G);
    hide LoopOk, AllSettled, Grown, ApprovedStill, AppliedSince;
  }

  lemma AppliedAtEnd(d: Store, f: File, p: Phase, a: Attempt)
    requires p.Executing? && p.pc <= Last(f.content) && StagedOk(d, f, p.pc, p.session) && Succeeds(f, a)
    ensures p.pc == Last(f.content) ==> IsApplied(Perform(d, p.session, Program(f.content)[p.pc], f, a).0.rows, f.name)
  {
    StagedStep(d, f, p.pc, p.session, a);
    PerformIs(d, p.session, Program(f.content)[p.pc], f, a);
    hide Program, Perform;
  }

  lemma CleanStays(w: World, f: File, p: Phase, a: Attempt)
    requires p.Executing? && p.pc <= Last(f.content) && CleanOk(w.unclean, f, p.pc, p.session)
    requires CanRun(p.session, Program(f.content)[p.pc])
    ensures p.pc < Last(f.content) ==>
      CleanOk(w.unclean, f, p.pc + 1, Perform(w.store, p.session, Program(f.content)[p.pc], f, a).1)
  {
    hide Program, Perform, TxAt, Clean;
    if f.name !in w.unclean && p.pc < Last(f.content) { CleanSession(w.store, f, p.pc, p.session, a); }
  }

  lemma RegisteredStaysOutside(d: Store, s: Session, i: Instr, f: File, a: Attempt)
    ensures DurableRow(s, i, a).Some? && !s.Tx? ==> !Perform(d, s, i, f, a).1.Tx?
  {
  }

  lemma LoopNext(v: World, o: Options, snap: Rows, k: nat, G: seq<Name>)
    requires k < |o.files| && LoopOk(v, o, snap, k, G) && AllSettled(v.store.rows, G, k + 1)
    ensures LoopOk(v, o, snap, k + 1, G)
  {
    hide Gated, StillSettled, SuccessesSettled;
  }

  lemma LoopStays(w: World, v: World, o: Options, snap: Rows, k: nat, G: seq<Name>)
    requires LoopOk(w, o, snap, k, G) && StillSettled(v.store.rows, snap) && AllSettled(v.store.rows, G, k)
    requires forall q :: q in v.procs && Success?(v.procs[q]) ==> q in w.procs && v.procs[q] == w.procs[q]
    ensures LoopOk(v, o, snap, k, G)
  {
    hide Gated, StillSettled, AllSettled;
  }

  lemma ExecRows(w: World, v: World, o: Options, p: Phase, G: seq<Name>, r: Option<Attempt>)
    requires Distinct(G) && p.Executing? && PhaseOk(w, o, p, G)
    requires r.Some? ==> Succeeds(o.files[p.k], r.value)
    requires v.store.rows == if r.Some? then Upserted(w.store.rows, o.files[p.k].name, r.value) else w.store.rows
    ensures StillSettled(v.store.rows, p.snap) && AllSettled(v.store.rows, G, p.k)
    ensures Grown(v.store.rows, p.snap, G, p.k + 1) && ApprovedStill(v.store.rows, p.snap, G, p.k + 1)
    ensures AppliedSince(v.store.rows, p.snap, G, p.k + 1)
    ensures IsApplied(v.store.rows, G[p.k]) ==> AllSettled(v.store.rows, G, p.k + 1)
    ensures r == None && !(p.pc == Last(o.files[p.k].content) && !p.session.Tx?) ==> AppliedSince(v.store.rows, p.snap, G, p.k)
  {
    hide Ordered, Program, StagedOk, CleanOk, ReviewOk, SuccessesSettled, Admitted, Unchanged;
    assert forall n :: Before(G, p.k, n) ==> Before(G, p.k + 1, n);
    assert Before(G, p.k + 1, G[p.k]);
    assert G[p.k] == o.files[p.k].name;
  }

  lemma ExecKeeps(w: World, s: Step, G: seq<Name>)
    requires Inv(w, G) && s.Exec? && Enabled(w, s, G)
    ensures Inv(Do(w, s, G), G)
  {
    ExecStore(w, s, G);
    ExecPhase(w, s, G);
    hide StoreOk, PhaseOk, View, Perform, Program;
    HolderStep(w, Do(w, s, G), s.pid, G);
  }

  // ----- every step, hence every run

  lemma StepKeeps(w: World, s: Step, G: seq<Name>)
    requires Inv(w, G) && Enabled(w, s, G)
    ensures Inv(Do(w, s, G), G)
  {
    hide Inv, Do;
    match s
    case Start(_, _) => StartKeeps(w, s, G);
    case GiveUp(_) => StartKeeps(w, s, G);
    case LoseFailure(_) => StartKeeps(w, s, G);
    case Acquire(_) => AcquireKeeps(w, s, G);
    case Crash(_) => CrashKeeps(w, s, G);
    case Read(_, _) => ReadKeeps(w, s, G);
    case Advance(_) => AdvanceKeeps(w, s, G);
    case Exec(_, _) => ExecKeeps(w, s, G);
    case Fail(_) => FailKeeps(w, s, G);
    case RecordFailure(_, _) => RecordKeeps(w, s, G);
    case Unlock(_) => UnlockKeeps(w, s, G);
    case _ => AdminKeeps(w, s, G);
  }

  lemma AdvanceKeeps(w: World, s: Step, G: seq<Name>)
    requires Inv(w, G) && s.Advance? && Enabled(w, s, G)
    ensures Inv(Do(w, s, G), G)
  {
    var o, p := w.procs[s.pid].options, w.procs[s.pid].phase;
    hide Inv, Do, Settled, NeedsReview;
    if p.k == |o.files| || Settled(p.snap, o.files[p.k].name) { SkipKeeps(w, s, G); }
    else if NeedsReview(o, p.snap, o.files[p.k]) { ReviewKeeps(w, s, G); }
    else { BeginKeeps(w, s, G); }
  }

  lemma {:induction false} RunKeeps(run: seq<Step>, G: seq<Name>)
    requires Distinct(G) && After(run, G).Some?
    ensures Inv(After(run, G).value, G)
  {
    if run != [] {
      RunKeeps(run[..|run| - 1], G);
      StepKeeps(After(run[..|run| - 1], G).value, run[|run| - 1], G);
    }
  }
}
