/** Any number of migrators, the advisory lock, crashes, and admins who do not take the lock. */
module MigrationMachine {
  import opened Outcomes
  import opened PatchRegistry
  import opened PatchStatements

  // ----- what a patch file holds, after transaction control has been stripped

  datatype Segment = Segment(transactional: bool, stmts: seq<Stmt>)
  datatype Content = Content(sha: Hash, shaRaw: Hash, review: bool, noTransaction: bool, segments: seq<Segment>)
  datatype File = File(name: Name, content: Content)

  predicate Atomic(c: Content) {
    |c.segments| == 1 && c.segments[0].transactional
  }

  /** One transactional segment in which whatever control survived does no harm. */
  predicate Clean(c: Content) {
    Atomic(c) && Harmless(c.segments[0].stmts)
  }

  // ----- the statements one attempt sends

  /** `Sync` is the end of a message: a transactional segment is sent as one, outside one each statement is its own. */
  datatype Instr = Begin | Run(stmt: Stmt) | Sync | Register(atomic: bool) | Commit

  function Runs(stmts: seq<Stmt>): (r: seq<Instr>)
    ensures |r| == |stmts| && forall i :: 0 <= i < |r| ==> r[i] == Run(stmts[i])
  {
    seq(|stmts|, i requires 0 <= i < |stmts| => Run(stmts[i]))
  }

  function Singles(stmts: seq<Stmt>): seq<Instr> {
    if stmts == [] then [] else [Run(stmts[0]), Sync] + Singles(stmts[1..])
  }

  function SegmentPrograms(segments: seq<Segment>): seq<Instr> {
    if segments == [] then []
    else (if segments[0].transactional then [Begin] + Runs(segments[0].stmts) + [Sync, Commit] else Singles(segments[0].stmts))
         + SegmentPrograms(segments[1..])
  }

  /** The registry write is inside the patch's own transaction exactly when the patch is atomic. */
  function Program(c: Content): seq<Instr> {
    (if Atomic(c) then [Begin] + Runs(c.segments[0].stmts) + [Sync] else SegmentPrograms(c.segments) + [Begin])
    + [Register(Atomic(c)), Commit]
  }

  // ----- the database

  datatype Entry = Entry(name: Name, tag: int)

  /** `Implicit`: a message runs outside any explicit transaction, in one of its own that ends with it. */
  datatype Session = Auto | Implicit(effects: seq<int>) | Tx(effects: seq<int>, staged: Option<Attempt>)

  /** `ran` remembers, for each patch registered as applied, the content that registered it. */
  datatype Store = Store(rows: Rows, log: seq<Entry>, ran: map<Name, Content>)

  function Entries(n: Name, tags: seq<int>): (r: seq<Entry>)
    ensures |r| == |tags| && forall i :: 0 <= i < |r| ==> r[i] == Entry(n, tags[i])
  {
    seq(|tags|, i requires 0 <= i < |tags| => Entry(n, tags[i]))
  }

  function Registered(d: Store, f: File, a: Attempt): Store {
    d.(rows := Upserted(d.rows, f.name, a), ran := d.ran[f.name := f.content])
  }

  function Flushed(d: Store, f: File, effects: seq<int>, staged: Option<Attempt>): Store {
    var e := d.(log := d.log + Entries(f.name, effects));
    if staged.Some? then Registered(e, f, staged.value) else e
  }

  function Waits(s: Session): seq<int> {
    if s.Auto? then [] else s.effects
  }

  /** A control can chain only from an explicit transaction. */
  predicate CanRun(s: Session, i: Instr) {
    i.Run? && i.stmt.EndTx? && i.stmt.chain ==> s.Tx?
  }

  /** The transaction after one statement of a message. */
  function Stepped(s: Session, stmt: Stmt): Session {
    match stmt
    case Effect(t) => if s.Tx? then s.(effects := s.effects + [t]) else Implicit(Waits(s) + [t])
    case OpenTx => if s.Tx? then s else Tx(Waits(s), None)
    case EndTx(_, chain) => if chain then Tx([], None) else Implicit([])
  }

  /** What is in a transaction waits for its commit. */
  function Perform(d: Store, s: Session, i: Instr, f: File, a: Attempt): (Store, Session) {
    match i
    case Begin => (d, if s.Tx? then s else Tx([], None))
    case Run(stmt) =>
      (if stmt.EndTx? && stmt.commits then Flushed(d, f, Waits(s), if s.Tx? then s.staged else None) else d, Stepped(s, stmt))
    case Sync => if s.Implicit? then (Flushed(d, f, s.effects, None), Auto) else (d, s)
    case Register(_) => if s.Tx? then (d, s.(staged := Some(a))) else (Registered(d, f, a), s)
    case Commit => (Flushed(d, f, Waits(s), if s.Tx? then s.staged else None), Auto)
  }

  // ----- the processes

  datatype Mode = Apply | Check | Off

  datatype Options = Options(files: seq<File>, signed: bool, manifest: map<Name, Hash>, approvedReviews: set<Name>,
                             keyId: Option<string>, actor: Option<string>)

  datatype Outcome = Threw | Returned(mode: Mode, degraded: bool)

  datatype Phase =
    | Waiting
    | Locked
    | Looping(snap: Rows, k: nat)
    | Executing(snap: Rows, k: nat, pc: nat, session: Session)
    | Failing(snap: Rows, k: nat)
    | Unwinding(outcome: Outcome)
    | Done(outcome: Outcome)

  predicate Holding(p: Phase) {
    !p.Waiting? && !p.Done?
  }

  datatype Proc = Proc(options: Options, phase: Phase)

  /** `cleared`: approved by an admin since the last recorded failure. `unclean`: once started with a content that
      is not clean. Neither is read by a step. */
  datatype World = World(lock: Option<nat>, store: Store, procs: map<nat, Proc>, cleared: set<Name>, unclean: set<Name>)

  const Init := World(None, Store(map[], [], map[]), map[], {}, {})

  // ----- the run of one process

  /** Every file is declared by the signed manifest, under its own hash. */
  predicate Admitted(o: Options) {
    o.signed && forall i :: 0 <= i < |o.files| ==> Declared(o, o.files[i])
  }

  predicate Declared(o: Options, f: File) {
    f.name in o.manifest && o.manifest[f.name] == f.content.sha
  }

  predicate Unchanged(rows: Rows, f: File) {
    Settled(rows, f.name) ==> rows[f.name].hash == f.content.sha || rows[f.name].hash == f.content.shaRaw
  }

  /** From the lock to the loop: mode, manifest gate, immutability check. */
  function ReadPhase(o: Options, rows: Rows, mode: Mode): Phase {
    if o.files == [] || mode == Off then Unwinding(Returned(mode, false))
    else if !Admitted(o) then Unwinding(Threw)
    else if exists i :: 0 <= i < |o.files| && !Unchanged(rows, o.files[i]) then Unwinding(Threw)
    else if mode == Check then Unwinding(Returned(Check, false))
    else Looping(rows, 0)
  }

  predicate NeedsReview(o: Options, snap: Rows, f: File) {
    f.content.review && !(f.name in snap && snap[f.name].status == Status.Approved) && f.name !in o.approvedReviews
  }

  function Try(o: Options, f: File, status: Status, error: Option<string>, ms: Option<nat>, atomic: bool): Attempt {
    Attempt(f.content.sha, status, o.keyId, ms, error, o.actor, atomic)
  }

  function Success(o: Options, f: File, ms: nat): Attempt {
    Try(o, f, Applied, None, Some(ms), Atomic(f.content))
  }

  function Failure(o: Options, f: File, error: string): Attempt {
    Try(o, f, Failed, Some(error), None, !f.content.noTransaction)
  }

  function ReviewWanted(o: Options, f: File): Attempt {
    Try(o, f, Status.PendingReview, None, None, !f.content.noTransaction)
  }

  // ----- the steps

  datatype Step =
    | Start(pid: nat, options: Options)
    | Acquire(pid: nat)
    | GiveUp(pid: nat)
    | Read(pid: nat, mode: Mode)
    | Advance(pid: nat)
    | Exec(pid: nat, ms: nat)
    | Fail(pid: nat)
    | RecordFailure(pid: nat, error: string)
    | LoseFailure(pid: nat)
    | Unlock(pid: nat)
    | Crash(pid: nat)
    | Retry(actor: Option<string>)
    | Approve(name: Name, admin: string, note: Option<string>)
    | Resolve(name: Name, admin: string, reason: string)

  /** The files are an initial part of the list `G`. */
  predicate View(o: Options, G: seq<Name>) {
    |o.files| <= |G| && forall i :: 0 <= i < |o.files| ==> o.files[i].name == G[i]
  }

  predicate ProgramAt(o: Options, k: nat, pc: nat) {
    k < |o.files| && pc < |Program(o.files[k].content)|
  }

  function NextInstr(p: Proc): Instr
    requires p.phase.Executing? && ProgramAt(p.options, p.phase.k, p.phase.pc)
  {
    Program(p.options.files[p.phase.k].content)[p.phase.pc]
  }

  /** A `COMMIT` outside a transaction only warns, so it is the one statement that cannot fail. */
  predicate CanFail(o: Options, p: Phase) {
    p.Executing? && ProgramAt(o, p.k, p.pc) && !(!p.session.Tx? && Program(o.files[p.k].content)[p.pc].Commit?)
  }

  predicate Enabled(w: World, s: Step, G: seq<Name>) {
    match s
    case Start(pid, o) => View(o, G) && (pid in w.procs ==> w.procs[pid].phase.Done?)
    case Acquire(pid) => w.lock == None && pid in w.procs && w.procs[pid].phase.Waiting?
    case GiveUp(pid) => pid in w.procs && w.procs[pid].phase.Waiting?
    case Read(pid, _) => pid in w.procs && w.procs[pid].phase.Locked?
    case Advance(pid) => pid in w.procs && w.procs[pid].phase.Looping? && w.procs[pid].phase.k <= |w.procs[pid].options.files|
    case Exec(pid, _) =>
      pid in w.procs && w.procs[pid].phase.Executing?
      && ProgramAt(w.procs[pid].options, w.procs[pid].phase.k, w.procs[pid].phase.pc)
      && CanRun(w.procs[pid].phase.session, NextInstr(w.procs[pid]))
    case Fail(pid) => pid in w.procs && CanFail(w.procs[pid].options, w.procs[pid].phase)
    case RecordFailure(pid, _) =>
      pid in w.procs && w.procs[pid].phase.Failing? && w.procs[pid].phase.k < |w.procs[pid].options.files|
    case LoseFailure(pid) => pid in w.procs && w.procs[pid].phase.Failing?
    case Unlock(pid) => pid in w.procs && w.procs[pid].phase.Unwinding?
    case Crash(pid) => pid in w.procs
    case Retry(_) => true
    case Approve(_, _, _) => true
    case Resolve(_, _, _) => true
  }

  function Moved(w: World, pid: nat, p: Phase): World
    requires pid in w.procs
  {
    w.(procs := w.procs[pid := w.procs[pid].(phase := p)])
  }

  function WithRows(w: World, rows: Rows): World {
    w.(store := w.store.(rows := rows))
  }

  /** One turn of the loop over the files: skip, stop for review, or start the patch. */
  function Turn(w: World, pid: nat): World
    requires pid in w.procs && w.procs[pid].phase.Looping? && w.procs[pid].phase.k <= |w.procs[pid].options.files|
  {
    var o, snap, k := w.procs[pid].options, w.procs[pid].phase.snap, w.procs[pid].phase.k;
    if k == |o.files| then Moved(w, pid, Unwinding(Returned(Apply, false)))
    else
      var f := o.files[k];
      if Settled(snap, f.name) then Moved(w, pid, Looping(snap, k + 1))
      else if NeedsReview(o, snap, f) then
        WithRows(Moved(w, pid, Unwinding(Returned(Apply, true))), Upserted(w.store.rows, f.name, ReviewWanted(o, f)))
      else
        Moved(w, pid, Executing(snap, k, 0, Auto))
          .(unclean := if Clean(f.content) then w.unclean else w.unclean + {f.name})
  }

  function Ran(w: World, pid: nat, ms: nat): World
    requires pid in w.procs && w.procs[pid].phase.Executing?
    requires ProgramAt(w.procs[pid].options, w.procs[pid].phase.k, w.procs[pid].phase.pc)
  {
    var o, p := w.procs[pid].options, w.procs[pid].phase;
    var f := o.files[p.k];
    var (d, s) := Perform(w.store, p.session, Program(f.content)[p.pc], f, Success(o, f, ms));
    var next := if p.pc + 1 < |Program(f.content)| then Executing(p.snap, p.k, p.pc + 1, s) else Looping(p.snap, p.k + 1);
    Moved(w, pid, next).(store := d)
  }

  function FailureRecorded(w: World, pid: nat, error: string): World
    requires pid in w.procs && w.procs[pid].phase.Failing? && w.procs[pid].phase.k < |w.procs[pid].options.files|
  {
    var o := w.procs[pid].options;
    var f := o.files[w.procs[pid].phase.k];
    WithRows(Moved(w, pid, Unwinding(Returned(Apply, true))), Upserted(w.store.rows, f.name, Failure(o, f, error)))
      .(cleared := w.cleared - {f.name})
  }

  function Do(w: World, s: Step, G: seq<Name>): World
    requires Enabled(w, s, G)
  {
    match s
    case Start(pid, o) => w.(procs := w.procs[pid := Proc(o, Waiting)])
    case Acquire(pid) => Moved(w, pid, Locked).(lock := Some(pid))
    case GiveUp(pid) => Moved(w, pid, Done(Threw))
    case Read(pid, mode) => Moved(w, pid, ReadPhase(w.procs[pid].options, w.store.rows, mode))
    case Advance(pid) => Turn(w, pid)
    case Exec(pid, ms) => Ran(w, pid, ms)
    case Fail(pid) => Moved(w, pid, Failing(w.procs[pid].phase.snap, w.procs[pid].phase.k))
    case RecordFailure(pid, error) => FailureRecorded(w, pid, error)
    case LoseFailure(pid) => Moved(w, pid, Unwinding(Threw))
    case Unlock(pid) => Moved(w, pid, Done(w.procs[pid].phase.outcome)).(lock := None)
    case Crash(pid) => w.(procs := w.procs - {pid}, lock := if w.lock == Some(pid) then None else w.lock)
    case Retry(actor) => WithRows(w, Retried(w.store.rows, actor))
    case Approve(n, actor, note) =>
      WithRows(w, ApprovedRows(w.store.rows, n, actor, note))
        .(cleared := if n in w.store.rows && w.store.rows[n].status == Status.PendingReview then w.cleared + {n} else w.cleared)
    case Resolve(n, actor, note) => WithRows(w, ResolvedRows(w.store.rows, n, actor, note))
  }

  // ----- runs

  function After(run: seq<Step>, G: seq<Name>): Option<World> {
    if run == [] then Some(Init)
    else
      var w := After(run[..|run| - 1], G);
      if w.Some? && Enabled(w.value, run[|run| - 1], G) then Some(Do(w.value, run[|run| - 1], G)) else None
  }
}
