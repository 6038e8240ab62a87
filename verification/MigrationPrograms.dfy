/** What an attempt sends for a patch, and what it leaves when nothing fails. */
module MigrationPrograms {
  import opened Outcomes
  import opened PatchRegistry
  import opened PatchStatements
  import opened MigrationMachine
  import opened MigrationInvariants
  import opened MigrationAttempts

  // ----- the statements, in order

  function AllStmts(segments: seq<Segment>): seq<Stmt> {
    if segments == [] then [] else segments[0].stmts + AllStmts(segments[1..])
  }

  /** A transactional segment in a transaction of its own, the statements of another one by one. */
  function SegmentProgram(s: Segment): seq<Instr> {
    if s.transactional then [Begin] + Runs(s.stmts) + [Sync, Commit] else Singles(s.stmts)
  }

  /** The statements among the instructions. */
  function StmtsIn(program: seq<Instr>): seq<Stmt> {
    if program == [] then [] else (if program[0].Run? then [program[0].stmt] else []) + StmtsIn(program[1..])
  }

  lemma {:induction false} StmtsInBoth(a: seq<Instr>, b: seq<Instr>)
    ensures StmtsIn(a + b) == StmtsIn(a) + StmtsIn(b)
  {
    if a == [] { assert a + b == b; } else {
      assert (a + b)[0] == a[0] && (a + b)[1..] == a[1..] + b;
      StmtsInBoth(a[1..], b);
    }
  }

  lemma {:induction false} StmtsInRuns(stmts: seq<Stmt>)
    ensures StmtsIn(Runs(stmts)) == stmts
  {
    if stmts != [] {
      assert Runs(stmts)[1..] == Runs(stmts[1..]);
      StmtsInRuns(stmts[1..]);
    }
  }

  lemma {:induction false} StmtsInSingles(stmts: seq<Stmt>)
    ensures StmtsIn(Singles(stmts)) == stmts
  {
    if stmts != [] {
      var first := [Run(stmts[0]), Sync];
      assert first[1..] == [Sync] && [Sync][1..] == [];
      StmtsInSingles(stmts[1..]);
      StmtsInBoth(first, Singles(stmts[1..]));
    }
  }

  lemma NoStmts(program: seq<Instr>)
    requires program == [Begin] || program == [Sync] || program == [Sync, Commit]
      || (|program| == 2 && program[0].Register? && program[1] == Commit)
    ensures StmtsIn(program) == []
  {
    if |program| == 2 {
      var last := [program[1]];
      assert program[1..] == last && last[1..] == [] && StmtsIn(last) == [];
    } else {
      assert program[1..] == [];
    }
  }

  lemma {:induction false} SegmentStmts(segments: seq<Segment>)
    ensures StmtsIn(SegmentPrograms(segments)) == AllStmts(segments)
  {
    if segments != [] {
      var s := segments[0];
      SegmentStmts(segments[1..]);
      NoStmts([Begin]);
      NoStmts([Sync, Commit]);
      StmtsInRuns(s.stmts);
      StmtsInSingles(s.stmts);
      StmtsInBoth([Begin] + Runs(s.stmts), [Sync, Commit]);
      StmtsInBoth([Begin], Runs(s.stmts));
      var first := SegmentProgram(s);
      StmtsInBoth(first, SegmentPrograms(segments[1..]));
      hide StmtsIn, Runs, Singles;
    }
  }

  /** An attempt sends every statement of every segment, in order, and no other. */
  lemma ProgramStmts(c: Content)
    ensures StmtsIn(Program(c)) == AllStmts(c.segments)
  {
    var last := [Register(Atomic(c)), Commit];
    NoStmts(last);
    NoStmts([Begin]);
    NoStmts([Sync]);
    if Atomic(c) {
      var stmts := c.segments[0].stmts;
      assert AllStmts(c.segments) == stmts + AllStmts(c.segments[1..]) && c.segments[1..] == [];
      StmtsInRuns(stmts);
      StmtsInBoth([Begin], Runs(stmts));
      StmtsInBoth([Begin] + Runs(stmts), [Sync]);
      StmtsInBoth([Begin] + Runs(stmts) + [Sync], last);
      hide StmtsIn, Runs;
    } else {
      SegmentStmts(c.segments);
      StmtsInBoth(SegmentPrograms(c.segments), [Begin]);
      StmtsInBoth(SegmentPrograms(c.segments) + [Begin], last);
      hide StmtsIn, SegmentPrograms, AllStmts;
    }
  }

  // ----- what stands around them

  /** How many instructions the first `k` segments take: three more than its statements for a transaction, two for each
      statement outside one. */
  function Offset(segments: seq<Segment>, k: nat): nat
    requires k <= |segments|
  {
    if k == 0 then 0
    else
      var s := segments[k - 1];
      Offset(segments, k - 1) + if s.transactional then |s.stmts| + 3 else 2 * |s.stmts|
  }

  /** At `o` the program opens a transaction, sends the statements as one message, and commits. */
  predicate InOwnTx(program: seq<Instr>, o: nat, stmts: seq<Stmt>) {
    var n := |stmts|;
    o + n + 3 <= |program| && program[o] == Begin && (forall x :: 0 <= x < n ==> program[o + 1 + x] == Run(stmts[x]))
    && program[o + n + 1] == Sync && program[o + n + 2] == Commit
  }

  /** At `o` the program sends each statement as a message of its own. */
  predicate OneByOne(program: seq<Instr>, o: nat, stmts: seq<Stmt>) {
    o + 2 * |stmts| <= |program|
    && forall x :: 0 <= x < |stmts| ==> program[o + 2 * x] == Run(stmts[x]) && program[o + 2 * x + 1] == Sync
  }

  lemma {:induction false} SinglesAre(stmts: seq<Stmt>)
    ensures |Singles(stmts)| == 2 * |stmts| && OneByOne(Singles(stmts), 0, stmts)
  {
    if stmts != [] {
      SinglesAre(stmts[1..]);
      forall x | 0 <= x < |stmts| ensures Singles(stmts)[2 * x] == Run(stmts[x]) && Singles(stmts)[2 * x + 1] == Sync {
        if x > 0 {
          assert Singles(stmts[1..])[2 * (x - 1)] == Run(stmts[1..][x - 1]) && Singles(stmts[1..])[2 * (x - 1) + 1] == Sync;
        }
      }
    }
  }

  lemma {:induction false} OffsetShift(segments: seq<Segment>, k: nat)
    requires 0 < k <= |segments|
    ensures Offset(segments, k) == Offset(segments, 1) + Offset(segments[1..], k - 1)
  {
    if k > 1 { OffsetShift(segments, k - 1); assert segments[1..][k - 2] == segments[k - 1]; }
  }

  predicate Stands(program: seq<Instr>, o: nat, s: Segment) {
    if s.transactional then InOwnTx(program, o, s.stmts) else OneByOne(program, o, s.stmts)
  }

  lemma StandsAlone(s: Segment, more: seq<Instr>)
    ensures Stands(SegmentProgram(s) + more, 0, s)
  {
    hide Singles, Runs, OneByOne, InOwnTx;
    if s.transactional {
      TxAlone(s.stmts, more);
    } else {
      SinglesAre(s.stmts);
      Extended(Singles(s.stmts), more, s.stmts);
    }
  }

  lemma TxAlone(stmts: seq<Stmt>, more: seq<Instr>)
    ensures InOwnTx([Begin] + Runs(stmts) + [Sync, Commit] + more, 0, stmts)
  {
    var p, n := [Begin] + Runs(stmts) + [Sync, Commit] + more, |stmts|;
    forall x | 0 <= x < n ensures p[0 + 1 + x] == Run(stmts[x]) {
      assert p[1 + x] == Runs(stmts)[x];
    }
    assert p[n + 1] == Sync && p[n + 2] == Commit;
  }

  lemma Extended(p: seq<Instr>, more: seq<Instr>, stmts: seq<Stmt>)
    requires OneByOne(p, 0, stmts)
    ensures OneByOne(p + more, 0, stmts)
  {
    forall x | 0 <= x < |stmts| ensures (p + more)[0 + 2 * x] == Run(stmts[x]) && (p + more)[0 + 2 * x + 1] == Sync {
      assert p[0 + 2 * x] == Run(stmts[x]) && p[0 + 2 * x + 1] == Sync;
    }
  }

  lemma {:induction false} SegmentsLength(segments: seq<Segment>)
    ensures |SegmentPrograms(segments)| == Offset(segments, |segments|)
  {
    if segments != [] {
      FirstLength(segments);
      SegmentsLength(segments[1..]);
      OffsetShift(segments, |segments|);
    }
  }

  lemma FirstLength(segments: seq<Segment>)
    requires segments != []
    ensures SegmentPrograms(segments) == SegmentProgram(segments[0]) + SegmentPrograms(segments[1..])
    ensures Offset(segments, 1) == |SegmentProgram(segments[0])|
  {
    SinglesAre(segments[0].stmts);
    assert Offset(segments, 0) == 0;
  }

  lemma {:induction false} SegmentStands(segments: seq<Segment>, k: nat, more: seq<Instr>)
    requires k < |segments|
    ensures Stands(SegmentPrograms(segments) + more, Offset(segments, k), segments[k])
    decreases |segments|
  {
    var first := SegmentProgram(segments[0]);
    var rest := SegmentPrograms(segments[1..]);
    FirstLength(segments);
    assert SegmentPrograms(segments) + more == first + (rest + more);
    if k == 0 {
      StandsAlone(segments[0], rest + more);
    } else {
      SegmentStands(segments[1..], k - 1, more);
      OffsetShift(segments, k);
      Shifted(first, rest + more, Offset(segments[1..], k - 1), segments[k]);
      assert segments[1..][k - 1] == segments[k];
    }
    hide Stands, SegmentProgram, SegmentPrograms;
  }

  lemma Shifted(first: seq<Instr>, program: seq<Instr>, o: nat, s: Segment)
    ensures Stands(program, o, s) ==> Stands(first + program, |first| + o, s)
  {
    assert forall x :: 0 <= x < |program| ==> (first + program)[|first| + x] == program[x];
    if s.transactional && InOwnTx(program, o, s.stmts) {
      forall x | 0 <= x < |s.stmts| ensures (first + program)[|first| + o + 1 + x] == Run(s.stmts[x]) {
        assert (first + program)[|first| + (o + 1 + x)] == program[o + 1 + x];
      }
    }
    if !s.transactional && OneByOne(program, o, s.stmts) {
      forall x | 0 <= x < |s.stmts|
        ensures (first + program)[|first| + o + 2 * x] == Run(s.stmts[x]) && (first + program)[|first| + o + 2 * x + 1] == Sync {
        assert (first + program)[|first| + (o + 2 * x)] == program[o + 2 * x];
        assert (first + program)[|first| + (o + 2 * x + 1)] == program[o + 2 * x + 1];
      }
    }
  }

  /** A mixed patch: each transactional segment stands in a transaction of its own, each statement of the others alone, and the
      registry row comes in a last transaction, behind all of them. */
  lemma MixedProgram(c: Content, k: nat)
    requires !(|c.segments| == 1 && c.segments[0].transactional) && k < |c.segments|
    ensures var s := c.segments[k];
      if s.transactional then InOwnTx(Program(c), Offset(c.segments, k), s.stmts) else OneByOne(Program(c), Offset(c.segments, k), s.stmts)
    ensures var n := Offset(c.segments, |c.segments|);
      |Program(c)| == n + 3 && Program(c)[n] == Begin && Program(c)[n + 1] == Register(false) && Program(c)[n + 2] == Commit
  {
    SegmentStands(c.segments, k, [Begin] + [Register(false), Commit]);
    SegmentsLength(c.segments);
    assert Program(c) == SegmentPrograms(c.segments) + ([Begin] + [Register(false), Commit]);
  }

  /** A patch of one transactional segment: the row is written in the transaction of the statements. */
  lemma AtomicProgramIs(c: Content)
    requires |c.segments| == 1 && c.segments[0].transactional
    ensures var stmts := c.segments[0].stmts; var p := Program(c);
      |p| == |stmts| + 4 && p[0] == Begin && (forall x :: 0 <= x < |stmts| ==> p[1 + x] == Run(stmts[x]))
      && p[|stmts| + 1] == Sync && p[|stmts| + 2] == Register(true) && p[|stmts| + 3] == Commit
  {
  }

  // ----- what they leave

  /** The instructions one after the other, none failing. */
  function Played(d: Store, s: Session, program: seq<Instr>, f: File, a: Attempt): (Store, Session)
    decreases |program|
  {
    if program == [] then (d, s)
    else
      var n := |program| - 1;
      var (e, t) := Played(d, s, program[..n], f, a);
      Perform(e, t, program[n], f, a)
  }

  lemma {:induction false} PlayedBoth(d: Store, s: Session, a: seq<Instr>, b: seq<Instr>, f: File, at: Attempt)
    ensures Played(d, s, a + b, f, at) == (var (e, t) := Played(d, s, a, f, at); Played(e, t, b, f, at))
    decreases |b|
  {
    if b == [] {
      assert a + b == a;
    } else {
      var n := |b| - 1;
      assert (a + b)[..|a + b| - 1] == a + b[..n];
      PlayedBoth(d, s, a, b[..n], f, at);
      hide Perform;
    }
  }

  lemma {:induction false} PlayedStep(d: Store, s: Session, i: Instr, f: File, a: Attempt)
    ensures Played(d, s, [i], f, a) == Perform(d, s, i, f, a)
  {
    assert [i][..0] == [];
    assert Played(d, s, [], f, a) == (d, s);
    hide Perform;
  }

  /** The first `k` instructions of the patch lead from `d` to `e` and session `s`. */
  ghost predicate PlayedTo(d: Store, e: Store, s: Session, f: File, k: nat, a: Attempt) {
    k <= |Program(f.content)| && Played(d, Auto, Program(f.content)[..k], f, a) == (e, s)
  }

  lemma PlayedStart(d: Store, f: File, a: Attempt)
    ensures PlayedTo(d, d, Auto, f, 0, a)
  {
    assert Program(f.content)[..0] == [] && Played(d, Auto, [], f, a) == (d, Auto);
  }

  lemma PlayedMore(d: Store, e: Store, s: Session, f: File, k: nat, a: Attempt)
    requires PlayedTo(d, e, s, f, k, a) && k < |Program(f.content)|
    ensures var (v, t) := Perform(e, s, Program(f.content)[k], f, a); PlayedTo(d, v, t, f, k + 1, a)
  {
    var p := Program(f.content);
    assert p[..k + 1][..k] == p[..k];
    hide Perform, Program;
  }

  predicate Plain(c: Content) {
    forall i :: 0 <= i < |c.segments| ==> NoControls(c.segments[i].stmts)
  }

  function Tags(stmts: seq<Stmt>): seq<int>
    requires NoControls(stmts)
  {
    seq(|stmts|, i requires 0 <= i < |stmts| => stmts[i].tag)
  }

  /** The store with more entries of the patch. */
  function Logged(d: Store, f: File, tags: seq<int>): Store {
    d.(log := d.log + Entries(f.name, tags))
  }

  lemma {:induction false} EntriesBoth(n: Name, a: seq<int>, b: seq<int>)
    ensures Entries(n, a) + Entries(n, b) == Entries(n, a + b)
  {
  }

  lemma LoggedBoth(d: Store, f: File, a: seq<int>, b: seq<int>)
    ensures Logged(Logged(d, f, a), f, b) == Logged(d, f, a + b)
    ensures Logged(d, f, []) == d
  {
    EntriesBoth(f.name, a, b);
    assert d.log + Entries(f.name, a) + Entries(f.name, b) == d.log + (Entries(f.name, a) + Entries(f.name, b));
    assert d.log + [] == d.log;
  }

  lemma {:induction false} PlayedRuns(d: Store, stmts: seq<Stmt>, f: File, a: Attempt)
    requires NoControls(stmts)
    ensures Played(d, Tx([], None), Runs(stmts), f, a) == (d, Tx(Tags(stmts), None))
    decreases |stmts|
  {
    if stmts != [] {
      var n := |stmts| - 1;
      assert Runs(stmts)[..n] == Runs(stmts[..n]);
      PlayedRuns(d, stmts[..n], f, a);
      assert stmts[n].Effect?;
      assert Tags(stmts) == Tags(stmts[..n]) + [stmts[n].tag];
    }
  }

  lemma {:induction false} PlayedSingles(d: Store, stmts: seq<Stmt>, f: File, a: Attempt)
    requires NoControls(stmts)
    ensures Played(d, Auto, Singles(stmts), f, a) == (Logged(d, f, Tags(stmts)), Auto)
    decreases |stmts|
  {
    if stmts == [] {
      LoggedBoth(d, f, [], []);
      assert Tags(stmts) == [];
    } else {
      var first := [Run(stmts[0]), Sync];
      assert stmts[0].Effect?;
      var e := Logged(d, f, [stmts[0].tag]);
      PlayedOne(d, stmts[0], f, a);
      PlayedBoth(d, Auto, first, Singles(stmts[1..]), f, a);
      PlayedSingles(e, stmts[1..], f, a);
      LoggedBoth(d, f, [stmts[0].tag], Tags(stmts[1..]));
      assert Tags(stmts) == [stmts[0].tag] + Tags(stmts[1..]);
      hide Played, Logged;
    }
  }

  lemma {:induction false} PlayedOne(d: Store, s: Stmt, f: File, a: Attempt)
    requires s.Effect?
    ensures Played(d, Auto, [Run(s), Sync], f, a) == (Logged(d, f, [s.tag]), Auto)
  {
    assert [Run(s), Sync] == [Run(s)] + [Sync];
    PlayedBoth(d, Auto, [Run(s)], [Sync], f, a);
    PlayedStep(d, Auto, Run(s), f, a);
    assert [] + [s.tag] == [s.tag];
    PlayedStep(d, Implicit([s.tag]), Sync, f, a);
    hide Played;
  }

  /** A transaction of the engine around one message. */
  lemma {:induction false} PlayedTx(d: Store, stmts: seq<Stmt>, f: File, a: Attempt)
    requires NoControls(stmts)
    ensures Played(d, Auto, [Begin] + Runs(stmts) + [Sync], f, a) == (d, Tx(Tags(stmts), None))
  {
    PlayedRuns(d, stmts, f, a);
    PlayedBoth(d, Auto, [Begin], Runs(stmts), f, a);
    PlayedBoth(d, Auto, [Begin] + Runs(stmts), [Sync], f, a);
    var e, s := d, Tx(Tags(stmts), None);
    PlayedStep(d, Auto, Begin, f, a);
    PlayedStep(e, s, Sync, f, a);
    hide Played, Runs;
  }

  lemma {:induction false} PlayedCommit(d: Store, tags: seq<int>, f: File, a: Attempt)
    ensures Played(d, Tx(tags, None), [Commit], f, a) == (Logged(d, f, tags), Auto)
  {
    PlayedStep(d, Tx(tags, None), Commit, f, a);
  }

  lemma {:induction false} PlayedRegister(d: Store, s: Session, tags: seq<int>, f: File, a: Attempt, atomic: bool)
    requires s == Tx(tags, None)
    ensures Played(d, s, [Register(atomic), Commit], f, a) == (Registered(Logged(d, f, tags), f, a), Auto)
  {
    assert [Register(atomic), Commit] == [Register(atomic)] + [Commit];
    PlayedBoth(d, s, [Register(atomic)], [Commit], f, a);
    PlayedStep(d, s, Register(atomic), f, a);
    PlayedStep(d, Tx(tags, Some(a)), Commit, f, a);
    hide Played;
  }

  function AllTags(segments: seq<Segment>): seq<int>
    requires forall i :: 0 <= i < |segments| ==> NoControls(segments[i].stmts)
  {
    if segments == [] then [] else Tags(segments[0].stmts) + AllTags(segments[1..])
  }

  lemma {:induction false} PlayedSegments(d: Store, segments: seq<Segment>, f: File, a: Attempt)
    requires forall i :: 0 <= i < |segments| ==> NoControls(segments[i].stmts)
    ensures Played(d, Auto, SegmentPrograms(segments), f, a) == (Logged(d, f, AllTags(segments)), Auto)
    decreases |segments|
  {
    if segments == [] {
      LoggedBoth(d, f, [], []);
    } else {
      var s := segments[0];
      var first := SegmentProgram(s);
      PlayedSegment(d, s, f, a);
      var e := Logged(d, f, Tags(s.stmts));
      PlayedBoth(d, Auto, first, SegmentPrograms(segments[1..]), f, a);
      PlayedSegments(e, segments[1..], f, a);
      LoggedBoth(d, f, Tags(s.stmts), AllTags(segments[1..]));
      hide Played, Logged, Singles, Runs;
    }
  }

  lemma {:induction false} PlayedSegment(d: Store, s: Segment, f: File, a: Attempt)
    requires NoControls(s.stmts)
    ensures var first := SegmentProgram(s);
      Played(d, Auto, first, f, a) == (Logged(d, f, Tags(s.stmts)), Auto)
  {
    if s.transactional {
      PlayedTx(d, s.stmts, f, a);
      PlayedCommit(d, Tags(s.stmts), f, a);
      PlayedBoth(d, Auto, [Begin] + Runs(s.stmts) + [Sync], [Commit], f, a);
      assert [Begin] + Runs(s.stmts) + [Sync] + [Commit] == [Begin] + Runs(s.stmts) + [Sync, Commit];
    } else {
      PlayedSingles(d, s.stmts, f, a);
    }
    hide Played, Runs, Singles;
  }

  /** A patch without controls that runs through leaves the effects of every segment, in order, and its row. */
  lemma {:induction false} PlayedProgram(d: Store, f: File, a: Attempt)
    requires Plain(f.content)
    ensures Played(d, Auto, Program(f.content), f, a) == (Registered(Logged(d, f, AllTags(f.content.segments)), f, a), Auto)
  {
    var c := f.content;
    var last := [Register(Atomic(c)), Commit];
    if Atomic(c) {
      var stmts := c.segments[0].stmts;
      assert NoControls(stmts);
      assert c.segments[1..] == [] && AllTags(c.segments) == Tags(stmts) + [] == Tags(stmts);
      PlayedTx(d, stmts, f, a);
      PlayedBoth(d, Auto, [Begin] + Runs(stmts) + [Sync], last, f, a);
      PlayedRegister(d, Tx(Tags(stmts), None), Tags(stmts), f, a, true);
    } else {
      PlayedSegments(d, c.segments, f, a);
      var e := Logged(d, f, AllTags(c.segments));
      LoggedBoth(e, f, [], []);
      PlayedStep(e, Auto, Begin, f, a);
      PlayedRegister(e, Tx([], None), [], f, a, false);
      PlayedBoth(d, Auto, SegmentPrograms(c.segments), [Begin], f, a);
      PlayedBoth(d, Auto, SegmentPrograms(c.segments) + [Begin], last, f, a);
    }
    hide Played, Runs, SegmentPrograms, Logged, Registered;
  }

  /** The effects, statement by statement. */
  lemma {:induction false} AllTagsAre(segments: seq<Segment>)
    requires forall i :: 0 <= i < |segments| ==> NoControls(segments[i].stmts)
    ensures NoControls(AllStmts(segments)) && AllTags(segments) == Tags(AllStmts(segments)) == AllEffects(segments)
  {
    if segments != [] {
      AllTagsAre(segments[1..]);
      var a, b := segments[0].stmts, AllStmts(segments[1..]);
      assert Tags(a + b) == Tags(a) + Tags(b);
      TagsAre(a);
    }
  }

  lemma {:induction false} TagsAre(stmts: seq<Stmt>)
    requires NoControls(stmts)
    ensures Tags(stmts) == Effects(stmts)
  {
    if stmts != [] {
      TagsAre(stmts[1..]);
      assert stmts[0].Effect? && Tags(stmts) == [stmts[0].tag] + Tags(stmts[1..]);
    }
  }

  // ----- what a failed attempt leaves

  /** Only effects are sent, and a message ends before anything else comes. */
  predicate Orderly(p: seq<Instr>) {
    forall i :: 0 <= i < |p| && p[i].Run? ==> p[i].stmt.Effect? && i + 1 < |p| && (p[i + 1].Run? || p[i + 1].Sync?)
  }

  lemma OrderlyBoth(a: seq<Instr>, b: seq<Instr>)
    requires Orderly(a) && Orderly(b)
    ensures Orderly(a + b)
  {
  }

  lemma {:induction false} OrderlySegments(segments: seq<Segment>)
    requires forall i :: 0 <= i < |segments| ==> NoControls(segments[i].stmts)
    ensures Orderly(SegmentPrograms(segments))
  {
    if segments != [] {
      OrderlySegment(segments[0]);
      OrderlySegments(segments[1..]);
      OrderlyBoth(SegmentProgram(segments[0]), SegmentPrograms(segments[1..]));
      hide Orderly;
    }
  }

  lemma OrderlySegment(s: Segment)
    requires NoControls(s.stmts)
    ensures Orderly(SegmentProgram(s))
  {
    var p := SegmentProgram(s);
    if !s.transactional {
      SinglesAre(s.stmts);
      forall i | 0 <= i < |p| && p[i].Run? ensures p[i].stmt.Effect? && i + 1 < |p| && p[i + 1].Sync? {
        assert OneByOne(p, 0, s.stmts) && p[2 * (i / 2)] == Run(s.stmts[i / 2]) && p[2 * (i / 2) + 1] == Sync;
      }
    }
  }

  lemma OrderlyProgram(c: Content)
    requires Plain(c)
    ensures Orderly(Program(c))
  {
    if Atomic(c) { OrderlySegment(c.segments[0]); } else { OrderlySegments(c.segments); }
  }

  /** Of the effects sent so far the first `j` are durable and the others wait; the registry is as before. */
  ghost predicate Partly(d: Store, e: Store, s: Session, f: File, tags: seq<int>, j: nat) {
    j <= |tags| && e == Logged(d, f, tags[..j]) && Waits(s) == tags[j..] && (s.Tx? ==> s.staged == None)
  }

  function TagsIn(p: seq<Instr>): seq<int>
    requires NoControls(StmtsIn(p))
  {
    Tags(StmtsIn(p))
  }

  lemma PartlyStep(d: Store, e: Store, s: Session, i: Instr, f: File, a: Attempt, tags: seq<int>, j: nat) returns (n: nat)
    requires Partly(d, e, s, f, tags, j) && !i.Register? && (i.Run? ==> i.stmt.Effect?)
    requires s.Implicit? ==> i.Run? || i.Sync?
    ensures var (v, t) := Perform(e, s, i, f, a);
      Partly(d, v, t, f, if i.Run? then tags + [i.stmt.tag] else tags, n) && (t.Implicit? ==> i.Run?)
  {
    n := j;
    var (v, t) := Perform(e, s, i, f, a);
    var more := if i.Run? then tags + [i.stmt.tag] else tags;
    if i.Commit? || (i.Sync? && s.Implicit?) {
      n := |tags|;
      LoggedBoth(d, f, tags[..j], tags[j..]);
      assert tags[..j] + tags[j..] == tags && tags[..n] == tags && tags[n..] == [];
      assert v == Logged(e, f, Waits(s));
    } else {
      assert more[..j] == tags[..j] && more[j..] == if i.Run? then tags[j..] + [i.stmt.tag] else tags[j..];
    }
  }

  lemma StmtsOne(p: seq<Instr>, k: nat)
    requires k < |p|
    ensures StmtsIn(p[..k + 1]) == StmtsIn(p[..k]) + if p[k].Run? then [p[k].stmt] else []
  {
    assert p[..k + 1] == p[..k] + [p[k]];
    assert [p[k]][1..] == [];
    StmtsInBoth(p[..k], [p[k]]);
  }

  lemma {:induction false} PartlyPlayed(d: Store, p: seq<Instr>, k: nat, f: File, a: Attempt) returns (j: nat)
    requires k <= |p| && Orderly(p) && forall i :: 0 <= i < k ==> !p[i].Register?
    ensures NoControls(StmtsIn(p[..k]))
    ensures var (e, s) := Played(d, Auto, p[..k], f, a);
      Partly(d, e, s, f, TagsIn(p[..k]), j) && (s.Implicit? ==> k < |p| && (p[k].Run? || p[k].Sync?))
  {
    if k == 0 {
      j := 0;
      LoggedBoth(d, f, [], []);
      assert p[..0] == [] && TagsIn(p[..0]) == [];
    } else {
      j := PartlyPlayed(d, p, k - 1, f, a);
      var i := p[k - 1];
      StmtsOne(p, k - 1);
      assert p[..k][..k - 1] == p[..k - 1];
      var (e, s) := Played(d, Auto, p[..k - 1], f, a);
      var tags := TagsIn(p[..k - 1]);
      assert TagsIn(p[..k]) == if i.Run? then tags + [i.stmt.tag] else tags;
      hide Partly, StmtsIn, Perform, Logged;
      j := PartlyStep(d, e, s, i, f, a, tags, j);
    }
  }

  lemma {:induction false} AtomicUnfinished(d: Store, f: File, a: Attempt, k: nat)
    requires Plain(f.content) && Atomic(f.content) && k < |Program(f.content)|
    ensures Played(d, Auto, Program(f.content)[..k], f, a).0 == d
  {
    var stmts := f.content.segments[0].stmts;
    var p, n := Program(f.content), |stmts|;
    assert p[..n + 2] == [Begin] + Runs(stmts) + [Sync];
    if k == 0 {
      assert p[..0] == [];
    } else if k <= n + 1 {
      var some := stmts[..k - 1];
      assert p[..k] == [Begin] + Runs(some);
      PlayedStep(d, Auto, Begin, f, a);
      PlayedRuns(d, some, f, a);
      PlayedBoth(d, Auto, [Begin], Runs(some), f, a);
    } else {
      PlayedTx(d, stmts, f, a);
      if k == n + 3 {
        assert p[..k] == p[..n + 2] + [Register(true)];
        PlayedBoth(d, Auto, p[..n + 2], [Register(true)], f, a);
        PlayedStep(d, Tx(Tags(stmts), None), Register(true), f, a);
      }
    }
    hide Played, Program;
  }

  /** A patch without controls that fails leaves an initial part of its effects, none when it is atomic, and no row. */
  lemma Unfinished(d: Store, f: File, a: Attempt, k: nat) returns (j: nat)
    requires Plain(f.content) && k < |Program(f.content)|
    ensures j <= |AllTags(f.content.segments)|
    ensures Played(d, Auto, Program(f.content)[..k], f, a).0 == Logged(d, f, AllTags(f.content.segments)[..j])
    ensures Atomic(f.content) ==> j == 0
  {
    var c := f.content;
    var p := Program(c);
    if Atomic(c) {
      AtomicUnfinished(d, f, a, k);
      LoggedBoth(d, f, [], []);
      assert AllTags(c.segments)[..0] == [];
      j := 0;
    } else {
      j := MixedUnfinished(d, f, a, k);
    }
  }

  lemma MixedUnfinished(d: Store, f: File, a: Attempt, k: nat) returns (j: nat)
    requires Plain(f.content) && !Atomic(f.content) && k < |Program(f.content)|
    ensures j <= |AllTags(f.content.segments)|
    ensures Played(d, Auto, Program(f.content)[..k], f, a).0 == Logged(d, f, AllTags(f.content.segments)[..j])
  {
    if k < |Program(f.content)| - 1 {
      j := BeforeRow(d, f, a, k);
    } else {
      j := |AllTags(f.content.segments)|;
      BehindRow(d, f, a);
      assert AllTags(f.content.segments)[..j] == AllTags(f.content.segments);
    }
    hide Played, Program;
  }

  lemma BeforeRow(d: Store, f: File, a: Attempt, k: nat) returns (j: nat)
    requires Plain(f.content) && !Atomic(f.content) && k < |Program(f.content)| - 1
    ensures j <= |AllTags(f.content.segments)|
    ensures Played(d, Auto, Program(f.content)[..k], f, a).0 == Logged(d, f, AllTags(f.content.segments)[..j])
  {
    var c := f.content;
    var p := Program(c);
    OrderlyProgram(c);
    forall i | 0 <= i < k ensures !p[i].Register? { RegistersOnce(c, i); }
    hide Program, Played, Orderly;
    j := PartlyPlayed(d, p, k, f, a);
    ProgramStmts(c);
    AllTagsAre(c.segments);
    StmtsInBoth(p[..k], p[k..]);
    assert p == p[..k] + p[k..];
    assert TagsIn(p[..k])[..j] == AllTags(c.segments)[..j];
  }

  lemma BehindRow(d: Store, f: File, a: Attempt)
    requires Plain(f.content) && !Atomic(f.content)
    ensures var p := Program(f.content);
      Played(d, Auto, p[..|p| - 1], f, a).0 == Logged(d, f, AllTags(f.content.segments))
  {
    var c := f.content;
    var p, e := SegmentPrograms(c.segments), Logged(d, f, AllTags(f.content.segments));
    assert Program(c)[..|Program(c)| - 1] == p + [Begin] + [Register(false)];
    PlayedSegments(d, c.segments, f, a);
    PlayedStep(e, Auto, Begin, f, a);
    PlayedStep(e, Tx([], None), Register(false), f, a);
    PlayedBoth(d, Auto, p, [Begin], f, a);
    PlayedBoth(d, Auto, p + [Begin], [Register(false)], f, a);
    hide Played, Logged, SegmentPrograms;
  }

  /** No statement of such a patch is refused. */
  lemma NeverRefused(c: Content, s: Session, k: nat)
    requires Plain(c) && k < |Program(c)|
    ensures CanRun(s, Program(c)[k])
  {
    OrderlyProgram(c);
  }
}
