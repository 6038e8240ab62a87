/** Exactly which controls that survive stripping break exactly-once. */
module MigrationSurvivors {
  import opened Outcomes
  import opened PatchRegistry
  import opened PatchStatements
  import opened MigrationMachine
  import opened MigrationInvariants
  import opened MigrationAttempts
  import opened MigrationRuns

  function Alone(n: Name, c: Content): Options {
    Options([File(n, c)], true, map[n := c.sha], {n}, None, None)
  }

  /** One process takes the lock and sends the first `j` statements of the patch. */
  function Attempted(n: Name, c: Content, j: nat): seq<Step> {
    [Start(0, Alone(n, c)), Acquire(0), Read(0, Apply), Advance(0)] + seq(j, _ => Exec(0, 0))
  }

  /** What those statements leave behind. */
  function Performed(n: Name, c: Content, j: nat): (Store, Session)
    requires j <= |Program(c)|
  {
    if j == 0 then (Init.store, Auto)
    else
      var (d, s) := Performed(n, c, j - 1);
      Perform(d, s, Program(c)[j - 1], File(n, c), Success(Alone(n, c), File(n, c), 0))
  }

  function Halfway(n: Name, c: Content, j: nat): World
    requires j <= |Program(c)|
  {
    var (d, s) := Performed(n, c, j);
    World(Some(0), d, map[0 := Proc(Alone(n, c), if j < |Program(c)| then Executing(map[], 0, j, s) else Looping(map[], 1))], {},
          if Clean(c) then {} else {n})
  }

  lemma OpeningSteps(n: Name, c: Content)
    ensures After(Attempted(n, c, 0), [n]) == Some(Halfway(n, c, 0))
  {
    var o, G := Alone(n, c), [n];
    var s0, s1, s2, s3 := Start(0, o), Acquire(0), Read(0, Apply), Advance(0);
    hide After;
    assert Enabled(Init, s0, G);
    var w1 := Do(Init, s0, G);
    assert w1 == Init.(procs := map[0 := Proc(o, Waiting)]);
    var w2 := Do(w1, s1, G);
    assert w2 == Init.(lock := Some(0), procs := map[0 := Proc(o, Locked)]);
    assert Admitted(o);
    assert ReadPhase(o, map[], Apply) == Looping(map[], 0);
    var w3 := Do(w2, s2, G);
    assert w3 == w2.(procs := map[0 := Proc(o, Looping(map[], 0))]);
    var w4 := Do(w3, s3, G);
    assert w4.procs == map[0 := Proc(o, Executing(map[], 0, 0, Auto))];
    assert {} + {n} == {n};
    assert w4 == Halfway(n, c, 0);
    FourSteps(s0, s1, s2, s3, w1, w2, w3, w4, G);
    assert Attempted(n, c, 0) == [s0, s1, s2, s3];
  }

  lemma FourSteps(s0: Step, s1: Step, s2: Step, s3: Step, w1: World, w2: World, w3: World, w4: World, G: seq<Name>)
    requires Enabled(Init, s0, G) && w1 == Do(Init, s0, G)
    requires Enabled(w1, s1, G) && w2 == Do(w1, s1, G)
    requires Enabled(w2, s2, G) && w3 == Do(w2, s2, G)
    requires Enabled(w3, s3, G) && w4 == Do(w3, s3, G)
    ensures After([s0, s1, s2, s3], G) == Some(w4)
  {
    hide Enabled, Do;
    assert After([], G) == Some(Init);
    assert [] + [s0] == [s0] && [s0] + [s1] == [s0, s1] && [s0, s1] + [s2] == [s0, s1, s2];
    assert [s0, s1, s2] + [s3] == [s0, s1, s2, s3];
    OneMore([], s0, G);
    OneMore([s0], s1, G);
    OneMore([s0, s1], s2, G);
    OneMore([s0, s1, s2], s3, G);
  }

  lemma OneMore(run: seq<Step>, s: Step, G: seq<Name>)
    requires After(run, G).Some? && Enabled(After(run, G).value, s, G)
    ensures After(run + [s], G) == Some(Do(After(run, G).value, s, G))
  {
    assert (run + [s])[..|run + [s]| - 1] == run;
    hide Enabled, Do;
  }

  /** None of the first `j` statements is refused. */
  predicate Passes(n: Name, c: Content, j: nat)
    requires j <= |Program(c)|
  {
    forall k :: 0 <= k < j ==> CanRun(Performed(n, c, k).1, Program(c)[k])
  }

  lemma {:induction false} AttemptRuns(n: Name, c: Content, j: nat)
    requires j <= |Program(c)| && Passes(n, c, j)
    ensures After(Attempted(n, c, j), [n]) == Some(Halfway(n, c, j))
  {
    if j == 0 {
      OpeningSteps(n, c);
    } else {
      AttemptRuns(n, c, j - 1);
      assert Attempted(n, c, j - 1) + [Exec(0, 0)] == Attempted(n, c, j);
      ExecOne(n, c, j - 1);
      hide After, Halfway, Enabled, Do;
      OneMore(Attempted(n, c, j - 1), Exec(0, 0), [n]);
    }
  }

  lemma ExecOne(n: Name, c: Content, j: nat)
    requires j < |Program(c)| && CanRun(Performed(n, c, j).1, Program(c)[j])
    ensures Enabled(Halfway(n, c, j), Exec(0, 0), [n])
    ensures Do(Halfway(n, c, j), Exec(0, 0), [n]) == Halfway(n, c, j + 1)
  {
    hide Program, Perform, CanRun;
  }

  // ----- what the statements of a transactional patch leave behind

  lemma AtomicProgram(c: Content, j: nat)
    requires Atomic(c) && j < |Program(c)|
    ensures |Program(c)| == |c.segments[0].stmts| + 4
    ensures Program(c)[j] == if j == 0 then Begin else if j <= |c.segments[0].stmts| then Run(c.segments[0].stmts[j - 1])
                             else if j == |c.segments[0].stmts| + 1 then Sync
                             else if j == |c.segments[0].stmts| + 2 then Register(true) else Commit
  {
  }

  /** While the message runs: the session as `InMessage` reads it off the text, and no row yet. */
  ghost predicate Midway(n: Name, c: Content, j: nat)
    requires Atomic(c) && j <= |c.segments[0].stmts| && j + 1 <= |Program(c)|
  {
    var s := Performed(n, c, j + 1).1;
    Performed(n, c, j + 1).0.rows == map[] && InMessage(c.segments[0].stmts, j, s) && (s.Tx? ==> s.staged == None)
  }

  lemma {:induction false} MessageRuns(n: Name, c: Content, j: nat)
    requires Atomic(c) && j <= |c.segments[0].stmts| && Accepted(c.segments[0].stmts, j)
    ensures j + 1 <= |Program(c)| && Passes(n, c, j + 1) && Midway(n, c, j)
  {
    var stmts := c.segments[0].stmts;
    AtomicProgram(c, 0);
    if j == 0 {
      MessageStarts(stmts);
      FirstIsBegin(n, c);
      hide InMessage, Program;
    } else {
      MessageRuns(n, c, j - 1);
      AtomicProgram(c, j);
      assert !Refused(stmts, j - 1);
      StatementRuns(n, c, j);
    }
  }

  lemma FirstIsBegin(n: Name, c: Content)
    requires Atomic(c) && |Program(c)| > 0 && Program(c)[0] == Begin
    ensures Performed(n, c, 0) == (Init.store, Auto) && Performed(n, c, 1) == (Init.store, Tx([], None))
  {
    hide Program;
  }

  lemma StatementRuns(n: Name, c: Content, j: nat)
    requires Atomic(c) && 0 < j <= |c.segments[0].stmts| && j + 1 <= |Program(c)|
    requires Program(c)[j] == Run(c.segments[0].stmts[j - 1]) && !Refused(c.segments[0].stmts, j - 1)
    requires Passes(n, c, j) && Midway(n, c, j - 1)
    ensures Passes(n, c, j + 1) && Midway(n, c, j)
  {
    hide Program, Perform, Performed, InMessage, Refused, Passes, CanRun, Success;
    var stmts := c.segments[0].stmts;
    var (d, s) := Performed(n, c, j);
    var a := Success(Alone(n, c), File(n, c), 0);
    assert d.rows == map[] && InMessage(stmts, j - 1, s) && (s.Tx? ==> s.staged == None);
    NextPerformed(n, c, j);
    hide *;
    MessageStep(stmts, j - 1, s);
    NothingRegistered(d, s, stmts[j - 1], File(n, c), a);
    MorePass(n, c, j);
    MidwayIs(n, c, j, Perform(d, s, Run(stmts[j - 1]), File(n, c), a));
  }

  lemma MidwayIs(n: Name, c: Content, j: nat, r: (Store, Session))
    requires Atomic(c) && j <= |c.segments[0].stmts| && j + 1 <= |Program(c)| && Performed(n, c, j + 1) == r
    requires r.0.rows == map[] && InMessage(c.segments[0].stmts, j, r.1) && (r.1.Tx? ==> r.1.staged == None)
    ensures Midway(n, c, j)
  {
    hide Performed, InMessage, Atomic;
  }

  lemma NothingRegistered(d: Store, s: Session, stmt: Stmt, f: File, a: Attempt)
    requires s.Tx? ==> s.staged == None
    ensures Perform(d, s, Run(stmt), f, a).0.rows == d.rows && Perform(d, s, Run(stmt), f, a).1 == Stepped(s, stmt)
  {
  }

  lemma NextPerformed(n: Name, c: Content, j: nat)
    requires j < |Program(c)|
    ensures var (d, s) := Performed(n, c, j);
      Performed(n, c, j + 1) == Perform(d, s, Program(c)[j], File(n, c), Success(Alone(n, c), File(n, c), 0))
  {
    hide Program, Perform;
  }

  lemma MorePass(n: Name, c: Content, j: nat)
    requires j < |Program(c)| && Passes(n, c, j) && CanRun(Performed(n, c, j).1, Program(c)[j])
    ensures Passes(n, c, j + 1)
  {
    hide Program, CanRun, Performed;
  }

  /** A committing control makes durable what is held at it. */
  lemma EarlyBreaks(n: Name, c: Content, k: nat)
    requires Atomic(c) && k < |c.segments[0].stmts| && Accepted(c.segments[0].stmts, k + 1)
    requires c.segments[0].stmts[k].EndTx? && c.segments[0].stmts[k].commits && Held(c.segments[0].stmts, k) != []
    ensures k + 2 <= |Program(c)| && Passes(n, c, k + 2) && !ExactlyOnceAt(Halfway(n, c, k + 2).store, n)
  {
    MessageRuns(n, c, k);
    MessageRuns(n, c, k + 1);
    AtomicProgram(c, k + 1);
    var d := Performed(n, c, k + 1).0;
    OfAppend(d.log, n, Held(c.segments[0].stmts, k), n);
    hide Program, Held, Accepted, InTx, Passes;
  }

  /** The four states behind the message: the message has ended, the patch is registered, the commit is done. */
  lemma MessageEnds(n: Name, c: Content)
    requires Atomic(c) && Accepted(c.segments[0].stmts, |c.segments[0].stmts|)
    ensures var stmts := c.segments[0].stmts; var j := |stmts| + 2;
      && |Program(c)| == j + 2 && Passes(n, c, j + 2)
      && Performed(n, c, j).0.rows == map[]
      && Performed(n, c, j).1 == (if InTx(stmts, |stmts|) then Tx(Held(stmts, |stmts|), None) else Auto)
      && Program(c)[j] == Register(true) && Program(c)[j + 1] == Commit
  {
    var m := |c.segments[0].stmts|;
    AtomicProgram(c, 0);
    MessageRuns(n, c, m);
    AtomicProgram(c, m + 1);
    AtomicProgram(c, m + 2);
    AtomicProgram(c, m + 3);
    hide Program, Held, Accepted, InTx, Registered;
  }

  lemma OneSegment(c: Content)
    requires Atomic(c)
    ensures AllEffects(c.segments) == Effects(c.segments[0].stmts)
  {
    assert c.segments[1..] == [];
    assert Effects(c.segments[0].stmts) + [] == Effects(c.segments[0].stmts);
  }

  /** A patch that passes breaks exactly-once unless everything is held in an explicit transaction when it is registered. */
  lemma PassedBreaks(n: Name, c: Content) returns (j: nat)
    requires Atomic(c) && Accepted(c.segments[0].stmts, |c.segments[0].stmts|) && Effects(c.segments[0].stmts) != []
    requires !(InTx(c.segments[0].stmts, |c.segments[0].stmts|) && EffectsLast(c.segments[0].stmts))
    ensures j <= |Program(c)| && Passes(n, c, j) && !ExactlyOnceAt(Halfway(n, c, j).store, n)
  {
    var stmts := c.segments[0].stmts;
    MessageEnds(n, c);
    OneSegment(c);
    AllHeld(stmts);
    j := |stmts| + 2;
    var (d, s) := Performed(n, c, j);
    hide Program, Held, Accepted, InTx, EffectsLast, AllEffects, Of, Passes;
    if Of(d.log, n) == [] {
      j := if InTx(stmts, |stmts|) then j + 2 else j + 1;
      RegisteredBreaks(n, c, j, d, s);
    }
    assert Passes(n, c, j) by { FewerPass(n, c, j); }
  }

  lemma FewerPass(n: Name, c: Content, j: nat)
    requires j <= |Program(c)| && Passes(n, c, |Program(c)|)
    ensures Passes(n, c, j)
  {
    hide Program, CanRun, Performed;
  }

  lemma RegisteredBreaks(n: Name, c: Content, j: nat, d: Store, s: Session)
    requires |c.segments| > 0
    requires var i := |c.segments[0].stmts| + 2;
      |Program(c)| == i + 2 && Program(c)[i] == Register(true) && Program(c)[i + 1] == Commit
      && Performed(n, c, i) == (d, s) && j == (if s.Tx? then i + 2 else i + 1)
    requires d.rows == map[] && Of(d.log, n) == [] && (s.Auto? || s.Tx?)
    requires (if s.Tx? then s.effects else []) != AllEffects(c.segments)
    ensures !ExactlyOnceAt(Performed(n, c, j).0, n)
  {
    var i := |c.segments[0].stmts| + 2;
    hide Program, Of, AllEffects;
    OfAppend(d.log, n, if s.Tx? then s.effects else [], n);
    var a := Success(Alone(n, c), File(n, c), 0);
    assert Performed(n, c, i + 1) == Perform(d, s, Register(true), File(n, c), a);
  }

  /** For a transactional patch with at least one effect: it is exactly-once over every run that shows only this content
      under its name, if and only if the controls that survived in it are harmless. */
  lemma ExactlyOnceExactly(n: Name, c: Content)
    requires Atomic(c) && Effects(c.segments[0].stmts) != []
    ensures (forall run, G :: Distinct(G) && After(run, G).Some? && OnlyShows(run, n, c) ==> ExactlyOnceAt(After(run, G).value.store, n))
      <==> Harmless(c.segments[0].stmts)
  {
    var stmts := c.segments[0].stmts;
    if Harmless(stmts) {
      assert Clean(c);
      hide After, Distinct, Harmless, Clean, Of, AllEffects;
      forall run, G | Distinct(G) && After(run, G).Some? && OnlyShows(run, n, c) ensures ExactlyOnceAt(After(run, G).value.store, n) {
        ExactlyOnce(run, G, n);
      }
    } else {
      var j: nat;
      if CommitsEarly(stmts) {
        var k := EarlyControl(stmts);
        EarlyBreaks(n, c, k);
        j := k + 2;
      } else {
        j := PassedBreaks(n, c);
      }
      AttemptRuns(n, c, j);
      ShowsOnly(n, c, j);
      assert Distinct([n]);
      hide After, Halfway, Atomic, Harmless, ExactlyOnceAt, Program;
    }
  }

  lemma EarlyControl(stmts: seq<Stmt>) returns (k: nat)
    requires CommitsEarly(stmts)
    ensures k < |stmts| && Accepted(stmts, k + 1) && stmts[k].EndTx? && stmts[k].commits && Held(stmts, k) != []
  {
    hide Accepted, Held;
    var i, e :| 0 <= i < e < |stmts| && EndedBy(stmts, i, e) && stmts[e].commits && Accepted(stmts, e + 1);
    HeldAtEnd(stmts, e);
    k := e;
  }

  ghost predicate OnlyShows(run: seq<Step>, n: Name, c: Content) {
    forall i :: 0 <= i < |run| && run[i].Start? ==> forall f :: f in run[i].options.files && f.name == n ==> f.content == c
  }

  lemma ShowsOnly(n: Name, c: Content, j: nat)
    ensures OnlyShows(Attempted(n, c, j), n, c)
  {
  }
}
