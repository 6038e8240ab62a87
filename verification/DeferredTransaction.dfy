/** `DeferredTransaction`: the buffer, its handles and `commit`, over the compiler's specification. */
module DeferredTransaction {
  import opened Outcomes
  import opened DeferredMerge
  import opened DeferredNames
  import opened DeferredMeaning
  import opened DeferredCommit
  import opened DeferredClash
  import opened DeferredErrors

  // ----- which buffers compile

  predicate TokRefOk(t: Tok, i: nat, ops: seq<Op>)
    requires i < |ops|
  {
    t.Param? ==>
      var b := Local(ops[i].values, t.n);
      b.FieldRef? ==> b.op < i && b.field in ops[b.op].emitted
  }

  predicate BodyRefsOk(body: seq<Tok>, i: nat, ops: seq<Op>)
    requires i < |ops|
  {
    forall k :: 0 <= k < |body| ==> TokRefOk(body[k], i, ops)
  }

  predicate OpRefsOk(i: nat, ops: seq<Op>)
    requires i < |ops|
  {
    && (forall j :: 0 <= j < |ops[i].stmt.ctes| ==> BodyRefsOk(ops[i].stmt.ctes[j].body, i, ops))
    && BodyRefsOk(ops[i].stmt.tail, i, ops)
  }

  lemma {:induction false} RemapAccepts(body: seq<Tok>, names: seq<string>, i: nat, ops: seq<Op>, st: Space)
    requires i < |ops|
    ensures RemapBody(RenameCtes(body, names, Ns(i)), ops[i], i, ops, st).Ok? <==> BodyRefsOk(body, i, ops)
  {
    if body != [] {
      var renamed := RenameCtes(body, names, Ns(i));
      assert renamed[1..] == RenameCtes(body[1..], names, Ns(i));
      var first := RemapTok(renamed[0], ops[i], i, ops, st);
      assert first.Ok? <==> TokRefOk(body[0], i, ops);
      if first.Ok? {
        RemapAccepts(body[1..], names, i, ops, first.value.1);
      }
      assert forall k :: 1 <= k < |body| ==> body[k] == body[1..][k - 1];
    }
  }

  lemma {:induction false} CtesAccepted(j: nat, i: nat, ops: seq<Op>, st: Space)
    requires i < |ops| && j <= |ops[i].stmt.ctes|
    ensures var ctes := ops[i].stmt.ctes;
      CompileCtes(ctes[j..], Names(ctes), ops[i], i, ops, st).Ok? <==>
        (forall k :: j <= k < |ctes| ==> BodyRefsOk(ctes[k].body, i, ops))
    decreases |ops[i].stmt.ctes| - j
  {
    var ctes := ops[i].stmt.ctes;
    if j < |ctes| {
      assert ctes[j..][0] == ctes[j] && ctes[j..][1..] == ctes[j + 1..];
      RemapAccepts(ctes[j].body, Names(ctes), i, ops, st);
      var first := RemapBody(RenameCtes(ctes[j].body, Names(ctes), Ns(i)), ops[i], i, ops, st);
      if first.Ok? {
        CtesAccepted(j + 1, i, ops, first.value.1);
      }
    }
  }

  lemma OpAccepted(i: nat, ops: seq<Op>, merged: seq<Value>)
    requires i < |ops|
    ensures CompileOp(i, ops, merged).Ok? <==> OpRefsOk(i, ops)
  {
    var op := ops[i];
    var names := Names(op.stmt.ctes);
    assert op.stmt.ctes[0..] == op.stmt.ctes;
    CtesAccepted(0, i, ops, Space(merged, map[]));
    var first := CompileCtes(op.stmt.ctes, names, op, i, ops, Space(merged, map[]));
    if first.Ok? {
      RemapAccepts(op.stmt.tail, names, i, ops, first.value.1);
    }
  }

  lemma {:induction false} UpToAccepted(n: nat, ops: seq<Op>)
    requires n <= |ops|
    ensures CompileUpTo(n, ops).Ok? <==> forall i :: 0 <= i < n ==> OpRefsOk(i, ops)
  {
    hide CompileOp, OpRefsOk;
    if n > 0 {
      UpToAccepted(n - 1, ops);
      if CompileUpTo(n - 1, ops).Ok? {
        OpAccepted(n - 1, ops, CompileUpTo(n - 1, ops).value.1);
      }
    }
  }

  /** A buffer compiles exactly when every marker its statements use points to an EARLIER op that
      emits the field. */
  lemma CompilesExactly(ops: seq<Op>)
    ensures Compile(ops).Ok? <==> forall i :: 0 <= i < |ops| ==> OpRefsOk(i, ops)
  {
    UpToAccepted(|ops|, ops);
  }

  /** The statement of `update` for an entity with a column called `matched`. */
  function ColumnMatched(): Op {
    Op(Stmt([
        Branch("matched", [Ident("SELECT"), Sym("*"), Ident("FROM"), RelName("card"), Ident("WHERE"), Ident("id"), Sym("="), Param(2)]),
        Branch("guard", [Ident("SELECT"), Ident("pg_raise"), Sym("('ERR10')"), Ident("WHERE"), Sym("("), Ident("SELECT"),
                         Ident("count"), Sym("(*)"), Ident("FROM"), RelName("matched"), Sym(") > 1")]),
        Branch("upd", [Ident("UPDATE"), RelName("card"), Ident("SET"), Ident("matched"), Sym("="), Param(1), Ident("WHERE"),
                       Ident("id"), Sym("="), Param(2), Ident("AND"), Ident("version"), Sym("="), Param(3), Ident("AND"),
                       Ident("NOT"), Ident("EXISTS"), Sym("("), Ident("SELECT"), Sym("1"), Ident("FROM"), RelName("guard"),
                       Sym(")"), Ident("RETURNING"), Sym("*")])],
      [Ident("SELECT"), Sym("*"), Ident("FROM"), RelName("upd")]),
      [Val(Int(5)), Val(Int(1)), Val(Int(3))], {"id", "matched"}, Matched)
  }

  /** Such a column is renamed with the branch: the merged statement writes a column `s0_matched`, and for some meaning of
      bodies it does not yield what the update alone yields. */
  lemma ClashingColumnChangesMeaning()
    ensures var ops := [ColumnMatched()];
      && AllNamesOk(ops) && Compile(ops).Ok?
      && RenameTok(BodyAt(ops[0], 2)[3], Names(ops[0].stmt.ctes), Ns(0)) == Ident("s0_matched")
      && exists sem :: !MeaningKept(ops, Compile(ops).value, sem)
  {
    hide *;
    var ops := [ColumnMatched()];
    ColumnNames();
    ColumnCompiles();
    ColumnWord();
    ColumnClashes(ops);
    MeaningKeptExactly(ops, Compile(ops).value);
  }

  lemma ColumnNames()
    ensures var ops := [ColumnMatched()];
      Names(ops[0].stmt.ctes) == ["matched", "guard", "upd"] && NamesOk(0, ops) && AllNamesOk(ops)
  {
    var ops := [ColumnMatched()];
    var names := Names(ops[0].stmt.ctes);
    assert names == ["matched", "guard", "upd"];
    hide ColumnMatched;
    forall a, b | a in names && b in names ensures Ns(0) + a != b { assert (Ns(0) + a)[0] == 's' && b[0] != 's'; }
  }

  lemma ColumnWord()
    ensures var ops := [ColumnMatched()];
      && |ops[0].stmt.ctes| == 3 && |BodyAt(ops[0], 2)| > 3 && !TokOk(BodyAt(ops[0], 2)[3], 2, 0, ops)
      && RenameTok(BodyAt(ops[0], 2)[3], Names(ops[0].stmt.ctes), Ns(0)) == Ident("s0_matched")
  {
    var ops := [ColumnMatched()];
    var names := Names(ops[0].stmt.ctes);
    ColumnNames();
    assert names[0] == "matched" && Ns(0) == "s0_" && BodyAt(ops[0], 2)[3] == Ident("matched");
    hide ColumnMatched, BodyAt;
    RenameOwn("matched", names, Ns(0)) by { assert NamesOk(0, ops); }
  }

  lemma ColumnCompiles()
    ensures Compile([ColumnMatched()]).Ok?
  {
    hide Compile;
    var ops := [ColumnMatched()];
    forall j, k | 0 <= j <= 3 && 0 <= k < |BodyAt(ops[0], j)| ensures TokRefOk(BodyAt(ops[0], j)[k], 0, ops) {
      var b := Local(ops[0].values, 1);
    }
    assert forall j :: 0 <= j <= 3 ==> BodyRefsOk(BodyAt(ops[0], j), 0, ops);
    assert forall j :: 0 <= j < 3 ==> BodyAt(ops[0], j) == ops[0].stmt.ctes[j].body;
    assert BodyAt(ops[0], 3) == ops[0].stmt.tail;
    assert OpRefsOk(0, ops);
    CompilesExactly(ops);
  }

  lemma ColumnClashes(ops: seq<Op>)
    requires |ops| == 1 && |ops[0].stmt.ctes| == 3 && |BodyAt(ops[0], 2)| > 3 && !TokOk(BodyAt(ops[0], 2)[3], 2, 0, ops)
    ensures !NoClash(ops)
  {
    hide *;
    if NoClash(ops) { NoClashWord(ops, 0, 2, 3); }
  }

  lemma NoClashWord(ops: seq<Op>, i: nat, j: nat, k: nat)
    requires NoClash(ops) && i < |ops| && j <= |ops[i].stmt.ctes| && k < |BodyAt(ops[i], j)|
    ensures TokOk(BodyAt(ops[i], j)[k], j, i, ops)
  {
    assert OpOk(i, ops);
    assert BodyOk(BodyAt(ops[i], j), j, i, ops);
  }

  // ----- handles

  datatype TxState = Open | Done | Discarded

  datatype TxError =
    | NotOpen(state: TxState)
    | AuditNotDeferrable
    | BuildFailed(message: string)
    | BadRef(e: CompileError)
    | StatementFailed(code: string)
    | FinalizeFailed
    | NotSettled
    | DiscardedBeforeCommit

  /** A materialized result, by the shape its operation promises. */
  datatype Shaped = Undef | NoRow | One(row: Row) | Many(rows: Rows) | Page(entities: Rows, total: int) | Number(n: int)

  datatype Finalizer = WriteRow(visible: set<string>) | FirstRow | AllRows | PageRows | CountRows

  function Pick(row: Row, keys: set<string>): Row {
    map k | k in keys :: if k in row then row[k] else Null
  }

  function Finalize(f: Finalizer, rows: Rows): Result<Shaped, TxError> {
    match f
    case WriteRow(visible) => Ok(if rows == [] then Undef else One(Pick(rows[0], visible)))
    case FirstRow => Ok(if rows == [] then NoRow else One(rows[0]))
    case AllRows => Ok(Many(rows))
    case PageRows =>
      var total := FirstField(rows, "_total_records");
      if total.Text? then Err(FinalizeFailed)
      else Ok(Page(seq(|rows|, i requires 0 <= i < |rows| => rows[i] - {"_total_records"}), if total.Int? then total.n else 0))
    case CountRows =>
      var n := FirstField(rows, "n");
      if n.Text? then Err(FinalizeFailed) else Ok(Number(if n.Int? then n.n else 0))
  }

  predicate Cell(row: Row, key: string, v: Value) {
    key in row && row[key] == v
  }

  /** The number in the first row under a key: zero without a row, a key or a value. */
  predicate FirstNumber(rows: Rows, key: string, n: int) {
    if rows == [] || key !in rows[0] || rows[0][key] == Null then n == 0 else rows[0][key] == Int(n)
  }

  ghost predicate WithoutTotal(row: Row, entity: Row) {
    forall k :: (k in entity <==> k in row && k != "_total_records") && (k in entity ==> entity[k] == row[k])
  }

  /** What the operation promises its caller, said of the rows it yields. */
  ghost predicate Promised(f: Finalizer, rows: Rows, s: Shaped) {
    match f
    case WriteRow(visible) =>
      if rows == [] then s == Undef
      else s.One? && s.row.Keys == visible && forall k :: k in visible ==> Cell(s.row, k, if k in rows[0] then rows[0][k] else Null)
    case FirstRow => if rows == [] then s == NoRow else s == One(rows[0])
    case AllRows => s == Many(rows)
    case PageRows =>
      s.Page? && FirstNumber(rows, "_total_records", s.total) && |s.entities| == |rows|
      && forall i :: 0 <= i < |rows| ==> WithoutTotal(rows[i], s.entities[i])
    case CountRows => s.Number? && FirstNumber(rows, "n", s.n)
  }

  /** The text where a number is wanted. */
  predicate Unreadable(f: Finalizer, rows: Rows) {
    rows != [] && match f
      case PageRows => "_total_records" in rows[0] && rows[0]["_total_records"].Text?
      case CountRows => "n" in rows[0] && rows[0]["n"].Text?
      case _ => false
  }

  /** Shaping gives what is promised, and fails exactly where a number is a text. */
  lemma FinalizePromises(f: Finalizer, rows: Rows)
    ensures Finalize(f, rows).Ok? <==> !Unreadable(f, rows)
    ensures Finalize(f, rows).Ok? ==> Promised(f, rows, Finalize(f, rows).value)
  {
    if f.PageRows? && Finalize(f, rows).Ok? {
      var s := Finalize(f, rows).value;
      forall i | 0 <= i < |rows| ensures WithoutTotal(rows[i], s.entities[i]) {
        assert s.entities[i] == rows[i] - {"_total_records"};
      }
    }
  }

  /** What a caller sees through a handle. */
  datatype View = Pending | Value(v: Shaped) | Failed(e: TxError)

  class Deferred {
    const opIndex: nat
    var settled: bool
    var value: Shaped
    var error: Option<TxError>

    constructor (i: nat)
      ensures opIndex == i && Look() == Pending && error == None
    {
      opIndex := i;
      settled, value, error := false, Undef, None;
    }

    function Look(): View
      reads this
    {
      if !settled then Pending else if error.Some? then Failed(error.value) else Value(value)
    }

    /** The `value` getter: reading before commit settles the handle is an error. */
    method Read() returns (r: Result<Shaped, TxError>)
      ensures r == match Look() case Pending => Err(NotSettled) case Value(v) => Ok(v) case Failed(e) => Err(e)
    {
      if !settled { return Err(NotSettled); }
      if error.Some? { return Err(error.value); }
      return Ok(value);
    }

    method Resolve(v: Shaped)
      modifies this
      ensures Look() == if old(error).Some? then Failed(old(error).value) else Value(v)
      ensures error == old(error)
    {
      settled := true;
      value := v;
    }

    method Reject(e: TxError)
      modifies this
      ensures Look() == Failed(e)
    {
      settled := true;
      error := Some(e);
    }
  }

  // ----- the shared parameter space of one commit

  class ParamSpace {
    var merged: seq<Value>
    var index: map<nat, nat>

    constructor ()
      ensures State() == Space([], map[])
    {
      merged, index := [], map[];
    }

    function State(): Space
      reads this
    {
      Space(merged, index)
    }
  }

  function After<T>(done: seq<T>, r: Result<(seq<T>, Space), CompileError>): Result<(seq<T>, Space), CompileError> {
    match r
    case Err(e) => Err(e)
    case Ok((rest, st)) => Ok((done + rest, st))
  }

  lemma AfterLaws<T>(a: seq<T>, b: seq<T>, r: Result<(seq<T>, Space), CompileError>)
    ensures After([], r) == r && After(a, After(b, r)) == After(a + b, r)
  {
    if r.Ok? {
      assert [] + r.value.0 == r.value.0;
      assert a + (b + r.value.0) == a + b + r.value.0;
    }
  }

  method RemapParams(text: seq<Tok>, op: Op, i: nat, ops: seq<Op>, space: ParamSpace) returns (r: Result<seq<MTok>, CompileError>)
    requires i < |ops|
    modifies space
    ensures match RemapBody(text, op, i, ops, old(space.State()))
      case Err(e) => r == Err(e)
      case Ok((ts, st)) => r == Ok(ts) && space.State() == st
  {
    ghost var st0 := space.State();
    var out: seq<MTok> := [];
    var k := 0;
    assert text[0..] == text;
    AfterLaws<MTok>([], [], RemapBody(text, op, i, ops, st0));
    while k < |text|
      invariant 0 <= k <= |text|
      invariant RemapBody(text, op, i, ops, st0) == After(out, RemapBody(text[k..], op, i, ops, space.State()))
    {
      assert text[k..][0] == text[k] && text[k..][1..] == text[k + 1..];
      ghost var was, here := out, space.State();
      if text[k].Param? {
        var n := text[k].n;
        var v := Local(op.values, n);
        if v.FieldRef? {
          if v.op >= i { return Err(ForwardRef(v.op, v.field)); }
          if v.field !in ops[v.op].emitted { return Err(NotEmitted(v.op, v.field)); }
          out := out + [Scalar(v.field, v.op)];
        } else {
          if n !in space.index {
            space.merged := space.merged + [v.v];
            space.index := space.index[n := |space.merged|];
          }
          out := out + [Src(Param(space.index[n]))];
        }
      } else {
        out := out + [Src(text[k])];
      }
      assert RemapTok(text[k], op, i, ops, here) == Ok((out[|was|], space.State()));
      AfterLaws(was, [out[|was|]], RemapBody(text[k + 1..], op, i, ops, space.State()));
      k := k + 1;
    }
    assert text[k..] == [] && out + [] == out;
    return Ok(out);
  }

  /** The per-op part of `commit`: branches, wrapped tail, abort branch. */
  method MergeOp(i: nat, ops: seq<Op>, space: ParamSpace) returns (r: Result<seq<MBranch>, CompileError>)
    requires i < |ops|
    modifies space
    ensures match CompileOp(i, ops, old(space.merged))
      case Err(e) => r == Err(e)
      case Ok((bs, vs)) => r == Ok(bs) && space.merged == vs
  {
    var op := ops[i];
    var ctes := op.stmt.ctes;
    var names := Names(ctes);
    space.index := map[];
    ghost var st0 := space.State();
    var parts: seq<MBranch> := [];
    var k := 0;
    assert ctes[0..] == ctes;
    AfterLaws<MBranch>([], [], CompileCtes(ctes, names, op, i, ops, st0));
    while k < |ctes|
      invariant 0 <= k <= |ctes|
      invariant CompileCtes(ctes, names, op, i, ops, st0) == After(parts, CompileCtes(ctes[k..], names, op, i, ops, space.State()))
    {
      assert ctes[k..][0] == ctes[k] && ctes[k..][1..] == ctes[k + 1..];
      var body := RemapParams(RenameCtes(ctes[k].body, names, Ns(i)), op, i, ops, space);
      if body.Err? { return Err(body.error); }
      AfterLaws(parts, [Query(RenameWord(ctes[k].name, names, Ns(i)), body.value)],
                CompileCtes(ctes[k + 1..], names, op, i, ops, space.State()));
      parts := parts + [Query(RenameWord(ctes[k].name, names, Ns(i)), body.value)];
      k := k + 1;
    }
    assert ctes[k..] == [] && parts + [] == parts;
    var tail := RemapParams(RenameCtes(op.stmt.tail, names, Ns(i)), op, i, ops, space);
    if tail.Err? { return Err(tail.error); }
    return Ok(parts + [Query(ResultName(i), tail.value)] + AbortBranches(op, names, i));
  }

  method MergeAll(ops: seq<Op>) returns (r: Result<Merged, CompileError>)
    ensures r == Compile(ops)
  {
    var space := new ParamSpace();
    var parts: seq<MBranch> := [];
    var guards: seq<string> := [];
    var i := 0;
    while i < |ops|
      invariant 0 <= i <= |ops|
      invariant CompileUpTo(i, ops) == Ok((parts, space.merged)) && guards == Guards(i, ops)
    {
      var branches := MergeOp(i, ops, space);
      if branches.Err? {
        FirstErrorSticks(i + 1, |ops|, ops);
        return Err(branches.error);
      }
      if ops[i].abort != NoAbort {
        guards := guards + [AbortName(i)];
      }
      parts := parts + branches.value;
      i := i + 1;
    }
    return Ok(Merged(parts, Columns(|ops|), guards, space.merged));
  }

  lemma {:induction false} FirstErrorSticks(i: nat, n: nat, ops: seq<Op>)
    requires i <= n <= |ops| && CompileUpTo(i, ops).Err?
    ensures CompileUpTo(n, ops) == CompileUpTo(i, ops)
  {
    if i < n {
      FirstErrorSticks(i, n - 1, ops);
    }
  }

  // ----- the transaction

  /** A buffered op: the captured statement (or the build error), and how its result is shaped. */
  datatype Buffered = Buffered(captured: Result<(Stmt, seq<Bound>), TxError>, emitted: set<string>, abort: AbortKind, shape: Finalizer)

  function FirstFailure(bufs: seq<Buffered>): Option<TxError> {
    if bufs == [] then None
    else if bufs[0].captured.Err? then Some(bufs[0].captured.error)
    else FirstFailure(bufs[1..])
  }

  function OpOf(b: Buffered): Op
    requires b.captured.Ok?
  {
    Op(b.captured.value.0, b.captured.value.1, b.emitted, b.abort)
  }

  predicate AllCaptured(bufs: seq<Buffered>) { forall i :: 0 <= i < |bufs| ==> bufs[i].captured.Ok? }

  function OpsOf(bufs: seq<Buffered>): seq<Op>
    requires AllCaptured(bufs)
  {
    seq(|bufs|, i requires 0 <= i < |bufs| => OpOf(bufs[i]))
  }

  lemma {:induction false} FirstFailureSound(bufs: seq<Buffered>)
    ensures FirstFailure(bufs).None? <==> AllCaptured(bufs)
  {
    if bufs != [] {
      FirstFailureSound(bufs[1..]);
      assert forall i :: 1 <= i < |bufs| ==> bufs[i] == bufs[1..][i - 1];
    }
  }

  type Payload = map<string, Rows>
  type Executor = Merged -> Result<Payload, TxError>

  function PayloadRows(p: Payload, i: nat): Rows {
    if ResultName(i) in p then p[ResultName(i)] else []
  }

  function ViewOf(r: Result<Shaped, TxError>): View {
    match r
    case Ok(v) => Value(v)
    case Err(e) => Failed(e)
  }

  /** The error `commit` rejects with, if any, and what each handle then shows. */
  function CommitError(bufs: seq<Buffered>, run: Executor): Option<TxError> {
    FirstFailureSound(bufs);
    match FirstFailure(bufs)
    case Some(e) => Some(e)
    case None =>
      if bufs == [] then None
      else
        match Compile(OpsOf(bufs))
        case Err(e) => Some(BadRef(e))
        case Ok(m) =>
          match run(m)
          case Err(e) => Some(e)
          case Ok(_) => None
  }

  function CommitView(bufs: seq<Buffered>, run: Executor, i: nat): View
    requires i < |bufs|
  {
    FirstFailureSound(bufs);
    match CommitError(bufs, run)
    case Some(e) => Failed(e)
    case None => ViewOf(Finalize(bufs[i].shape, PayloadRows(run(Compile(OpsOf(bufs)).value).value, i)))
  }

  class DeferredTx {
    var ops: seq<Buffered>
    var handles: seq<Deferred>
    var state: TxState

    ghost predicate Valid()
      reads this, handles
    {
      && |ops| == |handles|
      && (forall i, j :: 0 <= i < j < |handles| ==> handles[i] != handles[j])
      && (forall i :: 0 <= i < |handles| ==> handles[i].opIndex == i)
      && (state == Open ==> forall i :: 0 <= i < |handles| ==> handles[i].Look() == Pending && handles[i].error == None)
      && (state != Open ==> forall i :: 0 <= i < |handles| ==> handles[i].Look() != Pending)
    }

    constructor ()
      ensures Valid() && state == Open && ops == []
    {
      ops, handles, state := [], [], Open;
    }

    /** Buffering touches nothing but the buffer; audit and closed transactions are refused eagerly. */
    method Register(op: Buffered, audit: bool) returns (r: Result<Deferred, TxError>)
      requires Valid()
      modifies this
      ensures Valid() && state == old(state)
      ensures old(state) != Open ==> r == Err(NotOpen(old(state)))
      ensures old(state) == Open && audit ==> r == Err(AuditNotDeferrable)
      ensures r.Err? ==> ops == old(ops) && handles == old(handles)
      ensures r.Ok? ==> old(state) == Open && !audit && ops == old(ops) + [op] && handles == old(handles) + [r.value]
      ensures r.Ok? ==> fresh(r.value) && r.value.opIndex == |old(ops)| && r.value.Look() == Pending
    {
      if state != Open { return Err(NotOpen(state)); }
      if audit { return Err(AuditNotDeferrable); }
      var d := new Deferred(|ops|);
      ops := ops + [op];
      handles := handles + [d];
      return Ok(d);
    }

    method RejectAll(e: TxError)
      modifies handles
      ensures forall i :: 0 <= i < |handles| ==> handles[i].Look() == Failed(e)
    {
      var i := 0;
      while i < |handles|
        invariant 0 <= i <= |handles|
        invariant forall j :: 0 <= j < i ==> handles[j].Look() == Failed(e)
      {
        handles[i].Reject(e);
        i := i + 1;
      }
    }

    /** One statement for the whole buffer: all handles settle, with the error or with the op's rows. */
    method Commit(run: Executor) returns (r: Result<(), TxError>)
      requires Valid()
      modifies this, handles
      ensures Valid() && ops == old(ops) && handles == old(handles)
      ensures old(state) != Open ==> r == Err(NotOpen(old(state))) && state == old(state)
      ensures old(state) != Open ==> forall i :: 0 <= i < |handles| ==> handles[i].Look() == old(handles[i].Look())
      ensures old(state) == Open ==> state == Done
      ensures old(state) == Open ==> r == match CommitError(ops, run) case Some(e) => Err(e) case None => Ok(())
      ensures old(state) == Open ==> forall i :: 0 <= i < |handles| ==> handles[i].Look() == CommitView(ops, run, i)
    {
      if state != Open { return Err(NotOpen(state)); }
      state := Done;
      FirstFailureSound(ops);
      hide Finalize, FirstFailure, Compile, OpsOf, AllCaptured, PayloadRows;
      var failure := FirstFailure(ops);
      if failure.Some? {
        RejectAll(failure.value);
        return Err(failure.value);
      }
      if ops == [] { return Ok(()); }
      var compiled := MergeAll(OpsOf(ops));
      if compiled.Err? {
        RejectAll(BadRef(compiled.error));
        return Err(BadRef(compiled.error));
      }
      var res := run(compiled.value);
      if res.Err? {
        RejectAll(res.error);
        return Err(res.error);
      }
      var i := 0;
      while i < |ops|
        invariant 0 <= i <= |ops| && ops == old(ops) && handles == old(handles) && state == Done
        invariant forall j :: 0 <= j < i ==> handles[j].Look() == CommitView(ops, run, j)
        invariant forall j :: i <= j < |handles| ==> handles[j].error == None
      {
        var out := Finalize(ops[i].shape, PayloadRows(res.value, i));
        match out {
          case Ok(v) => handles[i].Resolve(v);
          case Err(e) => handles[i].Reject(e);
        }
        i := i + 1;
      }
      return Ok(());
    }

    method Discard()
      requires Valid()
      modifies this, handles
      ensures Valid() && ops == old(ops) && handles == old(handles)
      ensures old(state) != Open ==> state == old(state)
      ensures old(state) != Open ==> forall i :: 0 <= i < |handles| ==> handles[i].Look() == old(handles[i].Look())
      ensures old(state) == Open ==> state == Discarded
      ensures old(state) == Open ==> forall i :: 0 <= i < |handles| ==> handles[i].Look() == Failed(DiscardedBeforeCommit)
    {
      if state != Open { return; }
      state := Discarded;
      RejectAll(DiscardedBeforeCommit);
    }
  }

  // ----- commit against the database

  /** `run` executes the merged statement of `ops` under the SQL meaning `sem`, where `raises` says what bodies raise: an abort
      surfaces as one of the raised codes, a success as the statement's columns. */
  ghost predicate Runs(run: Executor, ops: seq<Op>, sem: Sem, raises: Raises) {
    ops != [] && Compile(ops).Ok? ==>
      var m := Compile(ops).value; RunsOne(m, run(m), Execute(m, sem, MergedErrors(ops, m, sem, raises)))
  }

  ghost predicate RunsOne(m: Merged, r: Result<Payload, TxError>, o: Outcome) {
    match o
    case Aborted(codes) => r.Err? && r.error.StatementFailed? && r.error.code in codes
    case Committed(rows) => r.Ok? && |m.columns| == |rows| && forall i :: 0 <= i < |rows| ==>
        m.columns[i] in r.value && r.value[m.columns[i]] == rows[i]
  }

  /** End to end: for a buffer without name clashes, commit succeeds exactly when every marker is legal, no statement raises
      alone and every op that must yield a row does; then each handle holds what its own statement would have returned, and
      otherwise every handle fails with the same error. */
  lemma {:induction false} CommitIsAllOrNothing(bufs: seq<Buffered>, run: Executor, sem: Sem, raises: Raises)
    requires AllCaptured(bufs) && NoClash(OpsOf(bufs)) && Runs(run, OpsOf(bufs), sem, raises)
    ensures CommitError(bufs, run).None? <==>
      bufs == [] || (Compile(OpsOf(bufs)).Ok? && Missing(OpsOf(bufs), sem) == {}
                     && forall code :: !RaisesAlone(OpsOf(bufs), sem, raises, code))
    ensures CommitError(bufs, run).None? ==> forall i :: 0 <= i < |bufs| ==>
      CommitView(bufs, run, i) == ViewOf(Finalize(bufs[i].shape, Results(|bufs|, OpsOf(bufs), sem)[i]))
    ensures CommitError(bufs, run).Some? ==> forall i :: 0 <= i < |bufs| ==>
      CommitView(bufs, run, i) == Failed(CommitError(bufs, run).value)
    ensures CommitError(bufs, run).Some? && Compile(OpsOf(bufs)).Ok? ==>
      exists code :: CommitError(bufs, run) == Some(StatementFailed(code))
        && (code in MissingCodes(OpsOf(bufs), sem) || RaisesAlone(OpsOf(bufs), sem, raises, code))
  {
    FirstFailureSound(bufs);
    var ops := OpsOf(bufs);
    if bufs != [] && Compile(ops).Ok? {
      var m := Compile(ops).value;
      OutcomeExactly(ops, m, sem, raises);
      hide NoClash, Execute, Missing, MissingCodes, RaisesAlone, MergedErrors, Results, Finalize;
      var o := Execute(m, sem, MergedErrors(ops, m, sem, raises));
      assert RunsOne(m, run(m), o);
      if o.Committed? {
        forall i | 0 <= i < |bufs| ensures PayloadRows(run(m).value, i) == Results(|bufs|, ops, sem)[i] {
          assert m.columns[i] == ResultName(i);
        }
      } else {
        var code := run(m).error.code;
        assert CommitError(bufs, run) == Some(StatementFailed(code));
      }
    }
  }

  /** After a successful commit every handle holds what its operation promises of the rows its own statement yields alone, or
      the failure to read a number from them. */
  lemma {:induction false} HandlesHold(bufs: seq<Buffered>, run: Executor, sem: Sem, raises: Raises, i: nat)
    requires AllCaptured(bufs) && NoClash(OpsOf(bufs)) && Runs(run, OpsOf(bufs), sem, raises)
    requires CommitError(bufs, run).None? && i < |bufs|
    ensures var rows := Results(|bufs|, OpsOf(bufs), sem)[i];
      match CommitView(bufs, run, i)
      case Value(s) => Promised(bufs[i].shape, rows, s)
      case Failed(e) => e == FinalizeFailed && Unreadable(bufs[i].shape, rows)
      case Pending => false
  {
    CommitIsAllOrNothing(bufs, run, sem, raises);
    FinalizePromises(bufs[i].shape, Results(|bufs|, OpsOf(bufs), sem)[i]);
    hide AllCaptured, NoClash, Runs, CommitError, CommitView, Promised, Unreadable, Results, OpsOf;
  }
}
