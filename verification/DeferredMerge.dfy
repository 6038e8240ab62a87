/** The statement compiler behind `dal.beginTransaction()`: every buffered operation's captured
    statement becomes a group of branches of ONE `WITH` statement.

    A captured statement is a list of named branches and a terminal query. A body is a sequence of
    tokens. SQL itself is an arbitrary function `sem` from a body whose names and parameters have
    been resolved to the rows it yields on the one snapshot all branches share. */
module DeferredMerge {

  import opened Outcomes

  datatype Value = Null | Int(n: int) | Text(s: string)
  type Row = map<string, Value>
  type Rows = seq<Row>

  /** A bound parameter of a captured statement: a value, or the marker `Deferred.ref(field)`. */
  datatype Bound = Val(v: Value) | FieldRef(op: nat, field: string)

  /** `RelName`: a name in relation position (a branch or a base table). `Ident`: any other word
      (a column, a keyword, a word inside a literal). `Sym`: text without words. `Param(n)`: `$n`. */
  datatype Tok = RelName(name: string) | Ident(word: string) | Sym(text: string) | Param(n: nat)

  datatype Branch = Branch(name: string, body: seq<Tok>)
  datatype Stmt = Stmt(ctes: seq<Branch>, tail: seq<Tok>)

  /** What a zero-row result means: nothing, a fixed error code, or ERR01/ERR03 told apart by the
      statement's own `matched` branch. */
  datatype AbortKind = NoAbort | Matched | Fixed(code: string)

  datatype Op = Op(stmt: Stmt, values: seq<Bound>, emitted: set<string>, abort: AbortKind)

  // ----- the merged statement

  /** `Scalar(f, k)` prints as `(SELECT "f" FROM "__rk" LIMIT 1)`. */
  datatype MTok = Src(tok: Tok) | Scalar(field: string, op: nat)

  /** `Raise(name, result, matched, code)` prints as `name AS (SELECT pg_raise(code) WHERE NOT EXISTS
      (SELECT 1 FROM result))`, the code chosen by `EXISTS (SELECT 1 FROM m)` when `matched == Some(m)`. */
  datatype MBranch =
    | Query(name: string, body: seq<MTok>)
    | Raise(name: string, result: string, matched: Option<string>, code: string)

  datatype Merged = Merged(branches: seq<MBranch>, columns: seq<string>, guards: seq<string>, values: seq<Value>)

  datatype CompileError = ForwardRef(op: nat, field: string) | NotEmitted(op: nat, field: string)

  // ----- names

  function Digit(d: nat): char
    requires d < 10
  {
    ['0', '1', '2', '3', '4', '5', '6', '7', '8', '9'][d]
  }

  function Dec(n: nat): string {
    if n < 10 then [Digit(n)] else Dec(n / 10) + [Digit(n % 10)]
  }

  function Ns(i: nat): string { "s" + Dec(i) + "_" }
  function ResultName(i: nat): string { "__r" + Dec(i) }
  function AbortName(i: nat): string { "__ab" + Dec(i) }

  function Names(ctes: seq<Branch>): seq<string> {
    seq(|ctes|, j requires 0 <= j < |ctes| => ctes[j].name)
  }

  // ----- renaming: one whole-word replacement pass per branch name, in order

  function RenameWord(w: string, names: seq<string>, ns: string): string
    decreases names
  {
    if names == [] then w
    else RenameWord(if w == names[0] then ns + w else w, names[1..], ns)
  }

  function RenameTok(t: Tok, names: seq<string>, ns: string): Tok {
    match t
    case RelName(w) => RelName(RenameWord(w, names, ns))
    case Ident(w) => Ident(RenameWord(w, names, ns))
    case Sym(_) => t
    case Param(_) => t
  }

  function RenameCtes(body: seq<Tok>, names: seq<string>, ns: string): seq<Tok> {
    seq(|body|, j requires 0 <= j < |body| => RenameTok(body[j], names, ns))
  }

  // ----- parameter renumbering

  function Local(values: seq<Bound>, n: nat): Bound {
    if 1 <= n <= |values| then values[n - 1] else Val(Null)
  }

  datatype Space = Space(merged: seq<Value>, index: map<nat, nat>)

  function RemapTok(t: Tok, op: Op, i: nat, ops: seq<Op>, st: Space): Result<(MTok, Space), CompileError>
    requires i < |ops|
  {
    match t
    case Param(n) =>
      (match Local(op.values, n)
       case FieldRef(k, f) =>
         if k >= i then Err(ForwardRef(k, f))
         else if f !in ops[k].emitted then Err(NotEmitted(k, f))
         else Ok((Scalar(f, k), st))
       case Val(v) =>
         if n in st.index then Ok((Src(Param(st.index[n])), st))
         else
           var gi := |st.merged| + 1;
           Ok((Src(Param(gi)), Space(st.merged + [v], st.index[n := gi]))))
    case _ => Ok((Src(t), st))
  }

  function RemapBody(body: seq<Tok>, op: Op, i: nat, ops: seq<Op>, st: Space): Result<(seq<MTok>, Space), CompileError>
    requires i < |ops|
  {
    if body == [] then Ok(([], st))
    else
      match RemapTok(body[0], op, i, ops, st)
      case Err(e) => Err(e)
      case Ok((t, st1)) =>
        match RemapBody(body[1..], op, i, ops, st1)
        case Err(e) => Err(e)
        case Ok((ts, st2)) => Ok(([t] + ts, st2))
  }

  // ----- compiling one op and the whole buffer

  function CompileCtes(ctes: seq<Branch>, names: seq<string>, op: Op, i: nat, ops: seq<Op>, st: Space)
    : Result<(seq<MBranch>, Space), CompileError>
    requires i < |ops|
  {
    if ctes == [] then Ok(([], st))
    else
      match RemapBody(RenameCtes(ctes[0].body, names, Ns(i)), op, i, ops, st)
      case Err(e) => Err(e)
      case Ok((body, st1)) =>
        match CompileCtes(ctes[1..], names, op, i, ops, st1)
        case Err(e) => Err(e)
        case Ok((bs, st2)) => Ok(([Query(RenameWord(ctes[0].name, names, Ns(i)), body)] + bs, st2))
  }

  function AbortBranches(op: Op, names: seq<string>, i: nat): seq<MBranch> {
    match op.abort
    case NoAbort => []
    case Fixed(code) => [Raise(AbortName(i), ResultName(i), None, code)]
    case Matched =>
      [Raise(AbortName(i), ResultName(i), if "matched" in names then Some(Ns(i) + "matched") else None, "ERR03")]
  }

  function CompileOp(i: nat, ops: seq<Op>, merged: seq<Value>): Result<(seq<MBranch>, seq<Value>), CompileError>
    requires i < |ops|
  {
    var op := ops[i];
    var names := Names(op.stmt.ctes);
    match CompileCtes(op.stmt.ctes, names, op, i, ops, Space(merged, map[]))
    case Err(e) => Err(e)
    case Ok((bs, st1)) =>
      match RemapBody(RenameCtes(op.stmt.tail, names, Ns(i)), op, i, ops, st1)
      case Err(e) => Err(e)
      case Ok((tail, st2)) => Ok((bs + [Query(ResultName(i), tail)] + AbortBranches(op, names, i), st2.merged))
  }

  function CompileUpTo(n: nat, ops: seq<Op>): Result<(seq<MBranch>, seq<Value>), CompileError>
    requires n <= |ops|
  {
    if n == 0 then Ok(([], []))
    else
      match CompileUpTo(n - 1, ops)
      case Err(e) => Err(e)
      case Ok((bs, vs)) =>
        match CompileOp(n - 1, ops, vs)
        case Err(e) => Err(e)
        case Ok((bs1, vs1)) => Ok((bs + bs1, vs1))
  }

  function Columns(n: nat): seq<string> {
    seq(n, i requires 0 <= i < n => ResultName(i))
  }

  function Guards(n: nat, ops: seq<Op>): seq<string>
    requires n <= |ops|
  {
    if n == 0 then []
    else Guards(n - 1, ops) + if ops[n - 1].abort == NoAbort then [] else [AbortName(n - 1)]
  }

  function Compile(ops: seq<Op>): Result<Merged, CompileError> {
    match CompileUpTo(|ops|, ops)
    case Err(e) => Err(e)
    case Ok((bs, vs)) => Ok(Merged(bs, Columns(|ops|), Guards(|ops|, ops), vs))
  }

  // ----- meaning

  /** A resolved token: what the database sees at one place of a body. */
  datatype RTok = Rel(rows: Rows) | Base(table: string) | Word(w: string) | Punct(text: string) | Const(v: Value)

  type Sem = seq<RTok> -> Rows

  function FirstField(rows: Rows, field: string): Value {
    if rows == [] || field !in rows[0] then Null else rows[0][field]
  }

  /** A branch name hides a base table of the same name. */
  function ResolveRel(w: string, env: map<string, Rows>): RTok {
    if w in env then Rel(env[w]) else Base(w)
  }

  /** The value of an op's local `$n`, a marker standing for the field of the source op's first row. */
  function LocalValue(op: Op, prior: seq<Rows>, n: nat): Value {
    match Local(op.values, n)
    case Val(v) => v
    case FieldRef(k, f) => if k < |prior| then FirstField(prior[k], f) else Null
  }

  function ResolveTok(t: Tok, env: map<string, Rows>, op: Op, prior: seq<Rows>): RTok {
    match t
    case RelName(w) => ResolveRel(w, env)
    case Ident(w) => Word(w)
    case Sym(s) => Punct(s)
    case Param(n) => Const(LocalValue(op, prior, n))
  }

  function Resolve(body: seq<Tok>, env: map<string, Rows>, op: Op, prior: seq<Rows>): seq<RTok> {
    seq(|body|, j requires 0 <= j < |body| => ResolveTok(body[j], env, op, prior))
  }

  /** The rows of an op's branches, each seeing the ones before it. */
  function EvalCtes(env: map<string, Rows>, ctes: seq<Branch>, op: Op, prior: seq<Rows>, sem: Sem): map<string, Rows>
    decreases ctes
  {
    if ctes == [] then env
    else EvalCtes(env[ctes[0].name := sem(Resolve(ctes[0].body, env, op, prior))], ctes[1..], op, prior, sem)
  }

  /** The rows an op's own statement yields when it is run alone. */
  function RunAlone(op: Op, prior: seq<Rows>, sem: Sem): Rows {
    sem(Resolve(op.stmt.tail, EvalCtes(map[], op.stmt.ctes, op, prior, sem), op, prior))
  }

  /** Results of the first `n` ops, each run alone on the shared snapshot. */
  function Results(n: nat, ops: seq<Op>, sem: Sem): (rs: seq<Rows>)
    requires n <= |ops|
    ensures |rs| == n
  {
    if n == 0 then []
    else
      var prior := Results(n - 1, ops, sem);
      prior + [RunAlone(ops[n - 1], prior, sem)]
  }

  function ResolveM(body: seq<MTok>, env: map<string, Rows>, values: seq<Value>): seq<RTok> {
    seq(|body|, j requires 0 <= j < |body| => ResolveMTok(body[j], env, values))
  }

  function ResolveMTok(t: MTok, env: map<string, Rows>, values: seq<Value>): RTok {
    match t
    case Scalar(f, k) => Const(if ResultName(k) in env then FirstField(env[ResultName(k)], f) else Null)
    case Src(RelName(w)) => ResolveRel(w, env)
    case Src(Ident(w)) => Word(w)
    case Src(Sym(s)) => Punct(s)
    case Src(Param(n)) => Const(if 1 <= n <= |values| then values[n - 1] else Null)
  }

  /** An abort branch that does not raise has no rows. */
  function StepM(env: map<string, Rows>, b: MBranch, values: seq<Value>, sem: Sem): map<string, Rows> {
    match b
    case Query(name, body) => env[name := sem(ResolveM(body, env, values))]
    case Raise(name, _, _, _) => env[name := []]
  }

  function EvalMerged(env: map<string, Rows>, bs: seq<MBranch>, values: seq<Value>, sem: Sem): map<string, Rows>
    decreases bs
  {
    if bs == [] then env else EvalMerged(StepM(env, bs[0], values, sem), bs[1..], values, sem)
  }

  /** The abort branches that raise: those the final WHERE evaluates and whose result is empty. */
  predicate Fires(b: MBranch, guards: seq<string>, env: map<string, Rows>) {
    b.Raise? && b.name in guards && (b.result !in env || env[b.result] == [])
  }

  function RaisedCode(b: MBranch, env: map<string, Rows>): string
    requires b.Raise?
  {
    if b.matched.Some? then
      if b.matched.value in env && env[b.matched.value] != [] then "ERR01" else "ERR03"
    else b.code
  }

  /** Executing the merged statement when evaluating its bodies raises `errors`: any raise aborts all of it, otherwise one
      column per op. When several branches raise, the database decides which one is reported, so `codes` lists them all. */
  datatype Outcome = Aborted(codes: set<string>) | Committed(payload: seq<Rows>)

  ghost function RaisedCodes(m: Merged, env: map<string, Rows>): set<string> {
    set b | b in m.branches && Fires(b, m.guards, env) :: RaisedCode(b, env)
  }

  ghost function Execute(m: Merged, sem: Sem, errors: set<string>): Outcome {
    var env := EvalMerged(map[], m.branches, m.values, sem);
    var codes := RaisedCodes(m, env) + errors;
    if codes != {} then Aborted(codes)
    else Committed(seq(|m.columns|, i requires 0 <= i < |m.columns| =>
      if m.columns[i] in env then env[m.columns[i]] else []))
  }
}
