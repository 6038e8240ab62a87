/** The merged statement means what its ops mean one by one. */
module DeferredMeaning {
  import opened Outcomes
  import opened DeferredMerge
  import opened DeferredNames

  // ----- what the builders' statements satisfy

  /** No word of a body has the name of a branch of its own statement; a relation is an earlier such branch, or a base
      table whose name no branch before it in the merged statement takes. */
  ghost predicate TokOk(t: Tok, j: nat, i: nat, ops: seq<Op>)
    requires i < |ops| && j <= |ops[i].stmt.ctes|
  {
    var names := Names(ops[i].stmt.ctes);
    match t
    case Ident(w) => w !in names
    case RelName(w) => w in names[..j] || (w !in names && !Visible(w, i, j, ops))
    case Sym(_) => true
    case Param(_) => true
  }

  /** The body of the `j`-th branch of op `i`, or of its final query. */
  ghost predicate BodyOk(body: seq<Tok>, j: nat, i: nat, ops: seq<Op>)
    requires i < |ops| && j <= |ops[i].stmt.ctes|
  {
    forall k :: 0 <= k < |body| ==> TokOk(body[k], j, i, ops)
  }

  /** The branches of a statement have different names, none of them another's prefixed name. */
  predicate NamesOk(i: nat, ops: seq<Op>)
    requires i < |ops|
  {
    NoDup(Names(ops[i].stmt.ctes)) && PassesIndependent(Names(ops[i].stmt.ctes), Ns(i))
  }

  function BodyAt(op: Op, j: nat): seq<Tok>
    requires j <= |op.stmt.ctes|
  {
    if j < |op.stmt.ctes| then op.stmt.ctes[j].body else op.stmt.tail
  }

  ghost predicate WordsOk(i: nat, ops: seq<Op>)
    requires i < |ops|
  {
    forall j :: 0 <= j <= |ops[i].stmt.ctes| ==> BodyOk(BodyAt(ops[i], j), j, i, ops)
  }

  ghost predicate OpOk(i: nat, ops: seq<Op>)
    requires i < |ops|
  {
    NamesOk(i, ops) && WordsOk(i, ops)
  }

  ghost predicate AllNamesOk(ops: seq<Op>) {
    forall i :: 0 <= i < |ops| ==> NamesOk(i, ops)
  }

  /** Branch names clash with no other word of the buffer. */
  ghost predicate NoClash(ops: seq<Op>) {
    forall i :: 0 <= i < |ops| ==> OpOk(i, ops)
  }

  // ----- parameters

  /** Every local index already placed has one global index, which holds its value. */
  predicate SpaceOk(st: Space, op: Op) {
    && (forall n :: n in st.index ==>
          1 <= st.index[n] <= |st.merged| && Local(op.values, n) == Val(st.merged[st.index[n] - 1]))
    && (forall m, n :: m in st.index && n in st.index && st.index[m] == st.index[n] ==> m == n)
  }

  predicate SubMap(a: map<nat, nat>, b: map<nat, nat>) {
    forall n :: n in a ==> n in b && a[n] == b[n]
  }

  predicate Extends(a: Space, b: Space) {
    a.merged <= b.merged && SubMap(a.index, b.index)
  }

  /** A token under a finished index map. */
  predicate Under(t: Tok, m: MTok, op: Op, index: map<nat, nat>) {
    match t
    case Param(n) =>
      (match Local(op.values, n)
       case FieldRef(k, f) => m == Scalar(f, k)
       case Val(_) => n in index && m == Src(Param(index[n])))
    case _ => m == Src(t)
  }

  predicate BodyUnder(body: seq<Tok>, mbody: seq<MTok>, op: Op, index: map<nat, nat>) {
    |mbody| == |body| && forall k :: 0 <= k < |body| ==> Under(body[k], mbody[k], op, index)
  }

  predicate BackwardRefs(body: seq<MTok>, i: nat) {
    forall t :: t in body && t.Scalar? ==> t.op < i
  }

  /** A new local index takes the next global one. */
  lemma SpaceGrows(st: Space, op: Op, n: nat, v: Value)
    requires SpaceOk(st, op) && n !in st.index && Local(op.values, n) == Val(v)
    ensures var next := Space(st.merged + [v], st.index[n := |st.merged| + 1]);
      SpaceOk(next, op) && Extends(st, next)
  {
    hide Local;
  }

  lemma RemapTokSpace(t: Tok, i: nat, ops: seq<Op>, st: Space, m: MTok, st': Space)
    requires i < |ops| && SpaceOk(st, ops[i])
    requires RemapTok(t, ops[i], i, ops, st) == Ok((m, st'))
    ensures SpaceOk(st', ops[i]) && Extends(st, st') && Under(t, m, ops[i], st'.index)
    ensures m.Scalar? ==> m.op < i && m.field in ops[m.op].emitted
  {
    if t.Param? && t.n !in st.index && Local(ops[i].values, t.n).Val? {
      SpaceGrows(st, ops[i], t.n, Local(ops[i].values, t.n).v);
    }
    hide SpaceOk, Local;
  }

  lemma {:induction false} RemapBodySpace(body: seq<Tok>, i: nat, ops: seq<Op>, st: Space, mbody: seq<MTok>, st': Space)
    requires i < |ops| && SpaceOk(st, ops[i])
    requires RemapBody(body, ops[i], i, ops, st) == Ok((mbody, st'))
    ensures SpaceOk(st', ops[i]) && Extends(st, st') && BodyUnder(body, mbody, ops[i], st'.index)
    ensures BackwardRefs(mbody, i)
  {
    if body != [] {
      var (t, st1) := RemapTok(body[0], ops[i], i, ops, st).value;
      RemapTokSpace(body[0], i, ops, st, t, st1);
      var (ts, st2) := RemapBody(body[1..], ops[i], i, ops, st1).value;
      RemapBodySpace(body[1..], i, ops, st1, ts, st2);
    }
  }

  // ----- one body

  /** The words of a body mean the same in both environments. */
  predicate WordsAgree(body: seq<Tok>, names: seq<string>, ns: string, env: map<string, Rows>, menv: map<string, Rows>) {
    forall k :: 0 <= k < |body| ==> WordAgrees(body[k], names, ns, env, menv)
  }

  /** `menv` carries the results of the first `i` ops. */
  predicate PriorAgree(menv: map<string, Rows>, prior: seq<Rows>, i: nat) {
    |prior| == i && forall k: nat :: k < i ==> ResultName(k) in menv && menv[ResultName(k)] == prior[k]
  }

  /** The word of one token means the same in both environments. */
  predicate WordAgrees(t: Tok, names: seq<string>, ns: string, env: map<string, Rows>, menv: map<string, Rows>) {
    match t
    case RelName(w) => ResolveRel(RenameWord(w, names, ns), menv) == ResolveRel(w, env)
    case Ident(w) => RenameWord(w, names, ns) == w
    case Sym(_) => true
    case Param(_) => true
  }

  lemma TokMeaning(t: Tok, names: seq<string>, i: nat, op: Op, m: MTok, st: Space,
                   env: map<string, Rows>, menv: map<string, Rows>, prior: seq<Rows>, values: seq<Value>)
    requires SpaceOk(st, op) && st.merged <= values
    requires Under(RenameTok(t, names, Ns(i)), m, op, st.index) && (m.Scalar? ==> m.op < i)
    requires WordAgrees(t, names, Ns(i), env, menv)
    requires PriorAgree(menv, prior, i)
    ensures ResolveMTok(m, menv, values) == ResolveTok(t, env, op, prior)
  {
  }

  lemma BodyMeaning(body: seq<Tok>, names: seq<string>, i: nat, ops: seq<Op>, st: Space, mbody: seq<MTok>, st': Space,
                    env: map<string, Rows>, menv: map<string, Rows>, prior: seq<Rows>, values: seq<Value>)
    requires i < |ops| && SpaceOk(st, ops[i])
    requires RemapBody(RenameCtes(body, names, Ns(i)), ops[i], i, ops, st) == Ok((mbody, st'))
    requires st'.merged <= values
    requires WordsAgree(body, names, Ns(i), env, menv)
    requires PriorAgree(menv, prior, i)
    ensures ResolveM(mbody, menv, values) == Resolve(body, env, ops[i], prior)
  {
    var renamed := RenameCtes(body, names, Ns(i));
    RemapBodySpace(renamed, i, ops, st, mbody, st');
    forall k | 0 <= k < |body|
      ensures ResolveMTok(mbody[k], menv, values) == ResolveTok(body[k], env, ops[i], prior)
    {
      assert Under(renamed[k], mbody[k], ops[i], st'.index);
      assert mbody[k] in mbody;
      TokMeaning(body[k], names, i, ops[i], mbody[k], st', env, menv, prior, values);
    }
  }

  // ----- one op

  /** `menv` mirrors `env`, the own branches `names[..j]` carrying their namespaced names. */
  ghost predicate Mirrors(env: map<string, Rows>, menv: map<string, Rows>, names: seq<string>, ns: string) {
    forall w :: (w in env <==> w in names) && (w in names ==> ns + w in menv && menv[ns + w] == env[w])
  }

  ghost predicate KeysVisible(menv: map<string, Rows>, i: nat, j: nat, ops: seq<Op>)
    requires i < |ops| && j <= |ops[i].stmt.ctes|
  {
    forall w :: w in menv ==> Visible(w, i, j, ops)
  }

  lemma OwnWords(body: seq<Tok>, j: nat, i: nat, ops: seq<Op>, env: map<string, Rows>, menv: map<string, Rows>)
    requires i < |ops| && OpOk(i, ops) && j <= |ops[i].stmt.ctes|
    requires BodyOk(body, j, i, ops)
    requires Mirrors(env, menv, Names(ops[i].stmt.ctes)[..j], Ns(i)) && KeysVisible(menv, i, j, ops)
    ensures WordsAgree(body, Names(ops[i].stmt.ctes), Ns(i), env, menv)
  {
    var names := Names(ops[i].stmt.ctes);
    forall k | 0 <= k < |body|
      ensures WordAgrees(body[k], names, Ns(i), env, menv)
    {
      assert TokOk(body[k], j, i, ops);
      match body[k]
      case Ident(w) => RenameOther(w, names, Ns(i));
      case RelName(w) =>
        assert forall x :: x in names[..j] ==> x in names;
        if w in names[..j] {
          RenameOwn(w, names, Ns(i));
        } else {
          RenameOther(w, names, Ns(i));
        }
      case _ =>
    }
  }

  /** The state of the merged evaluation before the `j`-th branch of op `i`. */
  ghost predicate Before(menv: map<string, Rows>, prior: seq<Rows>, i: nat, j: nat, ops: seq<Op>)
    requires i < |ops| && j <= |ops[i].stmt.ctes|
  {
    PriorAgree(menv, prior, i) && KeysVisible(menv, i, j, ops)
  }

  lemma CteName(j: nat, i: nat, ops: seq<Op>)
    requires i < |ops| && NamesOk(i, ops) && j < |ops[i].stmt.ctes|
    ensures var ctes := ops[i].stmt.ctes;
      && RenameWord(ctes[j].name, Names(ctes), Ns(i)) == Ns(i) + ctes[j].name
      && Visible(Ns(i) + ctes[j].name, i, j + 1, ops)
      && ctes[j].name !in Names(ctes)[..j]
      && Names(ctes)[..j + 1] == Names(ctes)[..j] + [ctes[j].name]
  {
    var names := Names(ops[i].stmt.ctes);
    assert names[j] in names;
    RenameOwn(names[j], names, Ns(i));
    assert names[..j + 1] == names[..j] + [names[j]];
  }

  lemma BindOwn(w: string, rows: Rows, j: nat, i: nat, ops: seq<Op>, env: map<string, Rows>, menv: map<string, Rows>, prior: seq<Rows>)
    requires i < |ops| && OpOk(i, ops) && j < |ops[i].stmt.ctes| && w == ops[i].stmt.ctes[j].name
    requires Mirrors(env, menv, Names(ops[i].stmt.ctes)[..j], Ns(i)) && Before(menv, prior, i, j, ops)
    ensures Mirrors(env[w := rows], menv[Ns(i) + w := rows], Names(ops[i].stmt.ctes)[..j + 1], Ns(i))
    ensures Before(menv[Ns(i) + w := rows], prior, i, j + 1, ops)
  {
    CteName(j, i, ops);
    var names := Names(ops[i].stmt.ctes);
    forall v
      ensures v in env[w := rows] <==> v in names[..j + 1]
      ensures v in names[..j + 1] ==> Ns(i) + v in menv[Ns(i) + w := rows] && menv[Ns(i) + w := rows][Ns(i) + v] == env[w := rows][v]
    {
      if Ns(i) + v == Ns(i) + w {
        NsInjective(i, v, i, w);
      }
    }
    forall k: nat | k < i ensures ResultName(k) != Ns(i) + w { KindsDisjoint(i, k, w); }
  }

  lemma BodyHere(i: nat, j: nat, ops: seq<Op>)
    requires i < |ops| && OpOk(i, ops) && j < |ops[i].stmt.ctes|
    ensures BodyOk(ops[i].stmt.ctes[j].body, j, i, ops)
  {
    assert BodyOk(BodyAt(ops[i], j), j, i, ops);
  }

  lemma {:induction false} CtesMeaning(j: nat, i: nat, ops: seq<Op>, st: Space, bs: seq<MBranch>, st': Space,
                    env: map<string, Rows>, menv: map<string, Rows>, prior: seq<Rows>, values: seq<Value>, sem: Sem)
    requires i < |ops| && OpOk(i, ops) && j <= |ops[i].stmt.ctes| && SpaceOk(st, ops[i])
    requires var ctes := ops[i].stmt.ctes; CompileCtes(ctes[j..], Names(ctes), ops[i], i, ops, st) == Ok((bs, st'))
    requires st'.merged <= values
    requires Mirrors(env, menv, Names(ops[i].stmt.ctes)[..j], Ns(i)) && Before(menv, prior, i, j, ops)
    ensures var ctes := ops[i].stmt.ctes;
      && Mirrors(EvalCtes(env, ctes[j..], ops[i], prior, sem), EvalMerged(menv, bs, values, sem), Names(ctes), Ns(i))
      && Before(EvalMerged(menv, bs, values, sem), prior, i, |ctes|, ops)
      && SpaceOk(st', ops[i]) && Extends(st, st')
    decreases |ops[i].stmt.ctes| - j
  {
    var ctes := ops[i].stmt.ctes;
    var names := Names(ctes);
    if j == |ctes| {
      assert names[..j] == names;
    } else {
      assert NamesOk(i, ops);
      var body, st1 := CteParts(j, i, ops, st, bs, st');
      CteStep(j, i, ops, st, body, st1, env, menv, prior, values, sem);
      hide Mirrors, Before, OpOk, Resolve, ResolveM, SpaceOk, Extends, CompileCtes, RemapBody;
      var rows := sem(Resolve(ctes[j].body, env, ops[i], prior));
      assert ctes[j..][0] == ctes[j] && ctes[j..][1..] == ctes[j + 1..];
      assert StepM(menv, bs[0], values, sem) == menv[Ns(i) + ctes[j].name := rows];
      CtesMeaning(j + 1, i, ops, st1, bs[1..], st', env[ctes[j].name := rows], menv[Ns(i) + ctes[j].name := rows],
                  prior, values, sem);
    }
  }

  /** What the compiler makes of the `j`-th branch. */
  lemma CteParts(j: nat, i: nat, ops: seq<Op>, st: Space, bs: seq<MBranch>, st': Space) returns (body: seq<MTok>, st1: Space)
    requires i < |ops| && NamesOk(i, ops) && j < |ops[i].stmt.ctes| && SpaceOk(st, ops[i])
    requires var ctes := ops[i].stmt.ctes; CompileCtes(ctes[j..], Names(ctes), ops[i], i, ops, st) == Ok((bs, st'))
    ensures var ctes := ops[i].stmt.ctes; var names := Names(ctes);
      && RemapBody(RenameCtes(ctes[j].body, names, Ns(i)), ops[i], i, ops, st) == Ok((body, st1))
      && bs != [] && bs[0] == Query(Ns(i) + ctes[j].name, body)
      && CompileCtes(ctes[j + 1..], names, ops[i], i, ops, st1) == Ok((bs[1..], st'))
    ensures SpaceOk(st1, ops[i]) && st1.merged <= st'.merged
    ensures SpaceOk(st', ops[i]) && Extends(st, st')
  {
    var ctes := ops[i].stmt.ctes;
    var names := Names(ctes);
    CompileCtesSpace(j, i, ops, st, bs, st');
    assert ctes[j..][0] == ctes[j] && ctes[j..][1..] == ctes[j + 1..];
    var renamed := RenameCtes(ctes[j].body, names, Ns(i));
    body, st1 := RemapBody(renamed, ops[i], i, ops, st).value.0, RemapBody(renamed, ops[i], i, ops, st).value.1;
    RemapBodySpace(renamed, i, ops, st, body, st1);
    CompileCtesSpace(j + 1, i, ops, st1, bs[1..], st');
    CteName(j, i, ops);
  }

  /** The `j`-th branch yields its own rows, and the evaluation is ready for the next one. */
  lemma CteStep(j: nat, i: nat, ops: seq<Op>, st: Space, body: seq<MTok>, st': Space,
                env: map<string, Rows>, menv: map<string, Rows>, prior: seq<Rows>, values: seq<Value>, sem: Sem)
    requires i < |ops| && OpOk(i, ops) && j < |ops[i].stmt.ctes| && SpaceOk(st, ops[i]) && st'.merged <= values
    requires var op := ops[i];
      RemapBody(RenameCtes(op.stmt.ctes[j].body, Names(op.stmt.ctes), Ns(i)), op, i, ops, st) == Ok((body, st'))
    requires Mirrors(env, menv, Names(ops[i].stmt.ctes)[..j], Ns(i)) && Before(menv, prior, i, j, ops)
    ensures var c := ops[i].stmt.ctes[j]; var rows := sem(Resolve(c.body, env, ops[i], prior));
      && sem(ResolveM(body, menv, values)) == rows
      && Mirrors(env[c.name := rows], menv[Ns(i) + c.name := rows], Names(ops[i].stmt.ctes)[..j + 1], Ns(i))
      && Before(menv[Ns(i) + c.name := rows], prior, i, j + 1, ops)
  {
    var c := ops[i].stmt.ctes[j];
    assert PriorAgree(menv, prior, i) && KeysVisible(menv, i, j, ops);
    BodyHere(i, j, ops);
    hide OpOk, BodyOk, Mirrors, Before, RemapBody, SpaceOk, KeysVisible, PriorAgree, WordsAgree;
    OwnWords(c.body, j, i, ops, env, menv);
    BodyMeaning(c.body, Names(ops[i].stmt.ctes), i, ops, st, body, st', env, menv, prior, values);
    BindOwn(c.name, sem(Resolve(c.body, env, ops[i], prior)), j, i, ops, env, menv, prior);
  }

  predicate BranchUnder(b: MBranch, c: Branch, names: seq<string>, op: Op, i: nat, index: map<nat, nat>) {
    && b.Query? && b.name == RenameWord(c.name, names, Ns(i))
    && BodyUnder(RenameCtes(c.body, names, Ns(i)), b.body, op, index)
    && BackwardRefs(b.body, i)
  }

  /** All branches of one op are images of its bodies under ONE index map. */
  predicate CtesUnder(j: nat, op: Op, bs: seq<MBranch>, i: nat, index: map<nat, nat>)
    requires j <= |op.stmt.ctes|
  {
    var ctes := op.stmt.ctes;
    && |bs| == |ctes| - j
    && forall k :: 0 <= k < |bs| ==> BranchUnder(bs[k], ctes[j + k], Names(ctes), op, i, index)
  }

  lemma {:induction false} CompileCtesSpace(j: nat, i: nat, ops: seq<Op>, st: Space, bs: seq<MBranch>, st': Space)
    requires i < |ops| && j <= |ops[i].stmt.ctes| && SpaceOk(st, ops[i])
    requires var ctes := ops[i].stmt.ctes; CompileCtes(ctes[j..], Names(ctes), ops[i], i, ops, st) == Ok((bs, st'))
    ensures SpaceOk(st', ops[i]) && Extends(st, st') && CtesUnder(j, ops[i], bs, i, st'.index)
    decreases |ops[i].stmt.ctes| - j
  {
    var ctes := ops[i].stmt.ctes;
    if j < |ctes| {
      assert ctes[j..][0] == ctes[j] && ctes[j..][1..] == ctes[j + 1..];
      var renamed := RenameCtes(ctes[j].body, Names(ctes), Ns(i));
      var (body, st1) := RemapBody(renamed, ops[i], i, ops, st).value;
      RemapBodySpace(renamed, i, ops, st, body, st1);
      CompileCtesSpace(j + 1, i, ops, st1, bs[1..], st');
      assert BodyUnder(renamed, bs[0].body, ops[i], st'.index) by {
        forall k | 0 <= k < |renamed| ensures Under(renamed[k], body[k], ops[i], st'.index) {
          assert Under(renamed[k], body[k], ops[i], st1.index);
        }
      }
      forall k | 0 <= k < |bs| ensures BranchUnder(bs[k], ctes[j + k], Names(ctes), ops[i], i, st'.index) {
        if k > 0 {
          assert bs[k] == bs[1..][k - 1] && BranchUnder(bs[1..][k - 1], ctes[j + 1 + (k - 1)], Names(ctes), ops[i], i, st'.index);
        }
      }
    }
  }
}
