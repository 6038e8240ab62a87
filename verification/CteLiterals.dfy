/** The body scan over a literal whose value may hold quotes: exactly when it comes out at the literal's end. */
module CteLiterals {
  import opened Lexical
  import opened CteSplitter

  /** A value as a literal's content: quotes doubled. */
  function Escape(v: string): string {
    if v == "" then "" else Char(v[0]) + Escape(v[1..])
  }

  function Char(c: char): string {
    if c == '\'' then "''" else [c]
  }

  // ----- the scan, followed on the value

  /** Where the scan thinks it is. */
  datatype Mode = InString | Code | InName | InLine | InBlock

  /** What the scan does with the next characters of the value, at a depth of parentheses: it takes some and goes on, or it is
      known whether it comes out at the end. */
  datatype Move = Go(taken: nat, mode: Mode, depth: nat) | Over(inStep: bool)

  predicate Two(v: string, a: char, b: char) {
    |v| >= 2 && v[0] == a && v[1] == b
  }

  /** Behind a first quote the scan is out of the literal; a second quote right after another takes it back in. */
  function CodeMove(v: string, depth: nat): Move
    requires v != ""
  {
    if v[0] == '\'' then
      if |v| == 1 then Over(depth == 1) else if v[1] == '\'' then Go(2, InString, depth) else Go(1, Code, depth)
    else if v[0] == '(' then Go(1, Code, depth + 1)
    else if v[0] == ')' then if depth > 1 then Go(1, Code, depth - 1) else Over(false)
    else if v[0] == '"' then Go(1, InName, depth)
    else if Two(v, '-', '-') then Go(2, InLine, depth)
    else if Two(v, '/', '*') then Go(2, InBlock, depth)
    else Go(1, Code, depth)
  }

  function MoveOf(v: string, mode: Mode, depth: nat): (m: Move)
    ensures m.Go? ==> 1 <= m.taken <= |v| && (depth >= 1 ==> m.depth >= 1)
  {
    if v == "" then Over(mode == InString && depth == 1)
    else match mode
      case InString => Go(1, if v[0] == '\'' then Code else InString, depth)
      case Code => CodeMove(v, depth)
      case InName => Go(1, if v[0] == '"' then Code else InName, depth)
      case InLine => Go(1, if v[0] == '\n' then Code else InLine, depth)
      case InBlock => if Two(v, '*', '/') then Go(2, Code, depth) else Go(1, InBlock, depth)
  }

  /** The scan comes out at the end of the literal, at the depth where it went in. */
  predicate InStep(v: string, mode: Mode, depth: nat)
    decreases |v|
  {
    match MoveOf(v, mode, depth)
    case Over(b) => b
    case Go(taken, m, d) => InStep(v[taken..], m, d)
  }

  /** A value that the scan gets through. */
  predicate Fits(v: string) {
    InStep(v, InString, 1)
  }

  lemma {:induction false} NoQuoteFits(v: string)
    requires '\'' !in v
    ensures Fits(v)
  {
    if v != "" { NoQuoteFits(v[1..]); }
  }

  /** Some values with quotes get through: the last one takes the scan out at the end, or two in a row take it back in. */
  lemma {:induction false} QuotesThatFit()
    ensures Fits("''") && Fits("a'b'") && !Fits("a'b") && !Fits("a')")
  {
    assert "''"[1..] == "'" && "a'b'"[1..] == "'b'" && "'b'"[1..] == "b'" && "b'"[1..] == "'";
    assert InStep("'", Code, 1) && InStep("b'", Code, 1);
    assert "a'b"[1..] == "'b" && "'b"[1..] == "b" && "b"[1..] == "";
    assert !InStep("", Code, 1) && !InStep("b", Code, 1) && !InStep("'b", InString, 1);
    assert "a')"[1..] == "')" && "')"[1..] == ")";
    assert !InStep(")", Code, 1) && !InStep("')", InString, 1);
  }

  // ----- the text

  function FromQuote(t: string, p: nat): nat
    requires p <= |t|
  {
    var q := Find(t, '\'', p);
    if q == |t| then q else if q + 1 < |t| && t[q + 1] == '\'' then q + 2 else q + 1
  }

  function Behind(t: string, c: char, p: nat): nat
    requires p <= |t|
  {
    var q := Find(t, c, p);
    if q == |t| then q else q + 1
  }

  /** Where a scan that is at `p` in this mode is back in the code. */
  function Resume(t: string, p: nat, mode: Mode): (q: nat)
    requires p <= |t|
    ensures p <= q <= |t|
  {
    match mode
    case InString => FromQuote(t, p)
    case Code => p
    case InName => Behind(t, '"', p)
    case InLine => Behind(t, '\n', p)
    case InBlock => BlockEnd(t, p)
  }

  function Ends(t: string, p: nat, mode: Mode, depth: int): nat
    requires p <= |t|
  {
    BodyEnd(t, Resume(t, p, mode), depth)
  }

  /** The rest of a value and the closing quote stand at `p`. */
  predicate Stands(t: string, p: nat, v: string) {
    At(t, p, Escape(v) + "'")
  }

  /** The first character of the value, and what follows it. */
  lemma {:induction false} Peek(t: string, p: nat, v: string)
    requires Stands(t, p, v) && v != ""
    ensures var w := |Char(v[0])|;
      p + w < |t| && t[p] == v[0] && (v[0] == '\'' ==> t[p + 1] == '\'') && Stands(t, p + w, v[1..])
      && t[p + w] == (if |v| > 1 then v[1] else '\'')
  {
    var c, rest := Char(v[0]), Escape(v[1..]) + "'";
    assert Escape(v) + "'" == c + rest;
    AtSplit(t, p, c, rest);
    AtChar(t, p, c, 0);
    if v[0] == '\'' { AtChar(t, p, c, 1); }
    AtChar(t, p + |c|, rest, 0);
    if |v| > 1 { assert Escape(v[1..]) == Char(v[1]) + Escape(v[1..][1..]); }
  }

  lemma {:induction false} PeekEnd(t: string, p: nat)
    requires Stands(t, p, "")
    ensures p < |t| && t[p] == '\''
  {
    assert Escape("") + "'" == "'";
    AtChar(t, p, "'", 0);
  }

  /** Where the closing quote stands. */
  function Close(p: nat, v: string): nat {
    p + |Escape(v)|
  }

  lemma {:induction false} CloseStep(p: nat, v: string)
    requires v != ""
    ensures Close(p, v) == Close(p + |Char(v[0])|, v[1..])
  {
  }

  /** Where the value stands when `taken` characters are gone. */
  function Further(p: nat, v: string, taken: nat): nat
    requires taken <= |v|
    decreases taken
  {
    if taken == 0 then p else Further(p + |Char(v[0])|, v[1..], taken - 1)
  }

  lemma {:induction false} FurtherStands(t: string, p: nat, v: string, taken: nat)
    requires Stands(t, p, v) && taken <= |v|
    ensures Stands(t, Further(p, v, taken), v[taken..]) && Close(Further(p, v, taken), v[taken..]) == Close(p, v)
    ensures Further(p, v, taken) <= |t|
    decreases taken
  {
    if taken == 0 {
      assert v[0..] == v;
    } else {
      Peek(t, p, v);
      CloseStep(p, v);
      assert v[1..][taken - 1..] == v[taken..];
      FurtherStands(t, p + |Char(v[0])|, v[1..], taken - 1);
    }
  }

  // ----- one move

  lemma {:induction false} BodyEndStep(t: string, p: nat, depth: int)
    requires p < |t|
    ensures BodyEnd(t, p, depth) ==
      if t[p] == '(' then BodyEnd(t, p + 1, depth + 1)
      else if t[p] == ')' then if depth == 1 then p + 1 else BodyEnd(t, p + 1, depth - 1)
      else BodyEnd(t, BodyStep(t, p), depth)
    ensures BodyEnd(t, p, depth) > p
  {
  }

  lemma {:induction false} SkipChar(t: string, p: nat, mode: Mode)
    requires p < |t| && mode != Code
    requires match mode
      case InString => t[p] != '\''
      case InName => t[p] != '"'
      case InLine => t[p] != '\n'
      case InBlock => !EndsAt(t, p)
      case Code => false
    ensures Resume(t, p, mode) == Resume(t, p + 1, mode)
  {
  }

  /** A character that the mode passes over, doubled or not. */
  lemma {:induction false} SkipValue(t: string, p: nat, v: string, mode: Mode)
    requires Stands(t, p, v) && v != "" && mode != Code
    requires match mode
      case InString => v[0] != '\''
      case InName => v[0] != '"'
      case InLine => v[0] != '\n'
      case InBlock => !Two(v, '*', '/')
      case Code => false
    ensures p + |Char(v[0])| <= |t| && Resume(t, p, mode) == Resume(t, p + |Char(v[0])|, mode)
  {
    Peek(t, p, v);
    hide Resume, Stands, Escape;
    SkipChar(t, p, mode);
    if v[0] == '\'' { SkipChar(t, p + 1, mode); }
  }

  lemma {:induction false} LeaveMode(t: string, p: nat, v: string, mode: Mode)
    requires Stands(t, p, v) && v != "" && mode != Code
    requires match mode
      case InString => v[0] == '\''
      case InName => v[0] == '"'
      case InLine => v[0] == '\n'
      case InBlock => Two(v, '*', '/')
      case Code => false
    ensures Resume(t, p, mode) == Further(p, v, if mode == InBlock then 2 else 1)
  {
    Peek(t, p, v);
    if mode == InBlock {
      Peek(t, p + 1, v[1..]);
      assert v[1..][0] == v[1];
      assert Further(p, v, 2) == Further(p + 1, v[1..], 1) == p + 2;
    }
  }

  lemma {:induction false} QuoteMove(t: string, p: nat, v: string, depth: int)
    requires Stands(t, p, v) && |v| > 1 && v[0] == '\''
    ensures Further(p, v, 1) <= |t| && Further(p, v, 2) <= |t|
    ensures v[1] != '\'' ==> BodyEnd(t, p, depth) == Ends(t, Further(p, v, 1), Code, depth)
    ensures v[1] == '\'' ==> BodyEnd(t, p, depth) == Ends(t, Further(p, v, 2), InString, depth)
  {
    Peek(t, p, v);
    Peek(t, p + 2, v[1..]);
    assert v[1..][0] == v[1];
    assert Further(p, v, 1) == p + 2;
    assert Further(p, v, 2) == Further(p + 2, v[1..], 1) == p + 2 + |Char(v[1])|;
    BodyEndStep(t, p, depth);
    assert Find(t, '\'', p + 1) == p + 1;
    if v[1] == '\'' { BodyEndStep(t, p + 3, depth); }
    hide BodyEnd, Stands, Escape;
  }

  lemma {:induction false} PlainMove(t: string, p: nat, v: string, depth: int)
    requires Stands(t, p, v) && v != "" && v[0] !in {'\'', '(', ')'} && !Two(v, '-', '-') && !Two(v, '/', '*')
    ensures Further(p, v, 1) == p + 1 <= |t|
    ensures BodyEnd(t, p, depth) == Ends(t, p + 1, if v[0] == '"' then InName else Code, depth)
  {
    Peek(t, p, v);
    BodyEndStep(t, p, depth);
    hide BodyEnd, Stands, Escape;
  }

  lemma {:induction false} CommentMove(t: string, p: nat, v: string, depth: int)
    requires Stands(t, p, v) && (Two(v, '-', '-') || Two(v, '/', '*'))
    ensures Further(p, v, 2) == p + 2 <= |t|
    ensures BodyEnd(t, p, depth) == Ends(t, p + 2, if v[0] == '-' then InLine else InBlock, depth)
  {
    Peek(t, p, v);
    Peek(t, p + 1, v[1..]);
    assert v[1..][0] == v[1];
    assert Further(p, v, 2) == Further(p + 1, v[1..], 1) == p + 2;
    BodyEndStep(t, p, depth);
    hide BodyEnd, Stands, Escape;
    if v[0] == '-' { assert Find(t, '\n', p) == Find(t, '\n', p + 1) == Find(t, '\n', p + 2); }
  }

  /** A move on the value is a move in the text. `base` is how much deeper the text is. */
  lemma {:induction false} MoveText(t: string, p: nat, v: string, mode: Mode, depth: nat, base: nat)
    requires Stands(t, p, v) && p <= |t| && MoveOf(v, mode, depth).Go? && depth >= 1
    ensures var m := MoveOf(v, mode, depth); var q := Further(p, v, m.taken);
      q <= |t| && Ends(t, p, mode, base + depth) == Ends(t, q, m.mode, base + m.depth)
  {
    var m := MoveOf(v, mode, depth);
    FurtherStands(t, p, v, m.taken);
    hide Stands, Escape, BodyEnd;
    if mode == Code {
      CodeText(t, p, v, depth, base);
    } else if m.mode == mode {
      SkipValue(t, p, v, mode);
      assert Further(p, v, 1) == p + |Char(v[0])|;
    } else {
      LeaveMode(t, p, v, mode);
    }
  }

  /** The move the code makes at `p` is the one `CodeMove` says. */
  ghost predicate Follows(t: string, p: nat, v: string, depth: nat, base: nat)
    requires v != "" && p <= |t|
  {
    var m := CodeMove(v, depth);
    m.Go? ==> var q := Further(p, v, m.taken);
      q <= |t| && BodyEnd(t, p, base + depth) == Ends(t, q, m.mode, base + m.depth)
  }

  lemma {:induction false} CodeText(t: string, p: nat, v: string, depth: nat, base: nat)
    requires Stands(t, p, v) && p <= |t| && v != "" && depth >= 1
    ensures Follows(t, p, v, depth, base)
  {
    hide Follows, Stands, Two;
    if v[0] == '\'' { QuoteText(t, p, v, depth, base); }
    else if v[0] == '(' || v[0] == ')' { ParenText(t, p, v, depth, base); }
    else { PlainText(t, p, v, depth, base); }
  }

  lemma {:induction false} QuoteText(t: string, p: nat, v: string, depth: nat, base: nat)
    requires Stands(t, p, v) && p <= |t| && v != "" && v[0] == '\''
    ensures Follows(t, p, v, depth, base)
  {
    hide Stands, BodyEnd, Resume, Further;
    if |v| > 1 { QuoteMove(t, p, v, base + depth); }
  }

  lemma {:induction false} ParenText(t: string, p: nat, v: string, depth: nat, base: nat)
    requires Stands(t, p, v) && p <= |t| && v != "" && (v[0] == '(' || v[0] == ')') && depth >= 1
    ensures Follows(t, p, v, depth, base)
  {
    ParenMove(t, p, v, base + depth);
    var m := CodeMove(v, depth);
    if m.Go? { InCode(t, Further(p, v, 1), base + m.depth); }
    hide Stands, BodyEnd, Ends, Further;
  }

  lemma {:induction false} PlainText(t: string, p: nat, v: string, depth: nat, base: nat)
    requires Stands(t, p, v) && p <= |t| && v != "" && v[0] !in {'\'', '(', ')'}
    ensures Follows(t, p, v, depth, base)
  {
    hide Stands, BodyEnd, Ends, Further, Two;
    if Two(v, '-', '-') || Two(v, '/', '*') {
      assert v[0] == (if Two(v, '-', '-') then '-' else '/') by { TwoStarts(v); }
      CommentMove(t, p, v, base + depth);
    } else {
      PlainMove(t, p, v, base + depth);
    }
  }

  lemma {:induction false} TwoStarts(v: string)
    ensures Two(v, '-', '-') ==> v[0] == '-'
    ensures Two(v, '/', '*') ==> v[0] == '/'
  {
  }

  lemma {:induction false} InCode(t: string, p: nat, depth: int)
    requires p <= |t|
    ensures Ends(t, p, Code, depth) == BodyEnd(t, p, depth)
  {
  }

  lemma {:induction false} ParenMove(t: string, p: nat, v: string, depth: int)
    requires Stands(t, p, v) && v != "" && (v[0] == '(' || v[0] == ')')
    ensures Further(p, v, 1) == p + 1 <= |t|
    ensures v[0] == '(' ==> BodyEnd(t, p, depth) == BodyEnd(t, p + 1, depth + 1)
    ensures v[0] == ')' && depth != 1 ==> BodyEnd(t, p, depth) == BodyEnd(t, p + 1, depth - 1)
  {
    Peek(t, p, v);
    BodyEndStep(t, p, depth);
    hide Stands, Escape, BodyEnd;
  }

  // ----- the end

  /** The literal is over and its value came out right. */
  lemma {:induction false} OverText(t: string, p: nat, v: string, mode: Mode, depth: nat, base: nat)
    requires Stands(t, p, v) && p <= |t| && MoveOf(v, mode, depth) == Over(true)
    requires var e := Close(p, v) + 1; e < |t| ==> t[e] != '\''
    ensures Close(p, v) + 1 <= |t| && Ends(t, p, mode, base + depth) == BodyEnd(t, Close(p, v) + 1, base + 1)
  {
    if v == "" {
      PeekEnd(t, p);
    } else {
      Peek(t, p, v);
      assert v == "'" && v[1..] == "";
      assert Escape(v) == "''" + Escape("");
      PeekEnd(t, p + 2);
      BodyEndStep(t, p, base + depth);
      assert Find(t, '\'', p + 1) == p + 1;
      hide BodyEnd;
    }
  }

  /** The parenthesis behind the literal does not close the body. */
  lemma {:induction false} OverElsewhere(t: string, p: nat, v: string, mode: Mode, depth: nat)
    requires Stands(t, p, v) && p <= |t| && MoveOf(v, mode, depth) == Over(false) && depth >= 1
    requires var e := Close(p, v) + 1; e + 1 < |t| && t[e] == ')'
    ensures Ends(t, p, mode, depth) != Close(p, v) + 2
  {
    var e := Close(p, v) + 1;
    if v == "" {
      PeekEnd(t, p);
      EndElsewhere(t, p, mode, depth);
    } else {
      Peek(t, p, v);
      BodyEndStep(t, p, depth);
      if v[0] == '\'' {
        assert v == "'" && v[1..] == "";
        assert Escape(v) == "''" + Escape("");
        PeekEnd(t, p + 2);
        assert Find(t, '\'', p + 1) == p + 1;
        BodyEndStep(t, e, depth);
        BodyEndStep(t, e + 1, depth - 1);
        hide BodyEnd;
      }
    }
  }

  lemma {:induction false} EndElsewhere(t: string, c: nat, mode: Mode, depth: nat)
    requires c + 2 < |t| && t[c] == '\'' && t[c + 1] == ')' && depth >= 1 && !(mode == InString && depth == 1)
    ensures Ends(t, c, mode, depth) != c + 2
  {
    match mode {
      case InString =>
        BodyEndStep(t, c + 1, depth);
        BodyEndStep(t, c + 2, depth - 1);
      case Code => BodyEndStep(t, c, depth);
      case InName => assert Find(t, '"', c) == Find(t, '"', c + 1) == Find(t, '"', c + 2);
      case InLine => assert Find(t, '\n', c) == Find(t, '\n', c + 1) == Find(t, '\n', c + 2);
      case InBlock => assert BlockEnd(t, c) == BlockEnd(t, c + 1) == BlockEnd(t, c + 2);
    }
    hide BodyEnd;
    var q := Resume(t, c, mode);
    if q < |t| { BodyEndStep(t, q, depth); }
  }

  // ----- the whole literal

  lemma {:induction false} Through(t: string, p: nat, v: string, mode: Mode, depth: nat, base: nat)
    requires Stands(t, p, v) && p <= |t| && InStep(v, mode, depth) && depth >= 1
    requires var e := Close(p, v) + 1; e < |t| ==> t[e] != '\''
    ensures Close(p, v) + 1 <= |t| && Ends(t, p, mode, base + depth) == BodyEnd(t, Close(p, v) + 1, base + 1)
    decreases |v|
  {
    hide Stands, Ends, BodyEnd, Close, MoveOf;
    match MoveOf(v, mode, depth) {
      case Over(_) => OverText(t, p, v, mode, depth, base);
      case Go(taken, m, d) =>
        MoveText(t, p, v, mode, depth, base);
        FurtherStands(t, p, v, taken);
        Through(t, Further(p, v, taken), v[taken..], m, d, base);
    }
  }

  lemma {:induction false} Astray(t: string, p: nat, v: string, mode: Mode, depth: nat)
    requires Stands(t, p, v) && p <= |t| && !InStep(v, mode, depth) && depth >= 1
    requires var e := Close(p, v) + 1; e + 1 < |t| && t[e] == ')'
    ensures Ends(t, p, mode, depth) != Close(p, v) + 2
    decreases |v|
  {
    hide Stands, Ends, BodyEnd, Close, MoveOf;
    match MoveOf(v, mode, depth) {
      case Over(_) => OverElsewhere(t, p, v, mode, depth);
      case Go(taken, m, d) =>
        MoveText(t, p, v, mode, depth, 0);
        FurtherStands(t, p, v, taken);
        Astray(t, Further(p, v, taken), v[taken..], m, d);
    }
  }

  /** The text of a literal. */
  function Quoted(v: string): string {
    "'" + (Escape(v) + "'")
  }

  lemma {:induction false} QuotedStands(t: string, p: nat, v: string)
    requires At(t, p, Quoted(v))
    ensures p < |t| && t[p] == '\'' && Stands(t, p + 1, v) && Close(p + 1, v) + 1 == p + |Quoted(v)| <= |t|
    ensures forall depth :: BodyEnd(t, p, depth) == Ends(t, p + 1, InString, depth)
  {
    AtSplit(t, p, "'", Escape(v) + "'");
    AtChar(t, p, "'", 0);
    forall depth: int ensures BodyEnd(t, p, depth) == Ends(t, p + 1, InString, depth) { BodyEndStep(t, p, depth); }
  }

  /** At any depth the scan passes a literal that fits and touches no other quote. */
  lemma {:induction false} LiteralPassed(t: string, p: nat, v: string, depth: nat)
    requires At(t, p, Quoted(v)) && Fits(v) && depth >= 1
    requires var e := p + |Quoted(v)|; e < |t| ==> t[e] != '\''
    ensures p + |Quoted(v)| <= |t| && BodyEnd(t, p, depth) == BodyEnd(t, p + |Quoted(v)|, depth)
  {
    QuotedStands(t, p, v);
    hide BodyEnd, Ends, Stands, Close;
    Through(t, p + 1, v, InString, 1, depth - 1);
  }

  /** A body that is one literal ends at its parenthesis exactly when the value fits. */
  lemma {:induction false} LiteralBodyExact(t: string, p: nat, v: string)
    requires At(t, p, Quoted(v)) && p + |Quoted(v)| + 1 < |t| && t[p + |Quoted(v)|] == ')'
    ensures BodyEnd(t, p, 1) == p + |Quoted(v)| + 1 <==> Fits(v)
  {
    QuotedStands(t, p, v);
    hide Ends, Stands, Close;
    if Fits(v) {
      LiteralPassed(t, p, v, 1);
      BodyEndStep(t, p + |Quoted(v)|, 1);
    } else {
      hide BodyEnd;
      Astray(t, p + 1, v, InString, 1);
    }
  }
}
