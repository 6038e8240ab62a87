/** The splitter inverts the printer of `WITH` statements. */
module CteRoundTrip {
  import opened Outcomes
  import opened Lexical
  import opened CteSplitter
  import opened CteLiterals

  // ----- printed statements

  /** A parenthesis-balanced branch body: characters, parenthesized bodies, single-quoted literals,
      quoted names, line and block comments. A literal is given by its value. */
  datatype Body =
    | End
    | Ch(c: char, rest: Body)
    | Paren(inner: Body, rest: Body)
    | Literal(content: string, rest: Body)
    | Name(content: string, rest: Body)
    | Line(content: string, rest: Body)
    | Block(content: string, rest: Body)

  function Print(b: Body): string {
    match b
    case End => ""
    case Ch(c, rest) => [c] + Print(rest)
    case Paren(inner, rest) => "(" + (Print(inner) + (")" + Print(rest)))
    case Literal(v, rest) => Quoted(v) + Print(rest)
    case Name(s, rest) => "\"" + (s + ("\"" + Print(rest)))
    case Line(s, rest) => "--" + (s + ("\n" + Print(rest)))
    case Block(s, rest) => "/*" + (s + ("*/" + Print(rest)))
  }

  /** The first character of the printed body followed by `next`. */
  function First(b: Body, next: char): char {
    match b
    case End => next
    case Ch(c, _) => c
    case Paren(_, _) => '('
    case Literal(_, _) => '\''
    case Name(_, _) => '"'
    case Line(_, _) => '-'
    case Block(_, _) => '/'
  }

  /** No character opens something else together with what follows it; no literal touches another
      quote, and the scan gets through its value. */
  predicate WellFormed(b: Body, next: char) {
    match b
    case End => true
    case Ch(c, rest) =>
      && c !in "'\"()" && !(c == '-' && First(rest, next) == '-') && !(c == '/' && First(rest, next) == '*')
      && WellFormed(rest, next)
    case Paren(inner, rest) => WellFormed(inner, ')') && WellFormed(rest, next)
    case Literal(v, rest) => Fits(v) && First(rest, next) != '\'' && WellFormed(rest, next)
    case Name(s, rest) => '"' !in s && WellFormed(rest, next)
    case Line(s, rest) => '\n' !in s && WellFormed(rest, next)
    case Block(s, rest) => NoneEnds(s) && WellFormed(rest, next)
  }

  predicate NoneEnds(s: string) { NoneEnd(s, 0, |s|) }

  /** White space and comments between the parts of a statement. */
  datatype Gap = NoGap | Ws(c: char, rest: Gap) | LineGap(content: string, rest: Gap) | BlockGap(content: string, rest: Gap)

  function PrintGap(g: Gap): string {
    match g
    case NoGap => ""
    case Ws(c, rest) => [c] + PrintGap(rest)
    case LineGap(s, rest) => "--" + (s + ("\n" + PrintGap(rest)))
    case BlockGap(s, rest) => "/*" + (s + ("*/" + PrintGap(rest)))
  }

  predicate WellFormedGap(g: Gap) {
    match g
    case NoGap => true
    case Ws(c, rest) => PlainWs(c) && WellFormedGap(rest)
    case LineGap(s, rest) => '\n' !in s && WellFormedGap(rest)
    case BlockGap(s, rest) => NoneEnds(s) && WellFormedGap(rest)
  }

  datatype Materialize = Default | Yes | No

  function PrintModifier(m: Materialize): string {
    match m
    case Default => ""
    case Yes => "MATERIALIZED "
    case No => "NOT MATERIALIZED "
  }

  datatype Branch = Branch(before: Gap, name: string, mod: Materialize, body: Body, after: Gap)

  predicate IsName(s: string) { s != "" && IsWordStart(s[0]) && forall k :: 0 <= k < |s| ==> IsWordChar(s[k]) }

  predicate WellFormedBranch(b: Branch) {
    WellFormedGap(b.before) && IsName(b.name) && WellFormed(b.body, ')') && WellFormedGap(b.after)
  }

  function PrintHead(b: Branch): string { b.name + (" AS " + (PrintModifier(b.mod) + "(")) }
  function PrintSql(b: Branch): string { PrintHead(b) + (Print(b.body) + ")") }
  function PrintBranch(b: Branch): string { PrintGap(b.before) + (PrintSql(b) + PrintGap(b.after)) }

  function PrintBranches(bs: seq<Branch>): string
    requires bs != []
  {
    if |bs| == 1 then PrintBranch(bs[0]) else PrintBranch(bs[0]) + ("," + PrintBranches(bs[1..]))
  }

  /** Statements without branches are printed without `WITH`. */
  function PrintStatement(lead: string, bs: seq<Branch>, tail: string): string {
    if bs == [] then tail else lead + ("WITH " + (PrintBranches(bs) + tail))
  }

  function Ctes(bs: seq<Branch>): seq<Cte> {
    seq(|bs|, i requires 0 <= i < |bs| => Cte(bs[i].name, PrintSql(bs[i])))
  }

  // ----- what a scan needs to know about printed text

  function Len(b: Body): nat {
    match b
    case End => 0
    case Ch(_, rest) => 1 + Len(rest)
    case Paren(inner, rest) => 2 + Len(inner) + Len(rest)
    case Literal(v, rest) => |Quoted(v)| + Len(rest)
    case Name(s, rest) => 2 + |s| + Len(rest)
    case Line(s, rest) => 3 + |s| + Len(rest)
    case Block(s, rest) => 4 + |s| + Len(rest)
  }

  predicate Delimited(t: string, p: nat, q: nat, c: char) {
    p < q < |t| && t[p] == c && t[q] == c && Free(t, p + 1, q, c)
  }

  predicate IsLine(t: string, p: nat, q: nat) {
    p + 2 <= q < |t| && Dashes(t, p) && t[q] == '\n' && Free(t, p + 2, q, '\n')
  }

  predicate IsBlock(t: string, p: nat, q: nat) {
    p + 2 <= q && Opens(t, p) && EndsAt(t, q) && NoneEnd(t, p + 2, q)
  }

  predicate IsPlain(t: string, p: nat) {
    p < |t| && t[p] != '\'' && t[p] != '"' && t[p] != '(' && t[p] != ')' && !Dashes(t, p) && !Opens(t, p)
  }

  predicate IsLiteral(t: string, p: nat, v: string) {
    At(t, p, Quoted(v)) && Fits(v) && (p + |Quoted(v)| < |t| ==> t[p + |Quoted(v)|] != '\'')
  }

  /** The text at `p` lexes as `b`. */
  predicate Reads(t: string, p: nat, b: Body)
    decreases b
  {
    match b
    case End => true
    case Ch(_, rest) => IsPlain(t, p) && Reads(t, p + 1, rest)
    case Paren(inner, rest) =>
      var q := p + 1 + Len(inner);
      q < |t| && t[p] == '(' && t[q] == ')' && Reads(t, p + 1, inner) && Reads(t, q + 1, rest)
    case Literal(v, rest) => IsLiteral(t, p, v) && Reads(t, p + |Quoted(v)|, rest)
    case Name(s, rest) => Delimited(t, p, p + 1 + |s|, '"') && Reads(t, p + 2 + |s|, rest)
    case Line(s, rest) => IsLine(t, p, p + 2 + |s|) && Reads(t, p + 3 + |s|, rest)
    case Block(s, rest) => IsBlock(t, p, p + 2 + |s|) && Reads(t, p + 4 + |s|, rest)
  }

  function GapLen(g: Gap): nat {
    match g
    case NoGap => 0
    case Ws(_, rest) => 1 + GapLen(rest)
    case LineGap(s, rest) => 3 + |s| + GapLen(rest)
    case BlockGap(s, rest) => 4 + |s| + GapLen(rest)
  }

  predicate ReadsGap(t: string, p: nat, g: Gap)
    decreases g
  {
    match g
    case NoGap => true
    case Ws(c, rest) => p < |t| && PlainWs(t[p]) && ReadsGap(t, p + 1, rest)
    case LineGap(s, rest) => IsLine(t, p, p + 2 + |s|) && ReadsGap(t, p + 3 + |s|, rest)
    case BlockGap(s, rest) => IsBlock(t, p, p + 2 + |s|) && ReadsGap(t, p + 4 + |s|, rest)
  }

  // ----- printed text lexes as what was printed

  lemma {:induction false} PrintLen(b: Body)
    ensures |Print(b)| == Len(b)
  {
    match b {
      case End =>
      case Paren(inner, rest) => PrintLen(inner); PrintLen(rest);
      case _ => PrintLen(b.rest);
    }
  }

  lemma {:induction false} PrintGapLen(g: Gap)
    ensures |PrintGap(g)| == GapLen(g)
  {
    if !g.NoGap? { PrintGapLen(g.rest); }
  }

  lemma {:induction false} FirstIs(t: string, p: nat, b: Body)
    requires At(t, p, Print(b)) && p + |Print(b)| < |t|
    ensures t[p] == First(b, t[p + |Print(b)|])
  {
    if b != End { AtChar(t, p, Print(b), 0); }
  }

  /** A piece `open + s + close + rest` at `p`. */
  lemma {:induction false} Pieces(t: string, p: nat, open: string, s: string, close: string, rest: string)
    requires At(t, p, open + (s + (close + rest)))
    ensures At(t, p, open) && At(t, p + |open|, s) && At(t, p + |open| + |s|, close)
    ensures At(t, p + |open| + |s| + |close|, rest)
  {
    AtSplit(t, p, open, s + (close + rest));
    AtSplit(t, p + |open|, s, close + rest);
    AtSplit(t, p + |open| + |s|, close, rest);
  }

  lemma {:induction false} DelimitedPrinted(t: string, p: nat, s: string, c: char, rest: string)
    requires At(t, p, [c] + (s + ([c] + rest))) && c !in s
    ensures Delimited(t, p, p + 1 + |s|, c) && At(t, p + 2 + |s|, rest)
  {
    Pieces(t, p, [c], s, [c], rest);
    AtChar(t, p, [c], 0);
    AtChar(t, p + 1 + |s|, [c], 0);
    AtFree(t, p + 1, s, c);
  }

  lemma {:induction false} LinePrinted(t: string, p: nat, s: string, rest: string)
    requires At(t, p, "--" + (s + ("\n" + rest))) && '\n' !in s
    ensures IsLine(t, p, p + 2 + |s|) && At(t, p + 3 + |s|, rest)
  {
    Pieces(t, p, "--", s, "\n", rest);
    AtChar(t, p, "--", 0);
    AtChar(t, p, "--", 1);
    AtChar(t, p + 2 + |s|, "\n", 0);
    AtFree(t, p + 2, s, '\n');
  }

  lemma {:induction false} BlockPrinted(t: string, p: nat, s: string, rest: string)
    requires At(t, p, "/*" + (s + ("*/" + rest))) && NoneEnds(s)
    ensures IsBlock(t, p, p + 2 + |s|) && At(t, p + 4 + |s|, rest)
  {
    Pieces(t, p, "/*", s, "*/", rest);
    AtChar(t, p, "/*", 0);
    AtChar(t, p, "/*", 1);
    AtChar(t, p + 2 + |s|, "*/", 0);
    AtChar(t, p + 2 + |s|, "*/", 1);
    forall k: nat | p + 2 <= k < p + 2 + |s| ensures !EndsAt(t, k) {
      AtChar(t, p + 2, s, k - p - 2);
      if k + 1 < p + 2 + |s| {
        AtChar(t, p + 2, s, k - p - 1);
        assert !EndsAt(s, k - p - 2);
      }
    }
  }

  lemma {:induction false} CharPrinted(t: string, p: nat, c: char, b: Body)
    requires At(t, p, [c] + Print(b)) && p + 1 + |Print(b)| < |t|
    requires WellFormed(Ch(c, b), t[p + 1 + |Print(b)|])
    ensures IsPlain(t, p) && At(t, p + 1, Print(b))
  {
    AtSplit(t, p, [c], Print(b));
    AtChar(t, p, [c], 0);
    FirstIs(t, p + 1, b);
    assert '\'' in "'\"()" && '"' in "'\"()" && '(' in "'\"()" && ')' in "'\"()";
  }

  /** The first piece of a printed body, and the body behind it. */
  lemma {:induction false} StepPrinted(t: string, p: nat, b: Body)
    requires At(t, p, Print(b)) && p + |Print(b)| < |t| && WellFormed(b, t[p + |Print(b)|])
    requires b.Literal? || b.Name? || b.Line? || b.Block?
    ensures match b
      case Literal(v, rest) => IsLiteral(t, p, v) && At(t, p + |Quoted(v)|, Print(rest))
      case Name(s, rest) => Delimited(t, p, p + 1 + |s|, '"') && At(t, p + 2 + |s|, Print(rest))
      case Line(s, rest) => IsLine(t, p, p + 2 + |s|) && At(t, p + 3 + |s|, Print(rest))
      case Block(s, rest) => IsBlock(t, p, p + 2 + |s|) && At(t, p + 4 + |s|, Print(rest))
      case _ => true
  {
    hide At, Delimited, IsLine, IsBlock;
    match b {
      case Literal(v, rest) =>
        AtSplit(t, p, Quoted(v), Print(rest));
        FirstIs(t, p + |Quoted(v)|, rest);
      case Name(s, rest) => DelimitedPrinted(t, p, s, '"', Print(rest));
      case Line(s, rest) => LinePrinted(t, p, s, Print(rest));
      case Block(s, rest) => BlockPrinted(t, p, s, Print(rest));
    }
  }

  lemma {:induction false} PrintReads(t: string, p: nat, b: Body)
    requires At(t, p, Print(b)) && p + |Print(b)| < |t| && WellFormed(b, t[p + |Print(b)|])
    ensures Reads(t, p, b)
    decreases b
  {
    match b {
      case End =>
      case Ch(c, rest) =>
        CharPrinted(t, p, c, rest);
        PrintReads(t, p + 1, rest);
      case Paren(inner, rest) => ParenReads(t, p, inner, rest);
      case Literal(v, rest) =>
        StepPrinted(t, p, b);
        PrintReads(t, p + |Quoted(v)|, rest);
      case Name(s, rest) =>
        StepPrinted(t, p, b);
        PrintReads(t, p + 2 + |s|, rest);
      case Line(s, rest) =>
        StepPrinted(t, p, b);
        PrintReads(t, p + 3 + |s|, rest);
      case Block(s, rest) =>
        StepPrinted(t, p, b);
        PrintReads(t, p + 4 + |s|, rest);
    }
  }

  lemma {:induction false} ParenReads(t: string, p: nat, inner: Body, rest: Body)
    requires var b := Paren(inner, rest);
      At(t, p, Print(b)) && p + |Print(b)| < |t| && WellFormed(b, t[p + |Print(b)|])
    ensures Reads(t, p, Paren(inner, rest))
    decreases Paren(inner, rest), 0
  {
    var n := |Print(inner)|;
    Pieces(t, p, "(", Print(inner), ")", Print(rest));
    AtChar(t, p, "(", 0);
    AtChar(t, p + 1 + n, ")", 0);
    PrintLen(inner);
    PrintReads(t, p + 1, inner);
    PrintReads(t, p + 2 + n, rest);
  }

  lemma {:induction false} PrintReadsGap(t: string, p: nat, g: Gap)
    requires At(t, p, PrintGap(g)) && WellFormedGap(g)
    ensures ReadsGap(t, p, g)
    decreases g
  {
    match g {
      case NoGap =>
      case Ws(c, rest) =>
        AtSplit(t, p, [c], PrintGap(rest));
        AtChar(t, p, [c], 0);
        PrintReadsGap(t, p + 1, rest);
      case LineGap(s, rest) =>
        LinePrinted(t, p, s, PrintGap(rest));
        PrintReadsGap(t, p + 3 + |s|, rest);
      case BlockGap(s, rest) =>
        BlockPrinted(t, p, s, PrintGap(rest));
        PrintReadsGap(t, p + 4 + |s|, rest);
    }
  }

  // ----- the scans

  lemma {:induction false} LineSkipped(t: string, p: nat, q: nat)
    requires IsLine(t, p, q)
    ensures Find(t, '\n', p) == q
  {
    FindIs(t, '\n', p + 2, q);
    assert Find(t, '\n', p + 1) == Find(t, '\n', p + 2);
  }

  lemma {:induction false} ScanReads(t: string, p: nat, b: Body, depth: int)
    requires p + Len(b) <= |t| && Reads(t, p, b) && depth >= 1
    ensures BodyEnd(t, p, depth) == BodyEnd(t, p + Len(b), depth)
    decreases b, 1
  {
    hide BodyStep, Delimited, IsLine, IsBlock, IsPlain;
    match b {
      case End =>
      case Paren(inner, rest) => ScanParen(t, p, inner, rest, depth);
      case Ch(_, rest) =>
        PlainStep(t, p);
        ScanReads(t, p + 1, rest, depth);
      case Literal(v, rest) =>
        LiteralPassed(t, p, v, depth);
        ScanReads(t, p + |Quoted(v)|, rest, depth);
      case Name(s, rest) =>
        NameStep(t, p, p + 1 + |s|);
        ScanReads(t, p + 2 + |s|, rest, depth);
      case Line(s, rest) =>
        LineStep(t, p, p + 2 + |s|);
        ScanReads(t, p + 3 + |s|, rest, depth);
      case Block(s, rest) =>
        BlockStep(t, p, p + 2 + |s|);
        ScanReads(t, p + 4 + |s|, rest, depth);
    }
  }

  lemma {:induction false} ScanParen(t: string, p: nat, inner: Body, rest: Body, depth: int)
    requires var b := Paren(inner, rest); p + Len(b) <= |t| && Reads(t, p, b) && depth >= 1
    ensures BodyEnd(t, p, depth) == BodyEnd(t, p + Len(Paren(inner, rest)), depth)
    decreases Paren(inner, rest), 0
  {
    hide *;
    var q := p + 1 + Len(inner);
    ParenthesesRead(t, p, inner, rest);
    Parentheses(t, p, depth);
    Parentheses(t, q, depth + 1);
    ScanReads(t, p + 1, inner, depth + 1);
    ScanReads(t, q + 1, rest, depth);
  }

  lemma {:induction false} ParenthesesRead(t: string, p: nat, inner: Body, rest: Body)
    requires var b := Paren(inner, rest); p + Len(b) <= |t| && Reads(t, p, b)
    ensures var q := p + 1 + Len(inner);
      q < |t| && t[p] == '(' && t[q] == ')' && Reads(t, p + 1, inner) && Reads(t, q + 1, rest)
      && p + Len(Paren(inner, rest)) == q + 1 + Len(rest)
  {
  }

  lemma {:induction false} Parentheses(t: string, p: nat, depth: int)
    requires p < |t|
    ensures t[p] == '(' ==> BodyEnd(t, p, depth) == BodyEnd(t, p + 1, depth + 1)
    ensures t[p] == ')' && depth != 1 ==> BodyEnd(t, p, depth) == BodyEnd(t, p + 1, depth - 1)
  {
  }

  lemma {:induction false} PlainStep(t: string, p: nat)
    requires IsPlain(t, p)
    ensures p < |t| && t[p] != '(' && t[p] != ')'
    ensures BodyStep(t, p) == p + 1
  {
  }

  lemma {:induction false} NameStep(t: string, p: nat, q: nat)
    requires Delimited(t, p, q, '"')
    ensures p < |t| && t[p] != '(' && t[p] != ')'
    ensures BodyStep(t, p) == q + 1
  {
    FindIs(t, '"', p + 1, q);
  }

  lemma {:induction false} LineStep(t: string, p: nat, q: nat)
    requires IsLine(t, p, q)
    ensures p < |t| && t[p] != '(' && t[p] != ')'
    ensures BodyStep(t, p) == q + 1 && SkipStep(t, p) == q && SkipStep(t, q) == q + 1
  {
    LineSkipped(t, p, q);
  }

  lemma {:induction false} BlockStep(t: string, p: nat, q: nat)
    requires IsBlock(t, p, q)
    ensures p < |t| && t[p] != '(' && t[p] != ')'
    ensures BodyStep(t, p) == q + 2 && SkipStep(t, p) == q + 2
  {
    BlockEndIs(t, p + 2, q);
  }

  lemma {:induction false} SkipReads(t: string, p: nat, g: Gap)
    requires p + GapLen(g) <= |t| && ReadsGap(t, p, g)
    ensures SkipWs(t, p) == SkipWs(t, p + GapLen(g))
    decreases g
  {
    hide SkipStep, IsLine, IsBlock;
    match g {
      case NoGap =>
      case Ws(_, rest) =>
        WsStep(t, p);
        SkipOnce(t, p, p + 1);
        SkipReads(t, p + 1, rest);
      case LineGap(s, rest) =>
        LineStep(t, p, p + 2 + |s|);
        SkipOnce(t, p, p + 2 + |s|);
        SkipOnce(t, p + 2 + |s|, p + 3 + |s|);
        SkipReads(t, p + 3 + |s|, rest);
      case BlockGap(s, rest) =>
        BlockStep(t, p, p + 2 + |s|);
        SkipOnce(t, p, p + 4 + |s|);
        SkipReads(t, p + 4 + |s|, rest);
    }
  }

  lemma {:induction false} WsStep(t: string, p: nat)
    requires p < |t| && PlainWs(t[p])
    ensures SkipStep(t, p) == p + 1
  {
  }

  lemma {:induction false} SkipOnce(t: string, p: nat, q: nat)
    requires p < q <= |t| && SkipStep(t, p) == q
    ensures SkipWs(t, p) == SkipWs(t, q)
  {
  }

  // ----- heads

  predicate Blank(t: string, p: nat) { p + 1 < |t| && t[p] == ' ' && !IsSpace(t[p + 1]) }

  predicate ReadsName(t: string, p: nat, q: nat) {
    p < q < |t| && IsWordStart(t[p]) && !IsWordChar(t[q]) && forall k :: p <= k < q ==> IsWordChar(t[k])
  }

  predicate ReadsModifier(t: string, p: nat, m: Materialize) {
    match m
    case Default => p < |t| && t[p] == '('
    case Yes => Keyword(t, p, "MATERIALIZED") && Blank(t, p + 12)
    case No => Keyword(t, p, "NOT") && Blank(t, p + 3) && Keyword(t, p + 4, "MATERIALIZED") && Blank(t, p + 16)
  }

  /** A head whose name ends at `q`. */
  predicate ReadsHead(t: string, p: nat, q: nat, m: Materialize) {
    && ReadsName(t, p, q) && Blank(t, q) && Keyword(t, q + 1, "AS") && Blank(t, q + 3) && ReadsModifier(t, q + 4, m)
    && var e := q + 4 + |PrintModifier(m)|; e < |t| && t[e] == '('
  }

  predicate Capitals(w: string) {
    forall k :: 0 <= k < |w| ==> 'A' <= w[k] <= 'Z'
  }

  lemma {:induction false} KeywordPrinted(t: string, p: nat, w: string)
    requires At(t, p, w) && Capitals(w)
    ensures Keyword(t, p, w)
  {
    forall k | 0 <= k < |w| ensures Upper(t[p + k]) == w[k] { AtChar(t, p, w, k); }
  }

  lemma {:induction false} BlankPrinted(t: string, p: nat, rest: string)
    requires At(t, p, " " + rest) && rest != "" && !IsSpace(rest[0])
    ensures Blank(t, p) && At(t, p + 1, rest)
  {
    AtSplit(t, p, " ", rest);
    AtChar(t, p, " ", 0);
    AtChar(t, p + 1, rest, 0);
  }

  lemma {:induction false} KeywordBlank(t: string, p: nat, w: string)
    requires At(t, p, w + " (") && Capitals(w)
    ensures Keyword(t, p, w) && Blank(t, p + |w|)
  {
    assert " (" == " " + "(";
    hide At, Keyword, Capitals, Blank;
    AtSplit(t, p, w, " (");
    KeywordPrinted(t, p, w);
    BlankPrinted(t, p + |w|, "(");
  }

  lemma {:induction false} MaterializedPrinted(t: string, p: nat)
    requires At(t, p, "MATERIALIZED" + " (")
    ensures Keyword(t, p, "MATERIALIZED") && Blank(t, p + 12)
  {
    hide At, Keyword, Blank;
    assert Capitals("MATERIALIZED") by {
      var w := "MATERIALIZED";
      forall k | 0 <= k < |w| ensures 'A' <= w[k] <= 'Z' { }
    }
    KeywordBlank(t, p, "MATERIALIZED");
  }

  lemma {:induction false} ModifierPrinted(t: string, p: nat, m: Materialize)
    requires At(t, p, PrintModifier(m) + "(")
    ensures ReadsModifier(t, p, m)
    ensures var e := p + |PrintModifier(m)|; e < |t| && t[e] == '('
  {
    AtSplit(t, p, PrintModifier(m), "(");
    AtChar(t, p + |PrintModifier(m)|, "(", 0);
    match m {
      case Default =>
      case Yes =>
        assert PrintModifier(m) + "(" == "MATERIALIZED" + " (";
        MaterializedPrinted(t, p);
      case No =>
        assert PrintModifier(m) + "(" == "NOT" + (" " + ("MATERIALIZED" + " ("));
        AtSplit(t, p, "NOT", " " + ("MATERIALIZED" + " ("));
        KeywordPrinted(t, p, "NOT");
        BlankPrinted(t, p + 3, "MATERIALIZED" + " (");
        MaterializedPrinted(t, p + 4);
    }
  }

  lemma {:induction false} NamePrinted(t: string, p: nat, name: string, rest: string)
    requires At(t, p, name + rest) && IsName(name) && rest != "" && !IsWordChar(rest[0])
    ensures ReadsName(t, p, p + |name|) && t[p..p + |name|] == name && At(t, p + |name|, rest)
  {
    AtSplit(t, p, name, rest);
    AtChar(t, p, name, 0);
    AtChar(t, p + |name|, rest, 0);
    forall k | p <= k < p + |name| ensures IsWordChar(t[k]) { AtChar(t, p, name, k - p); }
    AtSlice(t, p, name);
  }

  lemma {:induction false} HeadPrinted(t: string, p: nat, b: Branch)
    requires At(t, p, PrintHead(b)) && IsName(b.name)
    ensures ReadsHead(t, p, p + |b.name|, b.mod) && t[p..p + |b.name|] == b.name
  {
    var m := PrintModifier(b.mod) + "(";
    NamePrinted(t, p, b.name, " AS " + m);
    AsPrinted(t, p + |b.name|, m);
    ModifierPrinted(t, p + |b.name| + 4, b.mod);
  }

  lemma {:induction false} AsPrinted(t: string, q: nat, m: string)
    requires At(t, q, " AS " + m) && m != "" && !IsSpace(m[0])
    ensures Blank(t, q) && Keyword(t, q + 1, "AS") && Blank(t, q + 3) && At(t, q + 4, m)
  {
    assert " AS " + m == " " + ("AS" + (" " + m));
    BlankPrinted(t, q, "AS" + (" " + m));
    AtSplit(t, q + 1, "AS", " " + m);
    KeywordPrinted(t, q + 1, "AS");
    BlankPrinted(t, q + 3, m);
  }

  lemma {:induction false} NotKeyword(t: string, p: nat, w: string)
    requires p < |t| && w != "" && Upper(t[p]) != w[0]
    ensures !Keyword(t, p, w)
  {
    assert p + |w| <= |t| ==> Upper(t[p + 0]) != w[0];
  }

  lemma {:induction false} ModifierRead(t: string, p: nat, m: Materialize)
    requires p <= |t| && ReadsModifier(t, p, m)
    ensures Modifier(t, p) == p + |PrintModifier(m)|
  {
    match m {
      case Default =>
        NotKeyword(t, p, "MATERIALIZED");
        NotKeyword(t, p, "NOT");
      case Yes => SpacesIs(t, p + 12, p + 13);
      case No =>
        assert Upper(t[p + 0]) == "NOT"[0];
        NotKeyword(t, p, "MATERIALIZED");
        SpacesIs(t, p + 3, p + 4);
        SpacesIs(t, p + 16, p + 17);
    }
  }

  lemma {:induction false} HeadRead(t: string, p: nat, q: nat, m: Materialize)
    requires ReadsHead(t, p, q, m)
    ensures MatchHead(t, p) == Some((t[p..q], q + 4 + |PrintModifier(m)|))
  {
    SpacesIs(t, p, p);
    WordEndIs(t, p, q);
    SpacesIs(t, q, q + 1);
    SpacesIs(t, q + 3, q + 4);
    ModifierRead(t, q + 4, m);
    var e := q + 4 + |PrintModifier(m)|;
    assert p < q < |t| && IsWordStart(t[p]) && Keyword(t, q + 1, "AS") && e < |t| && t[e] == '(';
    hide ReadsHead, ReadsName, ReadsModifier, Blank, Keyword, Spaces, WordEnd, Modifier, PrintModifier, IsWordStart;
  }

  // ----- branches

  /** Nothing is skipped at `p`. */
  predicate Solid(t: string, p: nat)
    requires p <= |t|
  {
    p == |t| || !(PlainWs(t[p]) || Dashes(t, p) || Opens(t, p))
  }

  lemma {:induction false} SqlPrinted(t: string, a: nat, b: Branch)
    requires At(t, a, PrintSql(b)) && IsName(b.name) && WellFormed(b.body, ')')
    ensures t[a..a + |PrintSql(b)|] == PrintSql(b) && IsWordStart(t[a])
    ensures exists paren :: MatchHead(t, a) == Some((b.name, paren)) && BodyEnd(t, paren, 0) == a + |PrintSql(b)|
  {
    var head, body := PrintHead(b), Print(b.body);
    assert PrintSql(b) == head + (body + ")");
    HeadEnds(b);
    hide *;
    AtSlice(t, a, head + (body + ")"));
    SqlPieces(t, a, head, body);
    HeadMatches(t, a, b);
    BodyPrinted(t, a + |head|, b.body);
  }

  lemma {:induction false} HeadMatches(t: string, a: nat, b: Branch)
    requires At(t, a, PrintHead(b)) && IsName(b.name)
    ensures MatchHead(t, a) == Some((b.name, a + |PrintHead(b)| - 1))
  {
    HeadEnds(b);
    hide *;
    HeadPrinted(t, a, b);
    HeadRead(t, a, a + |b.name|, b.mod);
  }

  lemma {:induction false} SqlPieces(t: string, a: nat, head: string, body: string)
    requires At(t, a, head + (body + ")")) && head != ""
    ensures var c := a + |head|;
      At(t, a, head) && At(t, c, body) && c + |body| < |t| && t[c + |body|] == ')'
      && t[a] == head[0] && t[c - 1] == head[|head| - 1]
  {
    hide At;
    var c := a + |head|;
    AtSplit(t, a, head, body + ")");
    AtSplit(t, c, body, ")");
    AtChar(t, c + |body|, ")", 0);
    AtChar(t, a, head, |head| - 1);
    AtChar(t, a, head, 0);
  }

  lemma {:induction false} HeadEnds(b: Branch)
    requires IsName(b.name)
    ensures |PrintHead(b)| == |b.name| + 5 + |PrintModifier(b.mod)|
    ensures PrintHead(b)[|PrintHead(b)| - 1] == '(' && IsWordStart(PrintHead(b)[0])
  {
  }

  lemma {:induction false} BodyPrinted(t: string, c: nat, b: Body)
    requires 0 < c && c + |Print(b)| < |t| && At(t, c, Print(b)) && WellFormed(b, ')')
    requires t[c - 1] == '(' && t[c + |Print(b)|] == ')'
    ensures BodyEnd(t, c - 1, 0) == c + |Print(b)| + 1
  {
    PrintLen(b);
    PrintReads(t, c, b);
    ScanReads(t, c, b, 1);
    assert BodyEnd(t, c - 1, 0) == BodyEnd(t, c, 1);
  }

  lemma {:induction false} GapPrinted(t: string, p: nat, g: Gap)
    requires At(t, p, PrintGap(g)) && WellFormedGap(g)
    ensures SkipWs(t, p) == SkipWs(t, p + |PrintGap(g)|)
  {
    PrintGapLen(g);
    PrintReadsGap(t, p, g);
    SkipReads(t, p, g);
  }

  lemma {:induction false} BranchPrinted(t: string, p: nat, b: Branch)
    requires At(t, p, PrintBranch(b)) && WellFormedBranch(b)
    requires Solid(t, p + |PrintBranch(b)|)
    ensures BranchAt(t, SkipWs(t, p)) == Some((Cte(b.name, PrintSql(b)), p + |PrintBranch(b)|))
  {
    hide BodyEnd, MatchHead, Print, WellFormed, PrintGap, WellFormedGap, SkipWs, PrintSql, Solid;
    var a := p + |PrintGap(b.before)|;
    AtSplit(t, p, PrintGap(b.before), PrintSql(b) + PrintGap(b.after));
    AtSplit(t, a, PrintSql(b), PrintGap(b.after));
    GapPrinted(t, p, b.before);
    SqlPrinted(t, a, b);
    SolidStops(t, a);
    GapPrinted(t, a + |PrintSql(b)|, b.after);
    SolidStops(t, p + |PrintBranch(b)|);
  }

  lemma {:induction false} SolidStops(t: string, p: nat)
    requires p <= |t| && (Solid(t, p) || (p < |t| && IsWordStart(t[p])))
    ensures SkipWs(t, p) == p
  {
  }

  lemma {:induction false} BranchesPrinted(t: string, p: nat, bs: seq<Branch>, found: seq<Cte>)
    requires bs != [] && At(t, p, PrintBranches(bs)) && forall i :: 0 <= i < |bs| ==> WellFormedBranch(bs[i])
    requires var q := p + |PrintBranches(bs)|; Solid(t, q) && (q < |t| ==> t[q] != ',')
    ensures SplitFrom(t, p, found) == (found + Ctes(bs), t[p + |PrintBranches(bs)|..])
    decreases bs
  {
    hide BranchAt, PrintBranch, PrintSql, WellFormedBranch, SkipWs;
    var b := bs[0];
    var cte := Cte(b.name, PrintSql(b));
    var q := p + |PrintBranch(b)|;
    if |bs| == 1 {
      BranchPrinted(t, p, b);
      assert Ctes(bs) == [cte];
    } else {
      AtSplit(t, p, PrintBranch(b), "," + PrintBranches(bs[1..]));
      AtSplit(t, q, ",", PrintBranches(bs[1..]));
      AtChar(t, q, ",", 0);
      assert Solid(t, q);
      BranchPrinted(t, p, b);
      BranchesPrinted(t, q + 1, bs[1..], found + [cte]);
      assert found + [cte] + Ctes(bs[1..]) == found + Ctes(bs);
    }
  }

  lemma {:induction false} WithPrinted(t: string, lead: string, rest: string)
    requires At(t, 0, lead + ("WITH" + (" " + rest))) && forall k :: 0 <= k < |lead| ==> IsSpace(lead[k])
    ensures WithEnd(t) == |lead| + 5 && At(t, |lead| + 5, rest)
  {
    var n := |lead|;
    AtSplit(t, 0, lead, "WITH" + (" " + rest));
    AtSplit(t, n, "WITH", " " + rest);
    AtSplit(t, n + 4, " ", rest);
    forall k | 0 <= k < n ensures IsSpace(t[k]) { AtChar(t, 0, lead, k); }
    KeywordPrinted(t, n, "WITH");
    AtChar(t, n, "WITH", 0);
    AtChar(t, n + 4, " ", 0);
    SpacesIs(t, 0, n);
  }

  lemma {:induction false} TailPrinted(t: string, q: nat, tail: string)
    requires At(t, q, tail) && |t| == q + |tail| && Solid(tail, 0) && (tail != "" ==> tail[0] != ',')
    ensures t[q..] == tail && Solid(t, q) && (q < |t| ==> t[q] != ',')
  {
    AtSlice(t, q, tail);
    if tail != "" { AtChar(t, q, tail, 0); }
    if |tail| > 1 { AtChar(t, q, tail, 1); }
  }

  lemma {:induction false} WithSpace(lead: string, rest: string)
    ensures lead + ("WITH " + rest) == lead + ("WITH" + (" " + rest))
  {
    assert "WITH " == "WITH" + " ";
  }

  lemma {:induction false} StatementStarts(t: string, lead: string, rest: string)
    requires t == lead + ("WITH " + rest) && forall k :: 0 <= k < |lead| ==> IsSpace(lead[k])
    ensures WithEnd(t) == |lead| + 5 && At(t, |lead| + 5, rest)
  {
    AtStart(t);
    hide *;
    WithSpace(lead, rest);
    WithPrinted(t, lead, rest);
  }

  lemma {:induction false} SplitAfterWith(t: string, p: nat)
    requires WithEnd(t) == p != 0
    ensures p <= |t| && Split(t) == SplitFrom(t, p, [])
  {
  }

  lemma {:induction false} SplitBranches(lead: string, bs: seq<Branch>, tail: string)
    requires bs != [] && forall k :: 0 <= k < |lead| ==> IsSpace(lead[k])
    requires forall i :: 0 <= i < |bs| ==> WellFormedBranch(bs[i])
    requires Solid(tail, 0) && (tail != "" ==> tail[0] != ',')
    ensures Split(lead + ("WITH " + (PrintBranches(bs) + tail))) == (Ctes(bs), tail)
  {
    hide *;
    var body, p := PrintBranches(bs), |lead| + 5;
    var t := lead + ("WITH " + (body + tail));
    assert |t| == p + |body| + |tail|;
    StatementStarts(t, lead, body + tail);
    SplitAfterWith(t, p);
    AtSplit(t, p, body, tail);
    TailPrinted(t, p + |body|, tail);
    BranchesPrinted(t, p, bs, []);
    assert [] + Ctes(bs) == Ctes(bs);
  }

  /** For every list of named, parenthesis-balanced branches and every terminal query, splitting the
      printed statement returns exactly those branches and that query. */
  lemma {:induction false} SplitInvertsPrint(lead: string, bs: seq<Branch>, tail: string)
    requires forall k :: 0 <= k < |lead| ==> IsSpace(lead[k])
    requires forall i :: 0 <= i < |bs| ==> WellFormedBranch(bs[i])
    requires Solid(tail, 0) && (tail != "" ==> tail[0] != ',')
    requires bs == [] ==> WithEnd(tail) == 0
    ensures Split(PrintStatement(lead, bs, tail)) == (Ctes(bs), tail)
  {
    hide WithEnd, SplitFrom, PrintBranches, WellFormedBranch, Solid;
    if bs == [] {
      assert Ctes(bs) == [];
    } else {
      SplitBranches(lead, bs, tail);
    }
  }

  // ----- literals with a doubled quote

  /** The branch whose body is one literal. */
  function OneLiteral(name: string, v: string): Branch {
    Branch(NoGap, name, Default, Literal(v, End), NoGap)
  }

  lemma {:induction false} FoundStays(t: string, p: nat, found: seq<Cte>)
    requires p <= |t|
    ensures found <= SplitFrom(t, p, found).0
    decreases |t| - p
  {
    hide BranchAt, SkipWs;
    var begin := SkipWs(t, p);
    match BranchAt(t, begin) {
      case None =>
      case Some((cte, next)) =>
        if next < |t| && t[next] == ',' { FoundStays(t, next + 1, found + [cte]); }
    }
  }

  /** For every value: splitting the statement with this one literal gives back the branch and the query if and only if the scan
      gets through the value. */
  lemma {:induction false} LiteralSplitExact(name: string, v: string, tail: string)
    requires IsName(name) && tail != "" && Solid(tail, 0) && tail[0] != ','
    ensures Split(PrintStatement("", [OneLiteral(name, v)], tail)) == (Ctes([OneLiteral(name, v)]), tail) <==> Fits(v)
  {
    if Fits(v) {
      OneLiteralWellFormed(name, v);
      hide WellFormedBranch, Split, Fits, Quoted;
      SplitInvertsPrint("", [OneLiteral(name, v)], tail);
    } else {
      LiteralSplitsElsewhere(name, v, tail);
    }
  }

  lemma {:induction false} OneLiteralWellFormed(name: string, v: string)
    requires IsName(name) && Fits(v)
    ensures WellFormedBranch(OneLiteral(name, v))
  {
    hide Fits, IsName;
    assert WellFormed(End, ')') && First(End, ')') == ')';
    assert WellFormed(Literal(v, End), ')');
  }

  lemma {:induction false} LiteralText(name: string, v: string, tail: string)
    ensures PrintStatement("", [OneLiteral(name, v)], tail) == "" + ("WITH " + ((name + " AS (") + (Quoted(v) + (")" + tail))))
    ensures PrintHead(OneLiteral(name, v)) == name + " AS (" && PrintSql(OneLiteral(name, v)) == (name + " AS (") + (Quoted(v) + ")")
  {
    var b := OneLiteral(name, v);
    assert PrintModifier(Default) == "" && "" + "(" == "(" && " AS " + "(" == " AS (";
    assert PrintHead(b) == name + " AS (";
    assert Print(b.body) == Quoted(v) + "" == Quoted(v);
    assert PrintBranch(b) == PrintSql(b);
    assert PrintBranches([b]) == PrintSql(b);
    assert PrintSql(b) + tail == (name + " AS (") + (Quoted(v) + (")" + tail));
  }

  lemma {:induction false} LiteralSplitsElsewhere(name: string, v: string, tail: string)
    requires IsName(name) && tail != "" && !Fits(v)
    ensures Split(PrintStatement("", [OneLiteral(name, v)], tail)).0 != Ctes([OneLiteral(name, v)])
  {
    var b, head := OneLiteral(name, v), name + " AS (";
    var rest := head + (Quoted(v) + (")" + tail));
    var t := "" + ("WITH " + rest);
    LiteralText(name, v, tail);
    hide Fits, Quoted, Split, SplitFrom, MatchHead, BodyEnd, SkipWs;
    StatementStarts(t, "", rest);
    SplitAfterWith(t, 5);
    LiteralBranch(t, b, head, v, tail);
    var end := BodyEnd(t, 5 + |head| - 1, 0);
    SolidStops(t, 5) by { NameIsSolid(t, 5); }
    assert BranchAt(t, 5).value.0 == Cte(name, t[5..end]);
    FirstFound(t, 5, Cte(name, t[5..end]));
    assert |t[5..end]| == end - 5 && |PrintSql(b)| == |head| + |Quoted(v)| + 1;
    assert Ctes([b])[0] == Cte(name, PrintSql(b));
  }

  lemma {:induction false} NameIsSolid(t: string, p: nat)
    requires p < |t| && IsWordStart(t[p])
    ensures Solid(t, p)
  {
  }

  /** The branch found first stays first. */
  lemma {:induction false} FirstFound(t: string, p: nat, cte: Cte)
    requires p <= |t| && SkipWs(t, p) == p && BranchAt(t, p).Some? && BranchAt(t, p).value.0 == cte
    ensures SplitFrom(t, p, []).0 != [] && SplitFrom(t, p, []).0[0] == cte
  {
    hide BranchAt, SkipWs;
    var next := BranchAt(t, p).value.1;
    assert [] + [cte] == [cte];
    if next < |t| && t[next] == ',' { FoundStays(t, next + 1, [cte]); }
  }

  /** The scan starts at the right place and ends at another. */
  lemma {:induction false} LiteralBranch(t: string, b: Branch, head: string, v: string, tail: string)
    requires b == OneLiteral(b.name, v) && IsName(b.name) && PrintHead(b) == head && tail != "" && !Fits(v)
    requires At(t, 5, head + (Quoted(v) + (")" + tail)))
    ensures 5 + |head| <= |t| && IsWordStart(t[5]) && MatchHead(t, 5) == Some((b.name, 5 + |head| - 1))
    ensures BodyEnd(t, 5 + |head| - 1, 0) != 5 + |head| + |Quoted(v)| + 1
  {
    hide At, Fits, Quoted, MatchHead, BodyEnd, PrintHead;
    var c := 5 + |head|;
    AtSplit(t, 5, head, Quoted(v) + (")" + tail));
    AtSplit(t, c, Quoted(v), ")" + tail);
    AtSplit(t, c + |Quoted(v)|, ")", tail);
    AtChar(t, c + |Quoted(v)|, ")", 0);
    HeadEnds(b);
    AtChar(t, 5, head, 0);
    AtChar(t, 5, head, |head| - 1);
    HeadMatches(t, 5, b);
    Parentheses(t, c - 1, 0);
    LiteralBodyExact(t, c, v);
  }

  /** A literal with a doubled quote can end a branch early: the parenthesis inside `'a'')'` closes it. */
  lemma {:induction false} DoubledQuoteBreaksSplit()
    ensures Split("WITH w AS ('a'')') SELECT 1") == ([Cte("w", "w AS ('a'')")], "') SELECT 1")
  {
    hide WithEnd, SplitFrom, MatchHead, BodyEnd, SkipWs;
    var t := "WITH w AS ('a'')') SELECT 1";
    assert t == "" + ("WITH" + (" " + "w AS ('a'')') SELECT 1"));
    WithPrinted(t, "", "w AS ('a'')') SELECT 1");
    EarlyBranch(t);
  }

  lemma {:induction false} EarlyHead(t: string)
    requires t == "WITH w AS ('a'')') SELECT 1" && At(t, 5, "w AS ('a'')') SELECT 1")
    ensures MatchHead(t, 5) == Some(("w", 10))
  {
    hide At, MatchHead;
    var b := Branch(NoGap, "w", Default, End, NoGap);
    assert PrintHead(b) == "w AS (";
    assert "w AS ('a'')') SELECT 1" == "w AS (" + "'a'')') SELECT 1";
    AtSplit(t, 5, "w AS (", "'a'')') SELECT 1");
    HeadPrinted(t, 5, b);
    HeadRead(t, 5, 6, Default);
  }

  /** The parts of the example, by position. */
  lemma {:induction false} EarlyParts(t: string)
    requires t == "WITH w AS ('a'')') SELECT 1" && At(t, 5, "w AS ('a'')') SELECT 1")
    ensures t[5] == 'w' && t[16] == '\'' && t[17] == ')' && t[5..16] == "w AS ('a'')" && t[16..] == "') SELECT 1"
  {
    assert "w AS ('a'')') SELECT 1" == "w AS ('a'')" + "') SELECT 1";
    hide At;
    AtSplit(t, 5, "w AS ('a'')", "') SELECT 1");
    AtSlice(t, 5, "w AS ('a'')");
    AtSlice(t, 16, "') SELECT 1");
    assert |t| == 27;
    AtChar(t, 5, "w AS ('a'')", 0);
    AtChar(t, 16, "') SELECT 1", 0);
    AtChar(t, 16, "') SELECT 1", 1);
  }

  lemma {:induction false} EarlyBranch(t: string)
    requires t == "WITH w AS ('a'')') SELECT 1" && At(t, 5, "w AS ('a'')') SELECT 1")
    ensures SplitFrom(t, 5, []) == ([Cte("w", "w AS ('a'')")], "') SELECT 1")
  {
    hide At, MatchHead, BodyEnd, SkipWs;
    EarlyHead(t);
    EarlyEnd(t);
    EarlyParts(t);
    SolidStops(t, 5);
    SolidStops(t, 16);
    assert BranchAt(t, 5) == Some((Cte("w", t[5..16]), 16));
    assert [] + [Cte("w", t[5..16])] == [Cte("w", t[5..16])];
  }

  lemma {:induction false} EarlyEnd(t: string)
    requires t == "WITH w AS ('a'')') SELECT 1"
    ensures BodyEnd(t, 10, 0) == 16
  {
    FindIs(t, '\'', 12, 13);
    assert BodyStep(t, 11) == 15;
    assert BodyEnd(t, 15, 1) == 16;
    assert BodyEnd(t, 11, 1) == BodyEnd(t, 15, 1);
  }
}
