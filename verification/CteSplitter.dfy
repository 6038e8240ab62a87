/** Splitting a builder-produced statement into its top-level `WITH` branches and the terminal query. */
module CteSplitter {
  import opened Outcomes
  import opened Lexical

  datatype Cte = Cte(name: string, sql: string)

  // ----- what the scanner does

  predicate PlainWs(c: char) { c == ' ' || c == '\t' || c == '\n' || c == '\r' }

  predicate Dashes(t: string, p: nat) { p + 1 < |t| && t[p] == '-' && t[p + 1] == '-' }
  predicate Opens(t: string, p: nat) { p + 1 < |t| && t[p] == '/' && t[p + 1] == '*' }

  /** The end of one skipped item: a white space, a line comment without its newline, a block comment. */
  function SkipStep(t: string, p: nat): (q: nat)
    requires p <= |t|
    ensures p <= q <= |t|
  {
    if p == |t| then p
    else if PlainWs(t[p]) then p + 1
    else if Dashes(t, p) then Find(t, '\n', p)
    else if Opens(t, p) then BlockEnd(t, p + 2)
    else p
  }

  function SkipWs(t: string, p: nat): (q: nat)
    requires p <= |t|
    ensures p <= q <= |t|
    decreases |t| - p
  {
    var n := SkipStep(t, p);
    if n == p then p else SkipWs(t, n)
  }

  /** The end of `[NOT] MATERIALIZED` and the white space it needs behind it, or `p`. */
  function Modifier(t: string, p: nat): (q: nat)
    requires p <= |t|
    ensures p <= q <= |t|
  {
    if Keyword(t, p, "MATERIALIZED") then
      var q := Spaces(t, p + 12); if q == p + 12 then p else q
    else if Keyword(t, p, "NOT") then
      var a := Spaces(t, p + 3);
      if a == p + 3 || !Keyword(t, a, "MATERIALIZED") then p
      else
        var q := Spaces(t, a + 12); if q == a + 12 then p else q
    else p
  }

  /** `name AS [[NOT] MATERIALIZED] (` at `p`: the name, and the position of the parenthesis. */
  function MatchHead(t: string, p: nat): (r: Option<(string, nat)>)
    requires p <= |t|
    ensures r.Some? ==> p < r.value.1 < |t| && t[r.value.1] == '('
  {
    var a := Spaces(t, p);
    var b := WordEnd(t, a);
    if b == a || !IsWordStart(t[a]) then None
    else
      var c := Spaces(t, b);
      if c == b || !Keyword(t, c, "AS") then None
      else
        var e := Modifier(t, Spaces(t, c + 2));
        if e < |t| && t[e] == '(' then Some((t[a..b], e)) else None
  }

  /** Where the literal step stops: behind the next quote, and behind one more when it is doubled. */
  function QuoteStep(t: string, p: nat): (q: nat)
    requires p < |t|
    ensures p < q <= |t|
  {
    var q := Find(t, '\'', p + 1);
    if q == |t| then q else if q + 1 < |t| && t[q + 1] == '\'' then q + 2 else q + 1
  }

  /** One step of the body scan that is not a parenthesis. */
  function BodyStep(t: string, p: nat): (q: nat)
    requires p < |t|
    ensures p < q <= |t|
  {
    if t[p] == '\'' then QuoteStep(t, p)
    else if t[p] == '"' then var q := Find(t, '"', p + 1); if q == |t| then q else q + 1
    else if Dashes(t, p) then var q := Find(t, '\n', p); if q == |t| then q else q + 1
    else if Opens(t, p) then BlockEnd(t, p + 2)
    else p + 1
  }

  /** Behind the parenthesis that brings `depth` to zero, or the end of the text. */
  function BodyEnd(t: string, p: nat, depth: int): (q: nat)
    requires p <= |t|
    ensures p <= q <= |t|
    decreases |t| - p
  {
    if p == |t| then p
    else if t[p] == '(' then BodyEnd(t, p + 1, depth + 1)
    else if t[p] == ')' then if depth == 1 then p + 1 else BodyEnd(t, p + 1, depth - 1)
    else BodyEnd(t, BodyStep(t, p), depth)
  }

  /** The branch whose head starts at `p`, and where the white space behind it ends. */
  function BranchAt(t: string, p: nat): (r: Option<(Cte, nat)>)
    requires p <= |t|
    ensures r.Some? ==> p < r.value.1 <= |t|
  {
    match MatchHead(t, p)
    case None => None
    case Some((name, paren)) =>
      var end := BodyEnd(t, paren, 0);
      Some((Cte(name, t[p..end]), SkipWs(t, end)))
  }

  /** The branches from `p` on behind those already found, and the text behind the last one. */
  function SplitFrom(t: string, p: nat, found: seq<Cte>): (r: (seq<Cte>, string))
    requires p <= |t|
    decreases |t| - p
  {
    var begin := SkipWs(t, p);
    match BranchAt(t, begin)
    case None => (found, t[begin..])
    case Some((cte, next)) =>
      if next < |t| && t[next] == ',' then SplitFrom(t, next + 1, found + [cte])
      else (found + [cte], t[next..])
  }

  /** Behind a leading `WITH` and one white space, or zero without one. */
  function WithEnd(t: string): (q: nat)
    ensures q <= |t|
  {
    var a := Spaces(t, 0);
    if Keyword(t, a, "WITH") && a + 4 < |t| && IsSpace(t[a + 4]) then a + 5 else 0
  }

  function Split(t: string): (seq<Cte>, string) {
    if WithEnd(t) == 0 then ([], t) else SplitFrom(t, WithEnd(t), [])
  }

  // ----- the splitter itself

  method IndexOf(text: string, c: char, from: nat) returns (p: nat)
    requires from <= |text|
    ensures p == Find(text, c, from)
  {
    p := from;
    while p < |text| && text[p] != c
      invariant from <= p <= |text| && Find(text, c, from) == Find(text, c, p)
    {
      p := p + 1;
    }
  }

  method IndexOfBlockEnd(text: string, from: nat) returns (p: nat)
    requires from <= |text|
    ensures p == BlockEnd(text, from)
  {
    p := from;
    while p + 1 < |text| && !(text[p] == '*' && text[p + 1] == '/')
      invariant from <= p <= |text| && BlockEnd(text, from) == BlockEnd(text, p)
    {
      p := p + 1;
    }
    p := if p + 1 < |text| then p + 2 else |text|;
  }

  method SkipWhitespace(text: string, from: nat) returns (p: nat)
    requires from <= |text|
    ensures p == SkipWs(text, from)
  {
    p := from;
    while p < |text|
      invariant from <= p <= |text| && SkipWs(text, from) == SkipWs(text, p)
    {
      if PlainWs(text[p]) {
        p := p + 1;
      } else if Dashes(text, p) {
        assert Find(text, '\n', p) == Find(text, '\n', p + 1);
        p := IndexOf(text, '\n', p);
      } else if Opens(text, p) {
        p := IndexOfBlockEnd(text, p + 2);
      } else {
        break;
      }
    }
  }

  /** Past one quoted piece, comment or character of a branch body. */
  method StepBody(text: string, pos: nat) returns (next: nat)
    requires pos < |text|
    ensures next == BodyStep(text, pos)
  {
    if text[pos] == '\'' {
      next := IndexOf(text, '\'', pos + 1);
      if next < |text| {
        if next + 1 < |text| && text[next + 1] == '\'' { next := next + 1; }
        next := next + 1;
      }
    } else if text[pos] == '"' {
      next := IndexOf(text, '"', pos + 1);
      if next < |text| { next := next + 1; }
    } else if Dashes(text, pos) {
      next := IndexOf(text, '\n', pos);
      if next < |text| { next := next + 1; }
    } else if Opens(text, pos) {
      next := IndexOfBlockEnd(text, pos + 2);
    } else {
      next := pos + 1;
    }
  }

  /** From an opening parenthesis through the one that closes it. */
  method ScanBody(text: string, from: nat) returns (pos: nat)
    requires from <= |text|
    ensures pos == BodyEnd(text, from, 0)
  {
    pos := from;
    var depth := 0;
    while pos < |text|
      invariant from <= pos <= |text| && BodyEnd(text, from, 0) == BodyEnd(text, pos, depth)
    {
      if text[pos] == '(' {
        depth := depth + 1;
        pos := pos + 1;
      } else if text[pos] == ')' {
        depth := depth - 1;
        pos := pos + 1;
        if depth == 0 { return; }
      } else {
        pos := StepBody(text, pos);
      }
    }
  }

  method ReadBranch(text: string, begin: nat) returns (r: Option<(Cte, nat)>)
    requires begin <= |text|
    ensures r == BranchAt(text, begin)
  {
    var head := MatchHead(text, begin);
    if head.None? { return None; }
    var pos := ScanBody(text, head.value.1);
    var sql := text[begin..pos];
    pos := SkipWhitespace(text, pos);
    return Some((Cte(head.value.0, sql), pos));
  }

  method SplitTopLevelCtes(text: string) returns (ctes: seq<Cte>, tail: string)
    ensures (ctes, tail) == Split(text)
  {
    hide BranchAt, SkipWs, WithEnd;
    ctes := [];
    var pos := WithEnd(text);
    if pos == 0 { return [], text; }
    while true
      invariant pos <= |text|
      invariant Split(text) == SplitFrom(text, pos, ctes)
      decreases |text| - pos
    {
      pos := SkipWhitespace(text, pos);
      var branch := ReadBranch(text, pos);
      if branch.None? { break; }
      ctes := ctes + [branch.value.0];
      pos := branch.value.1;
      if pos == |text| || text[pos] != ',' { break; }
      pos := pos + 1;
    }
    tail := text[pos..];
  }
}
