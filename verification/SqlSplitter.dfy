/** Splitting a patch into top-level statements, and stripping transaction control from it. */
module SqlSplitter {
  import opened Lexical

  predicate Dashes(t: string, p: nat) { p + 1 < |t| && t[p] == '-' && t[p + 1] == '-' }
  predicate Opens(t: string, p: nat) { p + 1 < |t| && t[p] == '/' && t[p + 1] == '*' }

  // ----- trimming and the tests on a finished statement

  predicate AllSpace(s: string) { forall k :: 0 <= k < |s| ==> IsSpace(s[k]) }

  function TrimStart(s: string): string {
    if s != "" && IsSpace(s[0]) then TrimStart(s[1..]) else s
  }

  function TrimEnd(s: string): string {
    if s != "" && IsSpace(s[|s| - 1]) then TrimEnd(s[..|s| - 1]) else s
  }

  function Trim(s: string): string { TrimEnd(TrimStart(s)) }

  /** Every `--` comment removed, newlines kept. */
  function DropLineComments(s: string, p: nat): string
    requires p <= |s|
    decreases |s| - p
  {
    if p == |s| then ""
    else if Dashes(s, p) then
      assert s[p] != '\n' && Find(s, '\n', p) == Find(s, '\n', p + 1);
      DropLineComments(s, Find(s, '\n', p))
    else [s[p]] + DropLineComments(s, p + 1)
  }

  /** Every terminated block comment removed. */
  function DropBlockComments(s: string, p: nat): string
    requires p <= |s|
    decreases |s| - p
  {
    if p == |s| then ""
    else if Opens(s, p) && Terminated(s, p + 2) then DropBlockComments(s, BlockEnd(s, p + 2))
    else [s[p]] + DropBlockComments(s, p + 1)
  }

  predicate Terminated(s: string, p: nat) { exists k :: p <= k < |s| && EndsAt(s, k) }

  function CodeOnly(s: string): string {
    Trim(DropBlockComments(DropLineComments(s, 0), 0))
  }

  /** A trimmed segment is a statement when something other than comments, dashes and space is in it. */
  predicate Keep(s: string) {
    var code := DropLineComments(s, 0);
    && s != "" && !AllSpace(code)
    && (exists k :: 0 <= k < |code| && code[k] != '-' && !IsSpace(code[k]))
    && CodeOnly(s) != ""
  }

  // ----- tokens

  /** Behind the closing quote of a string whose content starts at `p`, doubled quotes inside, or the
      end of the text. */
  function QuoteEnd(t: string, c: char, p: nat): (q: nat)
    requires p <= |t|
    ensures p <= q <= |t|
    decreases |t| - p
  {
    if p == |t| then p
    else if t[p] != c then QuoteEnd(t, c, p + 1)
    else if p + 1 < |t| && t[p + 1] == c then QuoteEnd(t, c, p + 2)
    else p + 1
  }

  /** The rest of a dollar tag: word characters, the first one no digit, and a dollar. */
  function TagRest(t: string, p: nat, started: bool): (q: nat)
    requires p <= |t|
    ensures q == 0 || p < q <= |t|
    decreases |t| - p
  {
    if p == |t| then 0
    else if t[p] == '$' then p + 1
    else if IsWordStart(t[p]) || (started && IsWordChar(t[p])) then TagRest(t, p + 1, true)
    else 0
  }

  /** The first occurrence of `tag` from `p` on, or the length. */
  function FindTag(t: string, tag: string, p: nat): (q: nat)
    requires p <= |t|
    ensures p <= q <= |t|
    ensures q < |t| ==> q + |tag| <= |t|
    decreases |t| - p
  {
    if p == |t| || At(t, p, tag) then p else FindTag(t, tag, p + 1)
  }

  function DollarEnd(t: string, p: nat): (q: nat)
    requires p < |t| && TagRest(t, p + 1, false) > 0
    ensures p < q <= |t|
  {
    var q := TagRest(t, p + 1, false);
    var e := FindTag(t, t[p..q], q);
    if e == |t| then e else e + (q - p)
  }

  /** Behind the token at `p`; neither a line comment nor a semicolon is a token. */
  function TokEnd(t: string, p: nat): (q: nat)
    requires p < |t|
    ensures p < q <= |t|
  {
    if Opens(t, p) then BlockEnd(t, p + 2)
    else if t[p] == '\'' || t[p] == '"' then QuoteEnd(t, t[p], p + 1)
    else if t[p] == '$' && TagRest(t, p + 1, false) > 0 then DollarEnd(t, p)
    else p + 1
  }

  /** The text between top-level semicolons, line comments left out. */
  function Segments(t: string, p: nat, cur: string): (r: seq<string>)
    requires p <= |t|
    ensures r != []
    decreases |t| - p
  {
    if p == |t| then [cur]
    else if Dashes(t, p) then
      assert t[p] != '\n' && Find(t, '\n', p) == Find(t, '\n', p + 1);
      Segments(t, Find(t, '\n', p), cur)
    else if t[p] == ';' then [cur] + Segments(t, p + 1, "")
    else Segments(t, TokEnd(t, p), cur + t[p..TokEnd(t, p)])
  }

  function Flush(cur: string): seq<string> {
    if Keep(Trim(cur)) then [Trim(cur)] else []
  }

  function FlushAll(segs: seq<string>): seq<string> {
    if segs == [] then [] else Flush(segs[0]) + FlushAll(segs[1..])
  }

  function Split(t: string): seq<string> {
    FlushAll(Segments(t, 0, ""))
  }

  // ----- transaction control

  function Capital(s: string): string {
    seq(|s|, i requires 0 <= i < |s| => Upper(s[i]))
  }

  /** Maximal runs of characters that are no white space, in capitals. */
  function Words(s: string, cur: string): seq<string> {
    if s == "" then if cur == "" then [] else [Capital(cur)]
    else if IsSpace(s[0]) then (if cur == "" then [] else [Capital(cur)]) + Words(s[1..], "")
    else Words(s[1..], cur + [s[0]])
  }

  function WithoutSemicolon(s: string): string {
    var u := TrimEnd(s);
    if u != "" && u[|u| - 1] == ';' then u[..|u| - 1] else u
  }

  /** `BEGIN`, `START TRANSACTION`, `COMMIT`, `END`, `ROLLBACK` or `ABORT`, with at most one of `WORK`,
      `TRANSACTION`, `AND [NO] CHAIN` behind it. */
  predicate ControlWords(w: seq<string>) {
    var n := if |w| >= 2 && w[0] == "START" && w[1] == "TRANSACTION" then 2
             else if w != [] && w[0] in {"BEGIN", "COMMIT", "END", "ROLLBACK", "ABORT"} then 1 else 0;
    n > 0 && w[n..] in {[], ["WORK"], ["TRANSACTION"], ["AND", "CHAIN"], ["AND", "NO", "CHAIN"]}
  }

  predicate IsTxControl(stmt: string) {
    ControlWords(Words(WithoutSemicolon(CodeOnly(stmt)), ""))
  }

  function NonControl(stmts: seq<string>): seq<string> {
    if stmts == [] then []
    else (if IsTxControl(stmts[0]) then [] else [stmts[0]]) + NonControl(stmts[1..])
  }

  function Join(stmts: seq<string>): string {
    if stmts == [] then "" else if |stmts| == 1 then stmts[0] else stmts[0] + (";\n" + Join(stmts[1..]))
  }

  function StripTxControl(sql: string): string {
    Join(NonControl(Split(sql)))
  }

  // ----- the splitter itself

  method ScanQuoted(sql: string, i: nat) returns (j: nat)
    requires i < |sql|
    ensures j == QuoteEnd(sql, sql[i], i + 1)
  {
    var c := sql[i];
    j := i + 1;
    while j < |sql| && (sql[j] != c || (j + 1 < |sql| && sql[j + 1] == c))
      invariant i < j <= |sql| && QuoteEnd(sql, c, i + 1) == QuoteEnd(sql, c, j)
    {
      if sql[j] == c { j := j + 2; } else { j := j + 1; }
    }
    if j < |sql| { j := j + 1; }
  }

  /** A semicolon ends the statement collected so far. */
  lemma AtSemicolon(sql: string, i: nat, cur: string)
    requires i < |sql| && sql[i] == ';' && !Dashes(sql, i)
    ensures FlushAll(Segments(sql, i, cur)) == Flush(cur) + FlushAll(Segments(sql, i + 1, ""))
  {
    var rest := Segments(sql, i + 1, "");
    assert ([cur] + rest)[1..] == rest;
    hide Flush;
  }

  lemma InsideStatement(sql: string, i: nat, cur: string)
    requires i < |sql| && (sql[i] != ';' || Dashes(sql, i))
    ensures var j := if Dashes(sql, i) then Find(sql, '\n', i) else TokEnd(sql, i);
      i < j <= |sql| && Segments(sql, i, cur) == Segments(sql, j, if Dashes(sql, i) then cur else cur + sql[i..j])
  {
    hide TokEnd;
    if Dashes(sql, i) { assert Find(sql, '\n', i) == Find(sql, '\n', i + 1); }
  }

  lemma Appended(a: seq<string>, b: seq<string>, c: seq<string>)
    ensures a + (b + c) == a + b + c
  {
  }

  lemma AtEnd(sql: string, cur: string)
    ensures FlushAll(Segments(sql, |sql|, cur)) == Flush(cur)
  {
    assert [cur][1..] == [] && Flush(cur) + [] == Flush(cur);
  }

  method SplitSqlStatements(sql: string) returns (stmts: seq<string>)
    ensures stmts == Split(sql)
  {
    stmts := [];
    var cur := "";
    var i := 0;
    assert [] + FlushAll(Segments(sql, 0, "")) == FlushAll(Segments(sql, 0, ""));
    assert Split(sql) == [] + FlushAll(Segments(sql, 0, ""));
    hide *;
    while i < |sql|
      invariant 0 <= i <= |sql|
      invariant Split(sql) == stmts + FlushAll(Segments(sql, i, cur))
    {
      if Dashes(sql, i) {
        InsideStatement(sql, i, cur);
        i := Find(sql, '\n', i);
      } else if sql[i] == ';' {
        AtSemicolon(sql, i, cur);
        Appended(stmts, Flush(cur), FlushAll(Segments(sql, i + 1, "")));
        stmts := stmts + Flush(cur);
        cur := "";
        i := i + 1;
      } else {
        InsideStatement(sql, i, cur);
        var j := NextToken(sql, i);
        cur := cur + sql[i..j];
        i := j;
      }
    }
    AtEnd(sql, cur);
    stmts := stmts + Flush(cur);
  }

  method NextToken(sql: string, i: nat) returns (j: nat)
    requires i < |sql|
    ensures j == TokEnd(sql, i)
  {
    if Opens(sql, i) {
      j := BlockEnd(sql, i + 2);
    } else if sql[i] == '\'' || sql[i] == '"' {
      j := ScanQuoted(sql, i);
    } else if sql[i] == '$' && TagRest(sql, i + 1, false) > 0 {
      j := DollarEnd(sql, i);
    } else {
      j := i + 1;
    }
  }
}
