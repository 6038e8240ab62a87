/** Which transaction controls the recogniser knows, as texts, and what the others do to the engine's transaction. */
module TxControls {
  import opened Lexical
  import opened Outcomes
  import opened PatchStatements
  import opened SqlSplitter
  import opened SqlRoundTrip

  /** A word that neither ends a statement nor opens a comment. */
  predicate PlainWord(w: string) {
    w != "" && forall k :: 0 <= k < |w| ==> !IsSpace(w[k]) && w[k] != '-' && w[k] != '/' && w[k] != ';'
  }

  predicate PlainWords(ws: seq<string>) {
    forall i :: 0 <= i < |ws| ==> PlainWord(ws[i])
  }

  /** White space of any kind and length between the words. */
  predicate Gaps(ws: seq<string>, gaps: seq<string>) {
    |gaps| + 1 == |ws| && forall i :: 0 <= i < |gaps| ==> gaps[i] != "" && AllSpace(gaps[i])
  }

  function Spaced(ws: seq<string>, gaps: seq<string>): string
    requires Gaps(ws, gaps)
  {
    if |ws| == 1 then ws[0] else ws[0] + (gaps[0] + Spaced(ws[1..], gaps[1..]))
  }

  function Capitals(ws: seq<string>): seq<string> {
    seq(|ws|, i requires 0 <= i < |ws| => Capital(ws[i]))
  }

  // ----- reading the words of a text

  lemma {:induction false} NoLineComments(s: string, p: nat)
    requires p <= |s| && forall k :: 0 <= k < |s| ==> s[k] != '-'
    ensures DropLineComments(s, p) == s[p..]
    decreases |s| - p
  {
    if p < |s| {
      NoLineComments(s, p + 1);
      assert s[p..] == [s[p]] + s[p + 1..];
    }
  }

  lemma {:induction false} NoBlockComments(s: string, p: nat)
    requires p <= |s| && forall k :: 0 <= k < |s| ==> s[k] != '/'
    ensures DropBlockComments(s, p) == s[p..]
    decreases |s| - p
  {
    if p < |s| {
      NoBlockComments(s, p + 1);
      assert s[p..] == [s[p]] + s[p + 1..];
    }
  }

  /** What every character of a text of plain words is like. */
  predicate Bare(s: string) {
    s != "" && !IsSpace(s[0]) && !IsSpace(s[|s| - 1]) && s[|s| - 1] != ';' && forall k :: 0 <= k < |s| ==> s[k] != '-' && s[k] != '/'
  }

  lemma {:induction false} SpacedIsBare(ws: seq<string>, gaps: seq<string>)
    requires Gaps(ws, gaps) && PlainWords(ws)
    ensures Bare(Spaced(ws, gaps))
  {
    assert PlainWord(ws[0]);
    if |ws| > 1 {
      LaterWords(ws);
      SpacedIsBare(ws[1..], gaps[1..]);
      BareJoin(ws[0], gaps[0], Spaced(ws[1..], gaps[1..]));
    }
  }

  lemma LaterWords(ws: seq<string>)
    requires PlainWords(ws) && ws != []
    ensures PlainWords(ws[1..])
  {
    assert forall i :: 0 <= i < |ws| - 1 ==> ws[1..][i] == ws[i + 1];
  }

  lemma BareJoin(w: string, g: string, s: string)
    requires PlainWord(w) && AllSpace(g) && Bare(s)
    ensures Bare(w + (g + s))
  {
    var t := w + (g + s);
    assert t[0] == w[0] && t[|t| - 1] == s[|s| - 1];
    forall k | 0 <= k < |t| ensures t[k] != '-' && t[k] != '/' {
      if |w| <= k < |w| + |g| { assert t[k] == g[k - |w|]; }
      else if k >= |w| + |g| { assert t[k] == s[k - |w| - |g|]; }
    }
  }

  lemma BareIsCode(s: string)
    requires Bare(s)
    ensures WithoutSemicolon(CodeOnly(s)) == s
  {
    NoLineComments(s, 0);
    NoBlockComments(s, 0);
    assert s[0..] == s;
  }

  lemma {:induction false} WordsOfWord(w: string, rest: string, cur: string)
    requires forall k :: 0 <= k < |w| ==> !IsSpace(w[k])
    ensures Words(w + rest, cur) == Words(rest, cur + w)
    decreases |w|
  {
    if w == "" {
      assert w + rest == rest && cur + w == cur;
    } else {
      assert (w + rest)[0] == w[0] && (w + rest)[1..] == w[1..] + rest;
      WordsOfWord(w[1..], rest, cur + [w[0]]);
      assert cur + [w[0]] + w[1..] == cur + w;
    }
  }

  lemma {:induction false} WordsOfGap(g: string, rest: string, cur: string)
    requires g != "" && AllSpace(g)
    ensures Words(g + rest, cur) == (if cur == "" then [] else [Capital(cur)]) + Words(rest, "")
    decreases |g|
  {
    assert (g + rest)[0] == g[0] && (g + rest)[1..] == g[1..] + rest;
    if g[1..] == "" {
      assert g[1..] + rest == rest;
    } else {
      WordsOfGap(g[1..], rest, "");
      assert [] + Words(rest, "") == Words(rest, "");
    }
  }

  lemma {:induction false} WordsOfSpaced(ws: seq<string>, gaps: seq<string>)
    requires Gaps(ws, gaps) && PlainWords(ws)
    ensures Words(Spaced(ws, gaps), "") == Capitals(ws)
  {
    var w := ws[0];
    assert PlainWord(w);
    assert "" + w == w;
    if |ws| == 1 {
      assert w + "" == w;
      WordsOfWord(w, "", "");
    } else {
      LaterWords(ws);
      WordsOfSpaced(ws[1..], gaps[1..]);
      var rest := Spaced(ws[1..], gaps[1..]);
      WordsOfWord(w, gaps[0] + rest, "");
      WordsOfGap(gaps[0], rest, w);
      assert Capitals(ws) == [Capital(w)] + Capitals(ws[1..]);
    }
  }

  /** A text of plain words is transaction control exactly when its words are. */
  lemma TextIsControl(ws: seq<string>, gaps: seq<string>)
    requires Gaps(ws, gaps) && PlainWords(ws)
    ensures IsTxControl(Spaced(ws, gaps)) <==> ControlWords(Capitals(ws))
  {
    SpacedIsBare(ws, gaps);
    BareIsCode(Spaced(ws, gaps));
    WordsOfSpaced(ws, gaps);
    hide Words, CodeOnly, WithoutSemicolon, ControlWords, Spaced, Capitals;
  }

  const Heads := {["BEGIN"], ["START", "TRANSACTION"], ["COMMIT"], ["END"], ["ROLLBACK"], ["ABORT"]}
  const Tails := {[], ["WORK"], ["TRANSACTION"], ["AND", "CHAIN"], ["AND", "NO", "CHAIN"]}

  /** The forms the recogniser knows. */
  lemma RecognisedForms(w: seq<string>)
    ensures ControlWords(w) <==> exists head, tail :: head in Heads && tail in Tails && w == head + tail
  {
    if ControlWords(w) {
      var n := if |w| >= 2 && w[0] == "START" && w[1] == "TRANSACTION" then 2 else 1;
      assert w == w[..n] + w[n..];
      assert n == 2 ==> w[..n] == ["START", "TRANSACTION"];
      assert n == 1 ==> w[..n] == [w[0]];
      assert w[..n] in Heads && w[n..] in Tails;
    }
    forall head, tail | head in Heads && tail in Tails && w == head + tail ensures ControlWords(w) {
      FormRecognised(head, tail);
    }
  }

  lemma FormRecognised(head: seq<string>, tail: seq<string>)
    requires head in Heads && tail in Tails
    ensures ControlWords(head + tail)
  {
    var w := head + tail;
    assert w[0] == head[0] && w[|head|..] == tail;
    assert "START"[0] == 'S' && "BEGIN"[0] == 'B' && "COMMIT"[0] == 'C' && "END"[0] == 'E' && "ROLLBACK"[0] == 'R';
    if head == ["START", "TRANSACTION"] { assert w[1] == head[1]; } else { assert head[0][0] != 'S'; }
  }

  // ----- the controls that end a transaction

  /** `COMMIT`, `END`, `ROLLBACK` and `ABORT` take `WORK` or `TRANSACTION`, and then `AND [NO] CHAIN`. */
  predicate EndsTransaction(first: string, noise: seq<string>, chain: seq<string>) {
    first in {"COMMIT", "END", "ROLLBACK", "ABORT"} && noise in {[], ["WORK"], ["TRANSACTION"]}
    && chain in {[], ["AND", "CHAIN"], ["AND", "NO", "CHAIN"]}
  }

  lemma ControlExact(first: string, noise: seq<string>, chain: seq<string>)
    requires EndsTransaction(first, noise, chain)
    ensures ControlWords([first] + noise + chain) <==> noise == [] || chain == []
  {
    var w := [first] + noise + chain;
    assert first[0] != 'S';
    assert w[0] == first && w[1..] == noise + chain;
    if noise == [] { assert noise + chain == chain; }
    else if chain == [] { assert noise + chain == noise; }
    else { assert (noise + chain)[0] != "AND" && |noise + chain| >= 3; }
  }

  // ----- what a statement does to the transaction

  function WordsOf(s: string): seq<string> {
    Words(WithoutSemicolon(CodeOnly(s)), "")
  }

  predicate Prepares(w: seq<string>) {
    |w| >= 2 && w[0] == "PREPARE" && w[1] == "TRANSACTION"
  }

  predicate Opening(w: seq<string>) {
    w != [] && (w[0] == "BEGIN" || (|w| >= 2 && w[0] == "START" && w[1] == "TRANSACTION"))
  }

  /** The words behind `WORK` or `TRANSACTION`. */
  function Options(w: seq<string>): seq<string>
    requires w != []
  {
    if |w| >= 2 && w[1] in {"WORK", "TRANSACTION"} then w[2..] else w[1..]
  }

  predicate Ends(w: seq<string>) {
    w != [] && w[0] in {"COMMIT", "END", "ROLLBACK", "ABORT"} && Options(w) in {[], ["AND", "CHAIN"], ["AND", "NO", "CHAIN"]}
  }

  /** `PREPARE TRANSACTION` takes the effects out of the session without committing them. */
  function ControlStmt(w: seq<string>): Option<Stmt> {
    if Ends(w) then Some(EndTx(w[0] == "COMMIT" || w[0] == "END", Options(w) == ["AND", "CHAIN"]))
    else if Prepares(w) then Some(EndTx(false, false))
    else if Opening(w) then Some(OpenTx)
    else None
  }

  function Meant(s: string, tag: int): Stmt {
    var control := ControlStmt(WordsOf(s));
    if control.Some? then control.value else Effect(tag)
  }

  /** What the engine sends of a segment, its effects numbered. */
  function SentStmts(raw: string): seq<Stmt> {
    var ss := Split(StripTxControl(raw));
    seq(|ss|, i requires 0 <= i < |ss| => Meant(ss[i], i))
  }

  predicate BothOptions(w: seq<string>) {
    Ends(w) && |w| >= 2 && w[1] in {"WORK", "TRANSACTION"} && w[2..] != []
  }

  lemma EndsRecognised(w: seq<string>)
    requires Ends(w)
    ensures ControlWords(w) <==> !BothOptions(w)
  {
    assert w[0][0] != 'S';
    if |w| >= 2 && w[1] in {"WORK", "TRANSACTION"} {
      assert w[1..][0] == w[1] && w[1..] == [w[1]] + w[2..];
      assert "WORK" != "AND" && "TRANSACTION" != "AND";
      if w[2..] == [] { assert w[1..] == [w[1]]; } else { assert |w[1..]| >= 3; }
    }
  }

  /** The engine sends a control that ends its transaction exactly when that has both options or prepares, and `BEGIN` exactly
      when it says more than the recogniser expects; every other statement is an effect. */
  lemma SentControls(raw: string, i: nat)
    requires i < |SentStmts(raw)|
    ensures var w := WordsOf(Split(StripTxControl(raw))[i]);
      && (SentStmts(raw)[i].EndTx? <==> BothOptions(w) || Prepares(w))
      && (SentStmts(raw)[i].EndTx? && SentStmts(raw)[i].chain <==> BothOptions(w) && w[2..] == ["AND", "CHAIN"])
      && (SentStmts(raw)[i].OpenTx? <==> Opening(w) && !ControlWords(w))
  {
    StripIsClean(raw);
    var s := Split(StripTxControl(raw))[i];
    assert s in Split(StripTxControl(raw));
    var w := WordsOf(s);
    assert !ControlWords(w);
    hide Split, StripTxControl, CodeOnly, Words, WithoutSemicolon, ControlWords;
    if Ends(w) { EndsRecognised(w); }
    if Prepares(w) || Opening(w) { assert w[0][0] in {'P', 'B', 'S'}; }
    assert "COMMIT"[0] == 'C' && "END"[0] == 'E' && "ROLLBACK"[0] == 'R' && "ABORT"[0] == 'A';
  }

  /** A patch without such statements is harmless. */
  lemma PlainPatchHarmless(raw: string)
    requires forall s :: s in Split(raw) ==> IsTxControl(s) || ControlStmt(WordsOf(s)) == None
    ensures Harmless(SentStmts(raw))
  {
    StripKeepsTheRest(raw);
    NonControlMeans(Split(raw));
    hide Split, StripTxControl, CodeOnly, Words, WithoutSemicolon, IsTxControl, WordsOf, ControlStmt;
    var ss := Split(StripTxControl(raw));
    forall i | 0 <= i < |ss| ensures SentStmts(raw)[i].Effect? { assert ss[i] in ss; }
    NoControlsHarmless(SentStmts(raw));
  }

  /** A chained control before the effects leaves them and the registration to one transaction; behind an effect, or unchained,
      it does harm. */
  lemma ChainedBefore()
    ensures Harmless([EndTx(true, true), Effect(1)])
    ensures !Harmless([Effect(1), EndTx(true, true)]) && !Harmless([EndTx(true, false), Effect(1)])
  {
    var a, b, c := [EndTx(true, true), Effect(1)], [Effect(1), EndTx(true, true)], [EndTx(true, false), Effect(1)];
    assert b[0].Effect? && b[1].EndTx? && InTx(b, 1);
    assert Unchained(c[0]) && !Reopened(c, 0, 2);
  }

  /** In any letter case: such a statement is recognised exactly when it does not have both options; it chains exactly when
      its last words say so. */
  lemma SurvivingControls(ws: seq<string>, gaps: seq<string>, first: string, noise: seq<string>, chain: seq<string>)
    requires Gaps(ws, gaps) && PlainWords(ws) && Capitals(ws) == [first] + noise + chain && EndsTransaction(first, noise, chain)
    ensures IsTxControl(Spaced(ws, gaps)) <==> noise == [] || chain == []
    ensures Meant(Spaced(ws, gaps), 0) == EndTx(first == "COMMIT" || first == "END", chain == ["AND", "CHAIN"])
  {
    assert |ws| == |Capitals(ws)|;
    TextIsControl(ws, gaps);
    ControlExact(first, noise, chain);
    TextWords(ws, gaps);
    hide Spaced, Capitals, WordsOf, IsTxControl, PlainWords;
    OptionsAre(first, noise, chain);
  }

  lemma OptionsAre(first: string, noise: seq<string>, chain: seq<string>)
    requires EndsTransaction(first, noise, chain)
    ensures Options([first] + noise + chain) == chain
  {
    var w := [first] + noise + chain;
    if noise == [] {
      assert w[1..] == chain;
      assert chain != [] ==> w[1] == "AND" && w[1][0] == 'A';
    } else {
      assert w[1] == noise[0] && w[2..] == chain;
    }
  }

  lemma TextWords(ws: seq<string>, gaps: seq<string>)
    requires Gaps(ws, gaps) && PlainWords(ws)
    ensures WordsOf(Spaced(ws, gaps)) == Capitals(ws)
  {
    SpacedIsBare(ws, gaps);
    BareIsCode(Spaced(ws, gaps));
    WordsOfSpaced(ws, gaps);
  }

  /** `PREPARE TRANSACTION` ends the session's transaction too, and is never recognised. */
  lemma PrepareSurvives(ws: seq<string>, gaps: seq<string>)
    requires Gaps(ws, gaps) && PlainWords(ws) && Capital(ws[0]) == "PREPARE"
    ensures !IsTxControl(Spaced(ws, gaps))
  {
    TextIsControl(ws, gaps);
    var w := Capitals(ws);
    assert w[0] == "PREPARE" && "PREPARE"[0] == 'P';
    assert forall x :: x in {"START", "BEGIN", "COMMIT", "END", "ROLLBACK", "ABORT"} ==> x[0] != 'P';
    hide Capital;
  }
}
