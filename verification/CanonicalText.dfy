/** The canonical text is injective up to key order. */
module CanonicalText {
  import opened JsonText

  // ----- reading text from the front

  predicate Ends(u: string) {
    u == "" || u[0] == ',' || u[0] == ']' || u[0] == '}'
  }

  lemma Strip(p: string, x: string, y: string)
    requires p + x == p + y
    ensures x == y
  {
    assert (p + x)[|p|..] == x && (p + y)[|p|..] == y;
  }

  lemma CharAt(a: string, u: string, i: nat)
    ensures i < |a| ==> (a + u)[i] == a[i]
    ensures u != "" ==> (a + u)[|a|] == u[0]
  {
  }

  lemma NotShorter(a: string, b: string, u: string, v: string)
    requires a + u == b + v && Ends(u) && forall i :: 0 <= i < |b| ==> NumberChar(b[i])
    ensures |a| >= |b|
  {
    assert |a + u| == |a| + |u| && |b + v| == |b| + |v|;
    CharAt(a, u, 0);
    CharAt(b, v, |a|);
  }

  lemma NumberPrefix(a: string, b: string, u: string, v: string)
    requires a + u == b + v && Ends(u) && Ends(v)
    requires forall i :: 0 <= i < |a| ==> NumberChar(a[i])
    requires forall i :: 0 <= i < |b| ==> NumberChar(b[i])
    ensures a == b && u == v
  {
    NotShorter(a, b, u, v);
    NotShorter(b, a, v, u);
    assert a == (a + u)[..|a|] && b == (b + v)[..|b|];
    Strip(a, u, v);
  }

  /** The escapes are a prefix code, and none begins with the closing quote. */
  lemma EscapesDiffer(c: char, d: char, x: string, y: string)
    requires EscapeChar(c) + x == EscapeChar(d) + y
    ensures c == d && x == y
  {
    var p, q := EscapeChar(c), EscapeChar(d);
    assert (p + x)[0] == p[0] && (q + y)[0] == q[0];
    assert p[0] == q[0];
    assert |p| >= 2 ==> (p + x)[1] == p[1];
    assert |q| >= 2 ==> (q + y)[1] == q[1];
    if |p| == 6 && |q| == 6 {
      assert (p + x)[4] == p[4] && (q + y)[4] == q[4];
      assert (p + x)[5] == p[5] && (q + y)[5] == q[5];
      HexDiffer(c as int / 16, d as int / 16);
      HexDiffer(c as int % 16, d as int % 16);
    }
    assert c == d;
    Strip(p, x, y);
  }

  lemma HexDiffer(i: int, j: int)
    requires 0 <= i < 16 && 0 <= j < 16 && Hex[i] == Hex[j]
    ensures i == j
  {
  }

  lemma NotAQuote(c: char, x: string)
    ensures EscapeChar(c) + x != "" && (EscapeChar(c) + x)[0] != '"'
  {
  }

  lemma StartOfText(s: string, u: string)
    ensures s == "" ==> Escape(s) + ("\"" + u) == "\"" + u
    ensures s != "" ==> Escape(s) + ("\"" + u) == EscapeChar(s[0]) + (Escape(s[1..]) + ("\"" + u))
    ensures Escape(s) + ("\"" + u) != "" && ((Escape(s) + ("\"" + u))[0] == '"' <==> s == "")
  {
    hide EscapeChar;
    var end := "\"" + u;
    if s == "" {
      assert Escape(s) == "" && "" + end == end;
    } else {
      assert Escape(s) == EscapeChar(s[0]) + Escape(s[1..]);
      hide Escape;
      Regroup(EscapeChar(s[0]), Escape(s[1..]), end);
      NotAQuote(s[0], Escape(s[1..]) + end);
    }
  }

  lemma Regroup(a: string, b: string, c: string)
    ensures (a + b) + c == a + (b + c)
  {
  }

  lemma {:induction false} EscapePrefix(a: string, b: string, u: string, v: string)
    requires Escape(a) + ("\"" + u) == Escape(b) + ("\"" + v)
    ensures a == b && u == v
  {
    StartOfText(a, u);
    StartOfText(b, v);
    hide EscapeChar, Escape;
    if a == "" {
      Strip("\"", u, v);
    } else {
      EscapesDiffer(a[0], b[0], Escape(a[1..]) + ("\"" + u), Escape(b[1..]) + ("\"" + v));
      EscapePrefix(a[1..], b[1..], u, v);
      assert a == [a[0]] + a[1..] && b == [b[0]] + b[1..];
    }
  }

  lemma QuotePrefix(a: string, b: string, u: string, v: string)
    requires Quote(a) + u == Quote(b) + v
    ensures a == b && u == v
  {
    hide Escape;
    assert Quote(a) + u == "\"" + (Escape(a) + ("\"" + u));
    assert Quote(b) + v == "\"" + (Escape(b) + ("\"" + v));
    Strip("\"", Escape(a) + ("\"" + u), Escape(b) + ("\"" + v));
    EscapePrefix(a, b, u, v);
  }

  // ----- the first character tells the kind

  predicate Kind(c: char, j: Json) {
    match j
    case JNull => c == 'n'
    case JBool(b) => c == if b then 't' else 'f'
    case JNum(_) => c == '-' || '0' <= c <= '9'
    case JStr(_) => c == '"'
    case JArr(_) => c == '['
    case JObj(_) => c == '{'
  }

  lemma FirstChar(j: Json, u: string)
    requires Valid(j)
    ensures CanonicalJson(j) != "" && Kind((CanonicalJson(j) + u)[0], j)
  {
  }

  lemma KindsDiffer(c: char, a: Json, b: Json)
    requires Kind(c, a) && Kind(c, b)
    ensures (a.JNull? <==> b.JNull?) && (a.JBool? <==> b.JBool?) && (a.JNum? <==> b.JNum?) && (a.JStr? <==> b.JStr?)
    ensures (a.JArr? <==> b.JArr?) && (a.JObj? <==> b.JObj?) && (a.JBool? ==> a.b == b.b)
    ensures c != ']' && c != '}' && c != ','
  {
  }

  // ----- unique reading

  function ItemTail(j: Json, i: nat, u: string): string
    requires j.JArr? && i < |j.items|
  {
    if i + 1 == |j.items| then "]" + u else "," + (ItemsFrom(j, i + 1) + ("]" + u))
  }

  lemma ItemsAre(j: Json, i: nat, u: string)
    requires j.JArr? && i < |j.items|
    ensures ItemsFrom(j, i) + ("]" + u) == CanonicalJson(j.items[i]) + ItemTail(j, i, u)
    ensures Ends(ItemTail(j, i, u))
  {
    hide CanonicalJson;
  }

  function MemberTail(j: Json, keys: seq<string>, i: nat, u: string): string
    requires j.JObj? && i < |keys| && forall k :: k in keys ==> k in Keys(j.fields)
  {
    if i + 1 == |keys| then "}" + u else "," + (MembersFrom(j, keys, i + 1) + ("}" + u))
  }

  function ValueOf(j: Json, k: string): Json
    requires j.JObj? && k in Keys(j.fields)
  {
    j.fields[Find(j.fields, k)].value
  }

  lemma MembersAre(j: Json, keys: seq<string>, i: nat, u: string)
    requires j.JObj? && i < |keys| && forall k :: k in keys ==> k in Keys(j.fields)
    ensures MembersFrom(j, keys, i) + ("}" + u)
      == Quote(keys[i]) + (":" + (CanonicalJson(ValueOf(j, keys[i])) + MemberTail(j, keys, i, u)))
    ensures Ends(MemberTail(j, keys, i, u))
  {
    hide CanonicalJson, Quote;
  }

  lemma {:induction false} Prefix(a: Json, b: Json, u: string, v: string)
    requires Valid(a) && Valid(b) && Ends(u) && Ends(v)
    requires CanonicalJson(a) + u == CanonicalJson(b) + v
    ensures Same(a, b) && u == v
    decreases a, 2
  {
    FirstChar(a, u);
    FirstChar(b, v);
    KindsDiffer((CanonicalJson(a) + u)[0], a, b);
    match a
    case JNull => Strip("null", u, v);
    case JBool(x) => Strip(if x then "true" else "false", u, v);
    case JNum(t) => NumberPrefix(t, b.text, u, v);
    case JStr(s) => QuotePrefix(s, b.s, u, v);
    case JArr(_) => ArrayPrefix(a, b, u, v);
    case JObj(_) => ObjectPrefix(a, b, u, v);
  }

  lemma {:induction false} ArrayPrefix(a: Json, b: Json, u: string, v: string)
    requires a.JArr? && b.JArr? && Valid(a) && Valid(b) && Ends(u) && Ends(v)
    requires CanonicalJson(a) + u == CanonicalJson(b) + v
    ensures Same(a, b) && u == v
    decreases a, 1
  {
    assert CanonicalJson(a) + u == "[" + (ItemsFrom(a, 0) + ("]" + u));
    assert CanonicalJson(b) + v == "[" + (ItemsFrom(b, 0) + ("]" + v));
    Strip("[", ItemsFrom(a, 0) + ("]" + u), ItemsFrom(b, 0) + ("]" + v));
    ItemsPrefix(a, b, 0, u, v);
  }

  lemma {:induction false} ItemsPrefix(a: Json, b: Json, i: nat, u: string, v: string)
    requires a.JArr? && b.JArr? && Valid(a) && Valid(b) && i <= |a.items| && i <= |b.items|
    requires ItemsFrom(a, i) + ("]" + u) == ItemsFrom(b, i) + ("]" + v)
    ensures |a.items| == |b.items| && u == v
    ensures forall k :: i <= k < |a.items| ==> Same(a.items[k], b.items[k])
    decreases a, 0, |a.items| - i
  {
    StartOfItems(a, i, u);
    StartOfItems(b, i, v);
    if i == |a.items| {
      assert i == |b.items|;
      assert ItemsFrom(a, i) + ("]" + u) == "]" + u && ItemsFrom(b, i) + ("]" + v) == "]" + v;
      Strip("]", u, v);
    } else {
      ItemsAre(a, i, u);
      ItemsAre(b, i, v);
      Prefix(a.items[i], b.items[i], ItemTail(a, i, u), ItemTail(b, i, v));
      hide CanonicalJson, Same, Valid;
      assert ItemTail(a, i, u)[0] == if i + 1 == |a.items| then ']' else ',';
      assert ItemTail(b, i, v)[0] == if i + 1 == |b.items| then ']' else ',';
      if i + 1 == |a.items| {
        Strip("]", u, v);
      } else {
        Strip(",", ItemsFrom(a, i + 1) + ("]" + u), ItemsFrom(b, i + 1) + ("]" + v));
        ItemsPrefix(a, b, i + 1, u, v);
      }
    }
  }

  lemma StartOfItems(j: Json, i: nat, u: string)
    requires j.JArr? && Valid(j) && i <= |j.items|
    ensures ItemsFrom(j, i) + ("]" + u) != ""
    ensures (ItemsFrom(j, i) + ("]" + u))[0] == ']' <==> i == |j.items|
  {
    if i < |j.items| {
      ItemsAre(j, i, u);
      FirstChar(j.items[i], ItemTail(j, i, u));
    }
  }

  lemma ObjectText(j: Json, u: string)
    requires j.JObj?
    ensures CanonicalJson(j) + u == "{" + (MembersFrom(j, Sort(Keys(j.fields)), 0) + ("}" + u))
  {
    hide MembersFrom;
  }

  lemma {:induction false} ObjectPrefix(a: Json, b: Json, u: string, v: string)
    requires a.JObj? && b.JObj? && Valid(a) && Valid(b) && Ends(u) && Ends(v)
    requires CanonicalJson(a) + u == CanonicalJson(b) + v
    ensures Same(a, b) && u == v
    decreases a, 1
  {
    hide Sort, CanonicalJson, MembersFrom, Same, Valid, Ends;
    var ka, kb := Sort(Keys(a.fields)), Sort(Keys(b.fields));
    ObjectText(a, u);
    ObjectText(b, v);
    Strip("{", MembersFrom(a, ka, 0) + ("}" + u), MembersFrom(b, kb, 0) + ("}" + v));
    MembersPrefix(a, b, ka, kb, 0, u, v);
    assert ka == kb;
    SameMembers(a, b, ka);
  }

  lemma SameMembers(a: Json, b: Json, keys: seq<string>)
    requires a.JObj? && b.JObj? && Valid(a)
    requires forall k :: k in keys <==> k in Keys(a.fields)
    requires forall k :: k in keys <==> k in Keys(b.fields)
    requires forall k :: 0 <= k < |keys| ==> Same(ValueOf(a, keys[k]), ValueOf(b, keys[k]))
    ensures Same(a, b)
  {
    forall i | 0 <= i < |a.fields| && a.fields[i].key in Keys(b.fields)
      ensures Same(a.fields[i].value, b.fields[Find(b.fields, a.fields[i].key)].value)
    {
      var key := a.fields[i].key;
      assert Keys(a.fields)[i] == key;
      var k :| 0 <= k < |keys| && keys[k] == key;
      FindIs(a.fields, i);
    }
  }

  lemma FindIs(fields: seq<Field>, i: nat)
    requires i < |fields| && Distinct(Keys(fields))
    ensures fields[i].key in Keys(fields) && Find(fields, fields[i].key) == i
  {
    var keys := Keys(fields);
    assert keys[i] == fields[i].key;
    var f := Find(fields, fields[i].key);
    hide Find, Keys;
    assert keys[f] == keys[i];
  }

  lemma ValuesValid(j: Json, k: string)
    requires j.JObj? && Valid(j) && k in Keys(j.fields)
    ensures Valid(ValueOf(j, k))
  {
  }

  /** The next key is the same, and so is what follows it. */
  lemma NextMember(a: Json, b: Json, ka: seq<string>, kb: seq<string>, i: nat, u: string, v: string)
    requires a.JObj? && b.JObj? && i < |ka| && i < |kb|
    requires forall k :: k in ka ==> k in Keys(a.fields)
    requires forall k :: k in kb ==> k in Keys(b.fields)
    requires MembersFrom(a, ka, i) + ("}" + u) == MembersFrom(b, kb, i) + ("}" + v)
    ensures ka[i] == kb[i] && Ends(MemberTail(a, ka, i, u)) && Ends(MemberTail(b, kb, i, v))
    ensures CanonicalJson(ValueOf(a, ka[i])) + MemberTail(a, ka, i, u) == CanonicalJson(ValueOf(b, kb[i])) + MemberTail(b, kb, i, v)
  {
    MembersAre(a, ka, i, u);
    MembersAre(b, kb, i, v);
    hide CanonicalJson, Quote, MemberTail, MembersFrom, Ends;
    var x, y := ValueOf(a, ka[i]), ValueOf(b, kb[i]);
    var p, q := MemberTail(a, ka, i, u), MemberTail(b, kb, i, v);
    QuotePrefix(ka[i], kb[i], ":" + (CanonicalJson(x) + p), ":" + (CanonicalJson(y) + q));
    Strip(":", CanonicalJson(x) + p, CanonicalJson(y) + q);
  }

  /** Equal tails end both objects, or go on with equal members. */
  lemma TailsAgree(a: Json, b: Json, ka: seq<string>, kb: seq<string>, i: nat, u: string, v: string)
    requires a.JObj? && b.JObj? && i < |ka| && i < |kb|
    requires forall k :: k in ka ==> k in Keys(a.fields)
    requires forall k :: k in kb ==> k in Keys(b.fields)
    requires MemberTail(a, ka, i, u) == MemberTail(b, kb, i, v)
    ensures i + 1 == |ka| <==> i + 1 == |kb|
    ensures i + 1 == |ka| ==> u == v
    ensures i + 1 < |ka| ==> MembersFrom(a, ka, i + 1) + ("}" + u) == MembersFrom(b, kb, i + 1) + ("}" + v)
  {
    hide MembersFrom;
    var p, q := MemberTail(a, ka, i, u), MemberTail(b, kb, i, v);
    assert p[0] == if i + 1 == |ka| then '}' else ',';
    assert q[0] == if i + 1 == |kb| then '}' else ',';
    assert p[1..] == if i + 1 == |ka| then u else MembersFrom(a, ka, i + 1) + ("}" + u);
    assert q[1..] == if i + 1 == |kb| then v else MembersFrom(b, kb, i + 1) + ("}" + v);
  }

  /** The members from `i` on have the same keys and the same values. */
  predicate SameFrom(a: Json, b: Json, ka: seq<string>, kb: seq<string>, i: nat)
    requires a.JObj? && b.JObj?
    requires forall k :: k in ka ==> k in Keys(a.fields)
    requires forall k :: k in kb ==> k in Keys(b.fields)
  {
    |ka| == |kb| && forall k :: i <= k < |ka| ==> ka[k] == kb[k] && Same(ValueOf(a, ka[k]), ValueOf(b, kb[k]))
  }

  lemma {:induction false} MembersPrefix(a: Json, b: Json, ka: seq<string>, kb: seq<string>, i: nat, u: string, v: string)
    requires a.JObj? && b.JObj? && Valid(a) && Valid(b) && i <= |ka| && i <= |kb|
    requires forall k :: k in ka ==> k in Keys(a.fields)
    requires forall k :: k in kb ==> k in Keys(b.fields)
    requires MembersFrom(a, ka, i) + ("}" + u) == MembersFrom(b, kb, i) + ("}" + v)
    ensures SameFrom(a, b, ka, kb, i) && u == v
    decreases a, 0, |ka| - i
  {
    StartOfMembers(a, ka, i, u);
    StartOfMembers(b, kb, i, v);
    if i == |ka| {
      assert MembersFrom(a, ka, i) + ("}" + u) == "}" + u && MembersFrom(b, kb, i) + ("}" + v) == "}" + v;
      Strip("}", u, v);
    } else {
      NextMember(a, b, ka, kb, i, u, v);
      ValuesValid(a, ka[i]);
      ValuesValid(b, kb[i]);
      hide CanonicalJson, Same, Valid, Quote, MemberTail, MembersFrom, Ends;
      Prefix(ValueOf(a, ka[i]), ValueOf(b, kb[i]), MemberTail(a, ka, i, u), MemberTail(b, kb, i, v));
      TailsAgree(a, b, ka, kb, i, u, v);
      if i + 1 < |ka| { MembersPrefix(a, b, ka, kb, i + 1, u, v); }
    }
  }

  lemma StartOfMembers(j: Json, keys: seq<string>, i: nat, u: string)
    requires j.JObj? && i <= |keys| && forall k :: k in keys ==> k in Keys(j.fields)
    ensures MembersFrom(j, keys, i) + ("}" + u) != ""
    ensures (MembersFrom(j, keys, i) + ("}" + u))[0] == '}' <==> i == |keys|
  {
    if i < |keys| { MembersAre(j, keys, i, u); }
  }

  // ----- the other direction

  lemma {:induction false} SamePrintsSame(a: Json, b: Json)
    requires Valid(a) && Valid(b) && Same(a, b)
    ensures CanonicalJson(a) == CanonicalJson(b)
    decreases a, 2
  {
    match a
    case JArr(items) => SameItemsPrintSame(a, b, 0);
    case JObj(fields) =>
      var ka, kb := Sort(Keys(fields)), Sort(Keys(b.fields));
      SortOrdered(Keys(fields));
      SortOrdered(Keys(b.fields));
      SortedIsUnique(ka, kb);
      SameMembersPrintSame(a, b, ka, 0);
    case _ =>
  }

  lemma {:induction false} SameItemsPrintSame(a: Json, b: Json, i: nat)
    requires a.JArr? && b.JArr? && Valid(a) && Valid(b) && Same(a, b) && i <= |a.items|
    ensures ItemsFrom(a, i) == ItemsFrom(b, i)
    decreases a, 1, |a.items| - i
  {
    if i < |a.items| {
      SamePrintsSame(a.items[i], b.items[i]);
      hide CanonicalJson, Same, Valid;
      if i + 1 < |a.items| { SameItemsPrintSame(a, b, i + 1); }
    }
  }

  lemma {:induction false} SameMembersPrintSame(a: Json, b: Json, keys: seq<string>, i: nat)
    requires a.JObj? && b.JObj? && Valid(a) && Valid(b) && Same(a, b) && i <= |keys|
    requires forall k :: k in keys ==> k in Keys(a.fields) && k in Keys(b.fields)
    ensures MembersFrom(a, keys, i) == MembersFrom(b, keys, i)
    decreases a, 1, |keys| - i
  {
    if i < |keys| {
      SameValue(a, b, keys[i]);
      SamePrintsSame(ValueOf(a, keys[i]), ValueOf(b, keys[i]));
      hide CanonicalJson, Same, Valid, Quote;
      if i + 1 < |keys| { SameMembersPrintSame(a, b, keys, i + 1); }
    }
  }

  lemma SameValue(a: Json, b: Json, k: string)
    requires a.JObj? && b.JObj? && Valid(a) && Valid(b) && Same(a, b) && k in Keys(a.fields)
    ensures k in Keys(b.fields) && Same(ValueOf(a, k), ValueOf(b, k))
    ensures Valid(ValueOf(a, k)) && Valid(ValueOf(b, k))
  {
    var i := Find(a.fields, k);
    assert a.fields[i].key == k;
  }

  /** Two JSON values have the same canonical text exactly when they are equal up to the order of object keys. */
  lemma CanonicalTextExact(a: Json, b: Json)
    requires Valid(a) && Valid(b)
    ensures CanonicalJson(a) == CanonicalJson(b) <==> Same(a, b)
  {
    if CanonicalJson(a) == CanonicalJson(b) {
      assert CanonicalJson(a) + "" == CanonicalJson(b) + "";
      Prefix(a, b, "", "");
    }
    if Same(a, b) { SamePrintsSame(a, b); }
  }
}
