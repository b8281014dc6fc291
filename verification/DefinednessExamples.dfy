/** Texts at the edges of what the tokenizer and the compile-commands reader can handle. */
module DefinednessExamples {
  import opened Tokens
  import opened JsmnParser
  import opened TokenTree
  import opened CommandText
  import opened CompileCommands
  import opened Definedness

  // ---- Following the filling pass, turn by turn ----

  lemma AtOpening(js: string, m: Machine, cap: nat, kind: Kind, m': Machine)
    requires InRange(m) && m.pos < |js| && js[m.pos] == (if kind == Object then '{' else '[') && IsContainer(kind)
    requires Open(m, kind, cap) == Next(m')
    ensures InRange(m') && m'.pos <= |js| && ParseEnd(js, m, cap) == ParseEnd(js, m', cap)
  {
    hide Open, InRange;
    assert Step(js, m, cap) == Next(m');
  }

  lemma AtClosing(js: string, m: Machine, cap: nat, kind: Kind, m': Machine)
    requires InRange(m) && m.pos < |js| && js[m.pos] == (if kind == Object then '}' else ']') && IsContainer(kind)
    requires Close(m, kind) == Next(m')
    ensures InRange(m') && m'.pos <= |js| && ParseEnd(js, m, cap) == ParseEnd(js, m', cap)
  {
    hide Close, InRange;
    assert Step(js, m, cap) == Next(m');
  }

  lemma AtPrimitive(js: string, m: Machine, cap: nat, q: nat, m': Machine)
    requires InRange(m) && m.pos < |js| && js[m.pos] in "a1" && ScanPrimitive(js, m.pos) == End(q)
    requires Leaf(m, Primitive, m.pos, q, q, cap) == Next(m')
    ensures InRange(m') && m'.pos <= |js| && ParseEnd(js, m, cap) == ParseEnd(js, m', cap)
  {
    hide Leaf, InRange, ScanPrimitive;
    assert Step(js, m, cap) == Next(m');
  }

  lemma AtString(js: string, m: Machine, cap: nat, q: nat, m': Machine)
    requires InRange(m) && m.pos < |js| && js[m.pos] == '"' && ScanString(js, m.pos + 1) == End(q)
    requires Leaf(m, Str, m.pos + 1, q, q + 1, cap) == Next(m')
    ensures InRange(m') && m'.pos <= |js| && ParseEnd(js, m, cap) == ParseEnd(js, m', cap)
  {
    hide Leaf, InRange, ScanString;
    assert Step(js, m, cap) == Next(m');
  }

  lemma AtColon(js: string, m: Machine, cap: nat, m': Machine)
    requires InRange(m) && m.pos < |js| && js[m.pos] == ':'
    requires m' == m.(pos := m.pos + 1, super := |m.toks| - 1)
    ensures InRange(m') && m'.pos <= |js| && ParseEnd(js, m, cap) == ParseEnd(js, m', cap)
  {
  }

  lemma AtMismatch(js: string, m: Machine, cap: nat)
    requires InRange(m) && m.pos < |js| && js[m.pos] == '}' && Close(m, Object).Stop?
    ensures ParseEnd(js, m, cap) == m
  {
    hide Close, InRange;
  }

  lemma AtEnd(js: string, m: Machine, cap: nat)
    requires InRange(m) && m.pos == |js|
    ensures ParseEnd(js, m, cap) == m
  {
  }

  // ---- A key without a value ----

  predicate IsValueless(js: string) {
    |js| == 5 && js[0] == '[' && js[1] == '{' && js[2] == 'a' && js[3] == '}' && js[4] == ']'
  }

  lemma ValuelessCounts(js: string)
    requires IsValueless(js)
    ensures CountPass(js, 0, 0) == 3
  {
    assert ScanPrimitive(js, 3) == End(3);
    assert ScanPrimitive(js, 2) == End(3);
    assert CountPass(js, 4, 3) == CountPass(js, 5, 3) == 3;
    assert CountPass(js, 2, 2) == CountPass(js, 3, 3) == 3;
  }

  const A0 := Token(Array, 0, -1, 0)
  const A1 := Token(Array, 0, -1, 1)
  const O0 := Token(Object, 1, -1, 0)
  const O1 := Token(Object, 1, -1, 1)

  /** `[{`, as far as all the examples begin. */
  lemma TwoOpened(js: string, cap: nat)
    requires |js| >= 2 && js[0] == '[' && js[1] == '{' && cap >= 2
    ensures ParseEnd(js, Start, cap) == ParseEnd(js, Machine(2, [A1, O0], 1, [0, 1]), cap)
  {
    var m1, m2 := Machine(1, [A0], 0, [0]), Machine(2, [A1, O0], 1, [0, 1]);
    assert Open(Start, Array, cap) == Next(m1);
    AtOpening(js, Start, cap, Array, m1);
    assert Open(m1, Object, cap) == Next(m2);
    AtOpening(js, m1, cap, Object, m2);
  }

  lemma ValuelessParses(js: string)
    requires IsValueless(js)
    ensures ParseEnd(js, Start, 3).toks == [Token(Array, 0, 5, 1), Token(Object, 1, 4, 1), Token(Primitive, 2, 3, 0)]
  {
    assert ScanPrimitive(js, 3) == End(3);
    assert ScanPrimitive(js, 2) == End(3);
    TwoOpened(js, 3);
    hide ParseEnd, ScanPrimitive;
    var a := Token(Primitive, 2, 3, 0);
    var m2, m3 := Machine(2, [A1, O0], 1, [0, 1]), Machine(3, [A1, O1, a], 1, [0, 1]);
    var m4 := Machine(4, [A1, Token(Object, 1, 4, 1), a], 0, [0]);
    var m5 := Machine(5, [Token(Array, 0, 5, 1), Token(Object, 1, 4, 1), a], -1, []);
    AtPrimitive(js, m2, 3, 3, m3);
    AtClosing(js, m3, 3, Object, m4);
    AtClosing(js, m4, 3, Array, m5);
    AtEnd(js, m5, 3);
  }

  /** On `[{a}]` both passes succeed, and the reader then looks for a value behind the last token. */
  lemma ValuelessIsUndefined(js: string)
    requires IsValueless(js)
    ensures CountPass(js, 0, 0) == 3 == |Left(js)| && ReadDocument(js) == Undefined
  {
    ValuelessCounts(js);
    ValuelessParses(js);
    hide CountPass, ParseEnd;
    DefinedIff(js);
    var toks := Left(js);
    assert toks[1].kind == Object && toks[1].size == 1;
    assert !HasValue(js, toks, 2);
    assert Pairs(js, toks, 2) == 0;
  }

  // ---- A bracket that does not match ----

  predicate IsMismatch(js: string) {
    |js| == 4 && js[0] == '[' && js[1] == '}' && js[2] == '1' && js[3] == ']'
  }

  /** On `[}1]` two tokens are counted and one is filled; the reader does not notice. */
  lemma MismatchIsUndefined(js: string)
    requires IsMismatch(js)
    ensures CountPass(js, 0, 0) == 2 && |Left(js)| == 1 && ReadDocument(js) == Undefined
  {
    assert ScanPrimitive(js, 3) == End(3);
    assert ScanPrimitive(js, 2) == End(3);
    assert CountPass(js, 3, 2) == CountPass(js, 4, 2) == 2;
    assert CountPass(js, 1, 1) == CountPass(js, 2, 1) == 2;
    var m1 := Machine(1, [A0], 0, [0]);
    assert Open(Start, Array, 2) == Next(m1);
    hide CountPass, ParseEnd, ScanPrimitive;
    AtOpening(js, Start, 2, Array, m1);
    AtMismatch(js, m1, 2);
    assert Left(js) == [A0];
    UnfilledIsUndefined(js);
  }

  // ---- A text that is cut off ----

  predicate IsCutOff(js: string) {
    |js| == 10 && js[0] == '[' && js[1] == '{' && js[2] == '"' && js[3..7] == "file" && js[7] == '"'
        && js[8] == ':' && js[9] == '1'
  }

  lemma CutOffScans(js: string)
    requires IsCutOff(js)
    ensures ScanString(js, 3) == End(7) && ScanPrimitive(js, 9) == End(10)
  {
    var w := "file";
    assert forall k | 0 <= k < 4 :: js[3 + k] == js[3..7][k] == w[k];
    assert ScanString(js, 7) == End(7);
    assert ScanString(js, 6) == ScanString(js, 5) == End(7) by { assert js[6] == w[3] && js[5] == w[2]; }
    assert ScanString(js, 4) == ScanString(js, 3) == End(7) by { assert js[4] == w[1] && js[3] == w[0]; }
    assert ScanPrimitive(js, 10) == End(10);
  }

  lemma CutOffCounts(js: string)
    requires IsCutOff(js)
    ensures CountPass(js, 0, 0) == 4
  {
    CutOffScans(js);
    hide ScanString, ScanPrimitive;
    assert CountPass(js, 9, 3) == CountPass(js, 10, 4) == 4;
    assert CountPass(js, 2, 2) == CountPass(js, 8, 3) == 4;
  }

  function CutOffToks(): seq<Token> { [A1, O1, Token(Str, 3, 7, 1), Token(Primitive, 9, 10, 0)] }

  lemma CutOffParses(js: string)
    requires IsCutOff(js)
    ensures ParseEnd(js, Start, 4).toks == CutOffToks()
  {
    CutOffScans(js);
    TwoOpened(js, 4);
    hide ParseEnd, ScanPrimitive, ScanString;
    var f := Token(Str, 3, 7, 0);
    var m2, m3 := Machine(2, [A1, O0], 1, [0, 1]), Machine(8, [A1, O1, f], 1, [0, 1]);
    AtString(js, m2, 4, 7, m3);
    var m4 := Machine(9, [A1, O1, f], 2, [0, 1]);
    AtColon(js, m3, 4, m4);
    var m5 := Machine(10, CutOffToks(), 2, [0, 1]);
    AtPrimitive(js, m4, 4, 10, m5);
    AtEnd(js, m5, 4);
  }

  /** On `[{"file":1` the filling pass fails, but it has filled all four tokens, and one command is read. */
  lemma CutOffIsRead(js: string)
    requires IsCutOff(js)
    ensures Parse(js, Start, 4).Stop? && CountPass(js, 0, 0) == 4
    ensures ReadDocument(js) == Parsed([Read("", "1", 0, "")])
  {
    CutOffCounts(js);
    CutOffParses(js);
    LeftIn(js);
    CutOffFails(js);
    hide CountPass, ParseEnd, Parse;
    var toks := CutOffToks();
    assert Left(js) == toks;
    CutOffField(js, toks);
    CutOffCommands(js, toks);
  }

  /** Had it succeeded, nothing would be open. */
  lemma CutOffFails(js: string)
    requires ParseEnd(js, Start, 4).toks == CutOffToks()
    ensures Parse(js, Start, 4).Stop?
  {
    hide ParseEnd, Parse;
    assert CutOffToks()[0].end == -1;
    if Parse(js, Start, 4).Next? {
      ParsedIsNested(js, 4);
    }
  }

  lemma CutOffField(js: string, toks: seq<Token>)
    requires IsCutOff(js) && toks == CutOffToks() && TokensIn(js, toks)
    ensures ReadField(js, toks, 2, Blank) == Fields(Blank.(file := "1"), 4)
  {
    assert Text(js, toks[2]) == "file" && Text(js, toks[3]) == "1";
    assert Unescape("1") == "1" by { assert "1"[1..] == ""; }
    assert |Text(js, toks[2])| == 4;
  }

  lemma CutOffCommands(js: string, toks: seq<Token>)
    requires toks == CutOffToks() && TokensIn(js, toks)
    requires ReadField(js, toks, 2, Blank) == Fields(Blank.(file := "1"), 4)
    ensures ReadCommands(js, toks, true, 1) == Parsed([Read("", "1", 0, "")])
  {
    hide ReadField;
    var c := Blank.(file := "1");
    assert ReadFields(js, toks, 4, 0, c) == Fields(c, 4);
    assert ReadFields(js, toks, 2, 1, Blank) == Fields(c, 4);
    assert ReadCommands(js, toks, true, 4) == Parsed([]);
  }

  // ---- What a token counts for, outside of JSON ----

  lemma AtComma(js: string, m: Machine, cap: nat, m': Machine)
    requires InRange(m) && m.pos < |js| && js[m.pos] == ',' && m' == Comma(m)
    ensures InRange(m') && m'.pos <= |js| && ParseEnd(js, m, cap) == ParseEnd(js, m', cap)
  {
    hide Comma, InRange;
    assert Step(js, m, cap) == Next(m');
  }

  predicate IsLoose(js: string) {
    |js| == 5 && js[0] == 'a' && js[1] == ':' && js[2] == 'a' && js[3] == ',' && js[4] == 'a'
  }

  /** On `a:a,a` the comma ends nothing, as no bracket is open: both later words count for the first one. */
  lemma LooseCommaEndsNothing(js: string)
    requires IsLoose(js)
    ensures ParseEnd(js, Start, 3).toks ==
      [Token(Primitive, 0, 1, 2), Token(Primitive, 2, 3, 0), Token(Primitive, 4, 5, 0)]
  {
    assert ScanPrimitive(js, 1) == End(1) && ScanPrimitive(js, 3) == End(3) && ScanPrimitive(js, 5) == End(5);
    assert ScanPrimitive(js, 0) == End(1) && ScanPrimitive(js, 2) == End(3) && ScanPrimitive(js, 4) == End(5);
    hide ParseEnd, ScanPrimitive;
    var a, b, c := Token(Primitive, 0, 1, 0), Token(Primitive, 2, 3, 0), Token(Primitive, 4, 5, 0);
    var m1 := Machine(1, [a], -1, []);
    AtPrimitive(js, Start, 3, 1, m1);
    var m2 := m1.(pos := 2, super := 0);
    AtColon(js, m1, 3, m2);
    var m3 := Machine(3, [a.(size := 1), b], 0, []);
    AtPrimitive(js, m2, 3, 3, m3);
    var m4 := m3.(pos := 4);
    AtComma(js, m3, 3, m4);
    var m5 := Machine(5, [a.(size := 2), b, c], 0, []);
    AtPrimitive(js, m4, 3, 5, m5);
    AtEnd(js, m5, 3);
  }

  predicate IsUnseparated(js: string) {
    |js| == 8 && js[0] == '{' && js[1] == 'a' && js[2] == ':' && js[3] == '[' && js[4] == '1' && js[5] == ']'
        && js[6] == 'a' && js[7] == '}'
  }

  lemma UnseparatedScans(js: string)
    requires IsUnseparated(js)
    ensures ScanPrimitive(js, 1) == End(2) && ScanPrimitive(js, 4) == End(5) && ScanPrimitive(js, 6) == End(7)
  {
    assert ScanPrimitive(js, 2) == End(2) && ScanPrimitive(js, 5) == End(5) && ScanPrimitive(js, 7) == End(7);
  }

  /** On `{a:[1]a}` the second word counts for the object, not for the key: what is behind a closing bracket counts for
      the container that is open then, with or without a comma. */
  lemma MissingCommaCounts(js: string)
    requires IsUnseparated(js)
    ensures ParseEnd(js, Start, 5).toks ==
      [Token(Object, 0, 8, 2), Token(Primitive, 1, 2, 1), Token(Array, 3, 6, 1), Token(Primitive, 4, 5, 0),
       Token(Primitive, 6, 7, 0)]
  {
    UnseparatedScans(js);
    hide ParseEnd, ScanPrimitive;
    var o, k, l := Token(Object, 0, -1, 0), Token(Primitive, 1, 2, 0), Token(Array, 3, -1, 0);
    var m1, m2 := Machine(1, [o], 0, [0]), Machine(2, [o.(size := 1), k], 0, [0]);
    assert Open(Start, Object, 5) == Next(m1);
    AtOpening(js, Start, 5, Object, m1);
    AtPrimitive(js, m1, 5, 2, m2);
    var m3 := Machine(3, [o.(size := 1), k], 1, [0]);
    AtColon(js, m2, 5, m3);
    var m4 := Machine(4, [o.(size := 1), k.(size := 1), l], 2, [0, 2]);
    assert Open(m3, Array, 5) == Next(m4);
    AtOpening(js, m3, 5, Array, m4);
    UnseparatedRest(js, m4);
  }

  lemma UnseparatedRest(js: string, m4: Machine)
    requires IsUnseparated(js) && m4 ==
      Machine(4, [Token(Object, 0, -1, 1), Token(Primitive, 1, 2, 1), Token(Array, 3, -1, 0)], 2, [0, 2])
    ensures ParseEnd(js, m4, 5).toks ==
      [Token(Object, 0, 8, 2), Token(Primitive, 1, 2, 1), Token(Array, 3, 6, 1), Token(Primitive, 4, 5, 0),
       Token(Primitive, 6, 7, 0)]
  {
    UnseparatedScans(js);
    hide ParseEnd, ScanPrimitive;
    var o, k, l := Token(Object, 0, -1, 1), Token(Primitive, 1, 2, 1), Token(Array, 3, 6, 1);
    var one, two := Token(Primitive, 4, 5, 0), Token(Primitive, 6, 7, 0);
    var m5, m6 := Machine(5, [o, k, l.(end := -1), one], 2, [0, 2]), Machine(6, [o, k, l, one], 0, [0]);
    AtPrimitive(js, m4, 5, 5, m5);
    AtClosing(js, m5, 5, Array, m6);
    var m7 := Machine(7, [o.(size := 2), k, l, one, two], 0, [0]);
    AtPrimitive(js, m6, 5, 7, m7);
    var m8 := Machine(8, [Token(Object, 0, 8, 2), k, l, one, two], -1, []);
    AtClosing(js, m7, 5, Object, m8);
    AtEnd(js, m8, 5);
  }
}
