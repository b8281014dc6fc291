/** Which texts the tokenizer accepts: those whose brackets, outside strings and primitives, balance by type. */
module Brackets {
  import opened Tokens

  datatype Bracket = Bracket(kind: Kind, opening: bool)

  /** The balanced bracket strings, as a grammar: a forest of bracket pairs. */
  datatype Forest = Empty | Pair(kind: Kind, inside: Forest, rest: Forest)

  function Render(f: Forest): seq<Bracket> {
    match f
    case Empty => []
    case Pair(kind, inside, rest) => [Bracket(kind, true)] + Render(inside) + [Bracket(kind, false)] + Render(rest)
  }

  ghost predicate Balanced(s: seq<Bracket>) {
    exists f :: Render(f) == s
  }

  /** The brackets of `js` from `p` on that are in no string and no primitive. */
  function Skeleton(js: string, p: nat): seq<Bracket>
    requires p <= |js|
    decreases |js| - p
  {
    if p == |js| || js[p] == Nul then []
    else
      var c := js[p];
      if c == '{' || c == '[' then [Bracket(if c == '{' then Object else Array, true)] + Skeleton(js, p + 1)
      else if c == '}' || c == ']' then [Bracket(if c == '}' then Object else Array, false)] + Skeleton(js, p + 1)
      else if c == '"' then
        match ScanString(js, p + 1)
        case Bad(_) => []
        case End(q) => Skeleton(js, q + 1)
      else if c == '\t' || c == '\r' || c == '\n' || c == ' ' || c == ':' || c == ',' then Skeleton(js, p + 1)
      else
        match ScanPrimitive(js, p)
        case Bad(_) => []
        case End(q) => Skeleton(js, q)
  }

  // ---- A recogniser with a stack of kinds ----

  predicate Accepts(open: seq<Kind>, s: seq<Bracket>)
    decreases |s|
  {
    if s == [] then open == []
    else if s[0].opening then Accepts(open + [s[0].kind], s[1..])
    else open != [] && open[|open| - 1] == s[0].kind && Accepts(open[..|open| - 1], s[1..])
  }

  lemma {:induction false} AcceptsRendered(open: seq<Kind>, f: Forest, s: seq<Bracket>)
    ensures Accepts(open, Render(f) + s) == Accepts(open, s)
    decreases f
  {
    match f
    case Empty =>
      assert [] + s == s;
    case Pair(kind, inside, rest) =>
      var tail := [Bracket(kind, false)] + (Render(rest) + s);
      assert Render(f) + s == [Bracket(kind, true)] + (Render(inside) + tail);
      AcceptsRendered(open + [kind], inside, tail);
      assert (open + [kind])[..|open|] == open;
      assert tail[1..] == Render(rest) + s;
      AcceptsRendered(open, rest, s);
  }

  /** What follows when the brackets `open` are closed, with a forest behind each. */
  function Closing(open: seq<Kind>, fs: seq<Forest>): seq<Bracket>
    requires |fs| == |open|
    decreases |open|
  {
    if open == [] then []
    else [Bracket(open[|open| - 1], false)] + Render(fs[0]) + Closing(open[..|open| - 1], fs[1..])
  }

  /** A forest, then the closing of what is open. */
  function RenderAll(open: seq<Kind>, fs: seq<Forest>): seq<Bracket>
    requires |fs| == |open| + 1
  {
    Render(fs[0]) + Closing(open, fs[1..])
  }

  /** The first two forests, joined by their closing bracket, become one pair. */
  lemma RenderAllPair(open: seq<Kind>, kind: Kind, fs: seq<Forest>)
    requires |fs| == |open| + 2
    ensures RenderAll(open, [Pair(kind, fs[0], fs[1])] + fs[2..]) ==
        [Bracket(kind, true)] + RenderAll(open + [kind], fs)
  {
    assert (open + [kind])[..|open|] == open;
    var joined := [Pair(kind, fs[0], fs[1])] + fs[2..];
    assert joined[1..] == fs[1..][1..] == fs[2..];
    var o, c, f0, f1, rest := [Bracket(kind, true)], [Bracket(kind, false)], Render(fs[0]), Render(fs[1]),
        Closing(open, fs[2..]);
    assert Render(joined[0]) == o + f0 + c + f1;
    assert Closing(open + [kind], fs[1..]) == c + f1 + rest;
    Regroup(o, f0, c, f1, rest);
  }

  lemma Regroup(a: seq<Bracket>, b: seq<Bracket>, c: seq<Bracket>, d: seq<Bracket>, e: seq<Bracket>)
    ensures a + b + c + d + e == a + (b + (c + d + e))
  {
  }

  lemma {:induction false} AcceptedIsRendered(open: seq<Kind>, s: seq<Bracket>) returns (fs: seq<Forest>)
    requires Accepts(open, s)
    ensures |fs| == |open| + 1 && RenderAll(open, fs) == s
    decreases |s|
  {
    if s == [] {
      fs := [Empty];
    } else if s[0].opening {
      var more := AcceptedIsRendered(open + [s[0].kind], s[1..]);
      RenderAllPair(open, s[0].kind, more);
      fs := [Pair(s[0].kind, more[0], more[1])] + more[2..];
      assert s == [s[0]] + s[1..];
    } else {
      var more := AcceptedIsRendered(open[..|open| - 1], s[1..]);
      fs := [Empty] + more;
      assert fs[1..] == more;
    }
  }

  lemma AcceptsIffBalanced(s: seq<Bracket>)
    ensures Accepts([], s) <==> Balanced(s)
  {
    if Accepts([], s) {
      var fs := AcceptedIsRendered([], s);
      assert Render(fs[0]) == s;
    }
    if Balanced(s) {
      var f :| Render(f) == s;
      AcceptsRendered([], f, []);
      assert Render(f) + [] == s;
    }
  }

  // ---- The machine and the recogniser ----

  function Kinds(m: Machine): seq<Kind>
    requires forall k | 0 <= k < |m.stack| :: m.stack[k] < |m.toks|
  {
    seq(|m.stack|, k requires 0 <= k < |m.stack| => m.toks[m.stack[k]].kind)
  }

  lemma OpenKinds(m: Machine, kind: Kind, cap: nat)
    requires InRange(m) && Open(m, kind, cap).Next?
    ensures InRange(Open(m, kind, cap).m) && Kinds(Open(m, kind, cap).m) == Kinds(m) + [kind]
  {
  }

  lemma CloseKinds(m: Machine, kind: Kind)
    requires InRange(m) && Close(m, kind).Next?
    ensures var m' := Close(m, kind).m;
            InRange(m') && |Kinds(m)| > 0 && Kinds(m)[|Kinds(m)| - 1] == kind && Kinds(m') == Kinds(m)[..|Kinds(m)| - 1]
  {
  }

  lemma CloseRefused(m: Machine, kind: Kind)
    requires InRange(m) && Close(m, kind).Stop?
    ensures Kinds(m) == [] || Kinds(m)[|Kinds(m)| - 1] != kind
  {
  }

  lemma LeafKinds(m: Machine, kind: Kind, start: nat, end: nat, next: nat, cap: nat)
    requires InRange(m) && Leaf(m, kind, start, end, next, cap).Next?
    ensures InRange(Leaf(m, kind, start, end, next, cap).m) && Kinds(Leaf(m, kind, start, end, next, cap).m) == Kinds(m)
  {
  }

  lemma AcceptsBracket(open: seq<Kind>, b: Bracket, s: seq<Bracket>)
    ensures b.opening ==> Accepts(open, [b] + s) == Accepts(open + [b.kind], s)
    ensures !b.opening ==>
              Accepts(open, [b] + s) == (open != [] && open[|open| - 1] == b.kind && Accepts(open[..|open| - 1], s))
  {
    assert ([b] + s)[1..] == s;
  }

  predicate IsBracket(c: char) { c == '{' || c == '[' || c == '}' || c == ']' }

  lemma OpenAccepts(m: Machine, kind: Kind, cap: nat, rest: seq<Bracket>)
    requires InRange(m) && Open(m, kind, cap).Next?
    ensures InRange(Open(m, kind, cap).m)
    ensures Accepts(Kinds(m), [Bracket(kind, true)] + rest) == Accepts(Kinds(Open(m, kind, cap).m), rest)
  {
    OpenKinds(m, kind, cap);
    AcceptsBracket(Kinds(m), Bracket(kind, true), rest);
    hide Kinds, Accepts, Open;
  }

  lemma CloseAccepts(m: Machine, kind: Kind, rest: seq<Bracket>)
    requires InRange(m)
    ensures Close(m, kind).Stop? ==> !Accepts(Kinds(m), [Bracket(kind, false)] + rest)
    ensures Close(m, kind).Next? ==>
              && InRange(Close(m, kind).m)
              && Accepts(Kinds(m), [Bracket(kind, false)] + rest) == Accepts(Kinds(Close(m, kind).m), rest)
  {
    AcceptsBracket(Kinds(m), Bracket(kind, false), rest);
    if Close(m, kind).Next? { CloseKinds(m, kind); } else { CloseRefused(m, kind); }
    hide Kinds, Accepts, Close, InRange;
  }

  function KindOf(c: char): Kind { if c == '{' || c == '}' then Object else Array }

  predicate Opens(c: char) { c == '{' || c == '[' }

  /** What a bracket means to the machine and to the skeleton. */
  lemma AtBracket(js: string, m: Machine, cap: nat)
    requires InRange(m) && m.pos < |js| && IsBracket(js[m.pos])
    ensures js[m.pos] != Nul
    ensures Step(js, m, cap) ==
        if Opens(js[m.pos]) then Open(m, KindOf(js[m.pos]), cap) else Close(m, KindOf(js[m.pos]))
    ensures Skeleton(js, m.pos) == [Bracket(KindOf(js[m.pos]), Opens(js[m.pos]))] + Skeleton(js, m.pos + 1)
  {
    hide ScanString, ScanPrimitive, Open, Close, Leaf;
  }

  lemma OpenBracketAccepts(js: string, m: Machine, cap: nat, r: StepResult)
    requires InRange(m) && m.pos < |js| && IsBracket(js[m.pos]) && Opens(js[m.pos]) && |m.toks| < cap
    requires js[m.pos] != Nul && r == Step(js, m, cap)
    ensures r.Next? && InRange(r.m)
    ensures Accepts(Kinds(m), Skeleton(js, m.pos)) == Accepts(Kinds(r.m), Skeleton(js, r.m.pos))
  {
    AtBracket(js, m, cap);
    hide Step, Skeleton, Kinds, Accepts, KindOf;
    OpenAccepts(m, KindOf(js[m.pos]), cap, Skeleton(js, m.pos + 1));
  }

  lemma CloseBracketAccepts(js: string, m: Machine, cap: nat, r: StepResult)
    requires InRange(m) && m.pos < |js| && IsBracket(js[m.pos]) && !Opens(js[m.pos])
    requires js[m.pos] != Nul && r == Step(js, m, cap)
    ensures r.Stop? ==> !Accepts(Kinds(m), Skeleton(js, m.pos))
    ensures r.Next? ==>
      InRange(r.m) && Accepts(Kinds(m), Skeleton(js, m.pos)) == Accepts(Kinds(r.m), Skeleton(js, r.m.pos))
  {
    AtBracket(js, m, cap);
    hide Step, Skeleton, Kinds, Accepts, KindOf, Close;
    CloseAccepts(m, KindOf(js[m.pos]), Skeleton(js, m.pos + 1));
  }

  /** Other characters either stop the counting pass too, or leave the open brackets alone. */
  lemma OtherAccepts(js: string, m: Machine, cap: nat)
    requires InRange(m) && m.pos < |js| && js[m.pos] != Nul && !IsBracket(js[m.pos])
    requires CountPass(js, m.pos, |m.toks|) == cap
    ensures Step(js, m, cap).Next?
    ensures var m' := Step(js, m, cap).m;
            Kinds(m) == Kinds(m') && Skeleton(js, m.pos) == Skeleton(js, m'.pos)
  {
    hide ScanString, ScanPrimitive, Leaf, Kinds;
    CountStep(js, m, cap);
    var c := js[m.pos];
    if c == '"' {
      var q := ScanString(js, m.pos + 1).p;
      LeafKinds(m, Str, m.pos + 1, q, q + 1, cap);
    } else if !EndsPrimitive(c) {
      var q := ScanPrimitive(js, m.pos).p;
      LeafKinds(m, Primitive, m.pos, q, q, cap);
    } else {
      MovedKinds(m, Step(js, m, cap).m);
    }
  }

  lemma RoomForBracket(js: string, m: Machine, cap: nat)
    requires m.pos < |js| && Opens(js[m.pos]) && CountPass(js, m.pos, |m.toks|) == cap
    ensures |m.toks| < cap
  {
    CountPassMonotone(js, m.pos + 1, |m.toks| + 1);
  }

  /** One turn, when the counting pass has promised enough tokens: it fails exactly when the recogniser does. */
  lemma StepAccepts(js: string, m: Machine, cap: nat)
    requires InRange(m) && m.pos < |js| && js[m.pos] != Nul && CountPass(js, m.pos, |m.toks|) == cap
    ensures Step(js, m, cap).Stop? ==> !Accepts(Kinds(m), Skeleton(js, m.pos))
    ensures Step(js, m, cap).Next? ==>
              var m' := Step(js, m, cap).m;
              Accepts(Kinds(m), Skeleton(js, m.pos)) == Accepts(Kinds(m'), Skeleton(js, m'.pos))
  {
    hide Step, CountPass, Skeleton, Accepts, Kinds;
    var c, r := js[m.pos], Step(js, m, cap);
    if !IsBracket(c) {
      OtherAccepts(js, m, cap);
    } else if Opens(c) {
      RoomForBracket(js, m, cap);
      OpenBracketAccepts(js, m, cap, r);
    } else {
      CloseBracketAccepts(js, m, cap, r);
    }
  }

  lemma MovedKinds(m: Machine, m': Machine)
    requires InRange(m) && InRange(m') && m.toks == m'.toks && m.stack == m'.stack
    ensures Kinds(m') == Kinds(m)
  {
  }

  lemma {:induction false} ParseAccepts(js: string, m: Machine, cap: nat)
    requires InRange(m) && m.pos <= |js| && CountPass(js, m.pos, |m.toks|) == cap
    ensures Parse(js, m, cap).Next? <==> Accepts(Kinds(m), Skeleton(js, m.pos))
    decreases |js| - m.pos
  {
    hide Step;
    if m.pos < |js| && js[m.pos] != Nul {
      StepAccepts(js, m, cap);
      CountStep(js, m, cap);
      var s := Step(js, m, cap);
      if s.Next? { ParseAccepts(js, s.m, cap); }
    }
  }

  /** A text that the counting pass gets through is parsed, into exactly as many tokens as were counted, if and
      only if its brackets balance by type. */
  lemma ParsesIffBalanced(js: string)
    requires CountPass(js, 0, 0) >= 0
    ensures var n := CountPass(js, 0, 0);
            var r := Parse(js, Start, n);
            && (r.Next? <==> Balanced(Skeleton(js, 0)))
            && (r.Next? ==> |r.m.toks| == n)
  {
    var n := CountPass(js, 0, 0);
    ParseAccepts(js, Start, n);
    SizingIsExact(js, Start, n);
    assert Kinds(Start) == [];
    AcceptsIffBalanced(Skeleton(js, 0));
  }
}
