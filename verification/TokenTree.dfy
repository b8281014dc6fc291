/** The tree the tokens of a successful parse form.  The tree is defined by recording, for each token, which
    container was innermost when the token was allocated; `skip_token` and `jsmn_skip` see only offsets. */
module TokenTree {
  import opened Tokens
  import opened JsmnParser

  /** The enclosing container of every token, -1 outside all containers. */
  ghost predicate ParentsOk(parents: seq<int>) {
    forall j: nat | j < |parents| :: -1 <= parents[j] < j
  }

  /** Token `j` is `i`, or lies in it. */
  ghost predicate Under(parents: seq<int>, i: int, j: int)
    requires ParentsOk(parents) && 0 <= i && j < |parents|
    decreases j
  {
    j == i || (j > i && Under(parents, i, parents[j]))
  }

  /** What a parse keeps about offsets and nesting.  `parents` is not part of the parser's state. */
  ghost predicate Laid(m: Machine, parents: seq<int>) {
    && Good(m) && ParentsOk(parents) && |parents| == |m.toks|
    && OffsetsOk(m)
    && ParentsEnclose(m.toks, parents)
    && (forall k, j | 0 <= k < |m.stack| && m.stack[k] <= j < |m.toks| :: Under(parents, m.stack[k], j))
    && Disjoint(m.toks, parents)
  }

  ghost predicate OffsetsOk(m: Machine) {
    && (forall i: nat | i < |m.toks| :: m.toks[i].start < m.pos)
    && (forall i: nat | i < |m.toks| && !IsOpen(m.toks[i]) :: m.toks[i].start <= m.toks[i].end <= m.pos)
    && (forall i, j | 0 <= i < j < |m.toks| :: m.toks[i].start < m.toks[j].start)
  }

  ghost predicate ParentsEnclose(toks: seq<Token>, parents: seq<int>)
    requires ParentsOk(parents) && |parents| == |toks|
  {
    forall j: nat | j < |toks| && parents[j] >= 0 && !IsOpen(toks[parents[j]]) ::
      !IsOpen(toks[j]) && toks[j].end < toks[parents[j]].end
  }

  ghost predicate Disjoint(toks: seq<Token>, parents: seq<int>)
    requires ParentsOk(parents) && |parents| == |toks|
  {
    forall i, j | 0 <= i < j < |toks| && !IsOpen(toks[i]) :: toks[i].end <= toks[j].start || Under(parents, i, j)
  }

  lemma {:induction false} UnderExtends(parents: seq<int>, p: int, i: int, j: int)
    requires ParentsOk(parents) && ParentsOk(parents + [p]) && 0 <= i && j < |parents|
    ensures Under(parents + [p], i, j) == Under(parents, i, j)
    decreases j
  {
    if j > i {
      assert (parents + [p])[j] == parents[j];
      UnderExtends(parents, p, i, parents[j]);
    }
  }

  /** The parent recorded for the next token. */
  function Recorded(m: Machine, m': Machine, parents: seq<int>): (r: seq<int>)
  {
    if |m'.toks| > |m.toks| then parents + [Top(m.stack)] else parents
  }

  /** `m'` is `m` with one more token, that starts at or after the position. */
  ghost predicate Appends(m: Machine, m': Machine, t: Token) {
    && -1 <= m.super < |m.toks|
    && m'.toks == Bump(m.toks, m.super) + [t] && m.pos <= t.start < m'.pos
    && (IsOpen(t) || t.start <= t.end <= m'.pos)
    && (m'.stack == m.stack || m'.stack == m.stack + [|m.toks|])
  }

  ghost predicate SameOffsets(old_: seq<Token>, new_: seq<Token>) {
    && |old_| <= |new_|
    && forall i: nat | i < |old_| :: new_[i].start == old_[i].start && new_[i].end == old_[i].end
  }

  lemma AppendsKeepsOffsets(m: Machine, m': Machine, t: Token)
    requires Appends(m, m', t)
    ensures |m'.toks| == |m.toks| + 1 && m'.toks[|m.toks|] == t && SameOffsets(m.toks, m'.toks)
  {
  }

  lemma LaidAppendOffsets(m: Machine, m': Machine, t: Token)
    requires OffsetsOk(m) && Appends(m, m', t)
    ensures OffsetsOk(m')
  {
    AppendsKeepsOffsets(m, m', t);
    hide Appends;
    assert m.pos < m'.pos by { assert Appends(m, m', t); }
  }

  ghost predicate SameBelow(parents: seq<int>, ps: seq<int>, n: nat) {
    && ParentsOk(parents) && ParentsOk(ps) && n <= |parents| && n <= |ps|
    && (forall j: nat | j < n :: ps[j] == parents[j])
    && forall i, j | 0 <= i && j < n :: Under(ps, i, j) == Under(parents, i, j)
  }

  lemma LaidAppendDisjoint(m: Machine, parents: seq<int>, toks': seq<Token>, ps: seq<int>)
    requires OffsetsOk(m) && |toks'| == |m.toks| + 1 == |ps| && |parents| == |m.toks| && SameOffsets(m.toks, toks')
    requires SameBelow(parents, ps, |m.toks|) && Disjoint(m.toks, parents) && m.pos <= toks'[|m.toks|].start
    ensures Disjoint(toks', ps)
  {
    forall i, j | 0 <= i < j < |toks'| && !IsOpen(toks'[i])
      ensures toks'[i].end <= toks'[j].start || Under(ps, i, j)
    {
      assert !IsOpen(m.toks[i]);
      if j < |m.toks| { assert Under(ps, i, j) == Under(parents, i, j); }
    }
  }

  lemma LaidAppendEnclose(m: Machine, parents: seq<int>, toks': seq<Token>, ps: seq<int>)
    requires Good(m) && |toks'| == |m.toks| + 1 == |ps| && |parents| == |m.toks| && SameOffsets(m.toks, toks')
    requires SameBelow(parents, ps, |m.toks|) && ParentsEnclose(m.toks, parents) && ps[|m.toks|] == Top(m.stack)
    ensures ParentsEnclose(toks', ps)
  {
    hide Under;
    forall j: nat | j < |toks'| && ps[j] >= 0 && !IsOpen(toks'[ps[j]])
      ensures !IsOpen(toks'[j]) && toks'[j].end < toks'[ps[j]].end
    {
      assert !IsOpen(m.toks[ps[j]]);
    }
  }

  lemma LaidAppend(m: Machine, parents: seq<int>, m': Machine, t: Token)
    requires Laid(m, parents) && Good(m') && Appends(m, m', t)
    ensures Laid(m', parents + [Top(m.stack)])
  {
    var ps := parents + [Top(m.stack)];
    assert ParentsOk(ps);
    forall i, j | 0 <= i && j < |m.toks| ensures Under(ps, i, j) == Under(parents, i, j) {
      UnderExtends(parents, Top(m.stack), i, j);
    }
    AppendsKeepsOffsets(m, m', t);
    LaidAppendOffsets(m, m', t);
    LaidAppendStack(m, parents, m');
    assert SameBelow(parents, ps, |m.toks|);
    hide OffsetsOk, ParentsEnclose, Disjoint, Under, StackOk;
    LaidAppendDisjoint(m, parents, m'.toks, ps);
    LaidAppendEnclose(m, parents, m'.toks, ps);
  }

  lemma LaidAppendStack(m: Machine, parents: seq<int>, m': Machine)
    requires Laid(m, parents) && Good(m') && |m'.toks| == |m.toks| + 1
    requires m'.stack == m.stack || m'.stack == m.stack + [|m.toks|]
    requires ParentsOk(parents + [Top(m.stack)])
    requires forall i, j | 0 <= i && j < |m.toks| :: Under(parents + [Top(m.stack)], i, j) == Under(parents, i, j)
    ensures forall k, j | 0 <= k < |m'.stack| && m'.stack[k] <= j < |m'.toks| ::
              Under(parents + [Top(m.stack)], m'.stack[k], j)
  {
    hide OffsetsOk, ParentsEnclose, Disjoint;
    var n := |m.toks|;
    var ps := parents + [Top(m.stack)];
    forall k, j | 0 <= k < |m'.stack| && m'.stack[k] <= j < |m'.toks| ensures Under(ps, m'.stack[k], j) {
      if j < n {
        assert m'.stack[k] == m.stack[k];
        assert Under(parents, m.stack[k], j);
      } else if k < |m.stack| {
        assert m'.stack[k] == m.stack[k];
        var top := m.stack[|m.stack| - 1];
        assert m.stack[k] <= top;
        assert Under(parents, m.stack[k], top);
        assert ps[n] == top;
      }
    }
  }

  /** Token `top`, and nothing after it, was open; now it ends at `end`. */
  ghost predicate Closes(toks: seq<Token>, toks': seq<Token>, top: nat, end: nat) {
    && top < |toks| && IsOpen(toks[top])
    && (forall j: nat | top < j < |toks| :: !IsOpen(toks[j]))
    && toks' == toks[top := toks[top].(end := end)]
  }

  lemma ClosesTop(m: Machine, kind: Kind)
    requires Good(m) && Close(m, kind).Next?
    ensures Closes(m.toks, Close(m, kind).m.toks, m.stack[|m.stack| - 1], m.pos + 1)
  {
    var top := m.stack[|m.stack| - 1];
    forall j: nat | top < j < |m.toks| ensures !IsOpen(m.toks[j]) {
      assert j !in m.stack;
    }
  }

  lemma CloseEncloses(toks: seq<Token>, toks': seq<Token>, top: nat, parents: seq<int>, pos: nat)
    requires Closes(toks, toks', top, pos + 1) && ParentsOk(parents) && |parents| == |toks|
    requires ParentsEnclose(toks, parents)
    requires forall i: nat | i < |toks| && !IsOpen(toks[i]) :: toks[i].end <= pos
    ensures ParentsEnclose(toks', parents)
  {
    forall j: nat | j < |toks'| && parents[j] >= 0 && !IsOpen(toks'[parents[j]])
      ensures !IsOpen(toks'[j]) && toks'[j].end < toks'[parents[j]].end
    {
      if parents[j] != top { assert !IsOpen(toks[parents[j]]); }
    }
  }

  lemma CloseDisjoint(toks: seq<Token>, toks': seq<Token>, top: nat, parents: seq<int>, pos: nat)
    requires Closes(toks, toks', top, pos + 1) && ParentsOk(parents) && |parents| == |toks|
    requires Disjoint(toks, parents)
    requires forall j | top <= j < |toks| :: Under(parents, top, j)
    ensures Disjoint(toks', parents)
  {
    forall i, j | 0 <= i < j < |toks'| && !IsOpen(toks'[i])
      ensures toks'[i].end <= toks'[j].start || Under(parents, i, j)
    {
      if i != top { assert !IsOpen(toks[i]); }
    }
  }

  lemma LaidClose(m: Machine, parents: seq<int>, kind: Kind)
    requires Laid(m, parents) && Close(m, kind).Next?
    ensures Laid(Close(m, kind).m, parents)
  {
    StackAfterClose(m, kind);
    ClosesTop(m, kind);
    hide Under, Disjoint, ParentsEnclose, StackOk;
    var m' := Close(m, kind).m;
    var top := m.stack[|m.stack| - 1];
    assert m.stack[|m.stack| - 1] == top;
    CloseEncloses(m.toks, m'.toks, top, parents, m.pos);
    CloseDisjoint(m.toks, m'.toks, top, parents, m.pos);
  }

  lemma StepKeepsLaid(js: string, m: Machine, parents: seq<int>, cap: nat)
    requires Laid(m, parents) && m.pos < |js| && js[m.pos] != Nul && Step(js, m, cap).Next?
    ensures Laid(Step(js, m, cap).m, Recorded(m, Step(js, m, cap).m, parents))
  {
    StepKeepsGood(js, m, cap);
    hide ScanString, ScanPrimitive, StackOk, Disjoint, ParentsEnclose, Under;
    var c := js[m.pos];
    var m' := Step(js, m, cap).m;
    if c == '{' || c == '[' {
      LaidAppend(m, parents, m', Token(if c == '{' then Object else Array, m.pos, -1, 0));
    } else if c == '}' || c == ']' {
      LaidClose(m, parents, if c == '}' then Object else Array);
    } else if c == '"' {
      LaidAppend(m, parents, m', Token(Str, m.pos + 1, ScanString(js, m.pos + 1).p, 0));
    } else if !EndsPrimitive(c) {
      LaidAppend(m, parents, m', Token(Primitive, m.pos, ScanPrimitive(js, m.pos).p, 0));
    } else {
      LaidMoves(m, m', parents);
    }
  }

  lemma LaidMoves(m: Machine, m': Machine, parents: seq<int>)
    requires Laid(m, parents) && Good(m') && m'.toks == m.toks && m'.stack == m.stack && m.pos <= m'.pos
    ensures Laid(m', parents)
  {
  }

  // ---- The whole parse ----

  /** The parents recorded by a parse from `m` on. */
  function Parents(js: string, m: Machine, parents: seq<int>, cap: nat): seq<int>
    requires InRange(m) && m.pos <= |js|
    decreases |js| - m.pos
  {
    if m.pos == |js| || js[m.pos] == Nul then parents
    else
      match Step(js, m, cap)
      case Stop(_) => parents
      case Next(m') => Parents(js, m', Recorded(m, m', parents), cap)
  }

  /** The tokens a parse from `m` on allocates while no token is there to count them. */
  function Roots(js: string, m: Machine, cap: nat): nat
    requires InRange(m) && m.pos <= |js|
    decreases |js| - m.pos
  {
    if m.pos == |js| || js[m.pos] == Nul then 0
    else
      match Step(js, m, cap)
      case Stop(_) => 0
      case Next(m') => (if |m'.toks| > |m.toks| && m.super == -1 then 1 else 0) + Roots(js, m', cap)
  }

  /** Wherever a parse ends, in success or not, what it leaves is laid out. */
  lemma {:induction false} EndIsLaid(js: string, m: Machine, parents: seq<int>, cap: nat)
    requires Laid(m, parents) && m.pos <= |js|
    ensures Laid(ParseEnd(js, m, cap), Parents(js, m, parents, cap))
    decreases |js| - m.pos
  {
    hide Step;
    if m.pos < |js| && js[m.pos] != Nul && Step(js, m, cap).Next? {
      StepKeepsLaid(js, m, parents, cap);
      var m' := Step(js, m, cap).m;
      EndIsLaid(js, m', Recorded(m, m', parents), cap);
    }
  }

  /** What the offsets of a finished token list say. */
  ghost predicate Nested(toks: seq<Token>) {
    && (forall i: nat | i < |toks| :: 0 <= toks[i].start <= toks[i].end)
    && (forall i, j | 0 <= i < j < |toks| :: toks[i].start < toks[j].start)
    && (forall i, j | 0 <= i < j < |toks| :: toks[i].end <= toks[j].start || toks[j].end < toks[i].end)
  }

  lemma {:induction false} UnderEndsInside(toks: seq<Token>, parents: seq<int>, i: nat, j: int)
    requires ParentsOk(parents) && |parents| == |toks| && ParentsEnclose(toks, parents)
    requires j < |toks| && Under(parents, i, j) && i < j && (forall k: nat | k < |toks| :: !IsOpen(toks[k]))
    ensures toks[j].end < toks[i].end
    decreases j
  {
    if parents[j] != i { UnderEndsInside(toks, parents, i, parents[j]); }
  }

  lemma ClosedIsNested(m: Machine, parents: seq<int>)
    requires Laid(m, parents) && m.stack == []
    ensures Nested(m.toks)
    ensures forall i, j | 0 <= i < j < |m.toks| :: Under(parents, i, j) <==> m.toks[j].start < m.toks[i].end
  {
    assert forall i: nat | i < |m.toks| :: !IsOpen(m.toks[i]);
    assert forall i: nat | i < |m.toks| :: 0 <= m.toks[i].start <= m.toks[i].end;
    forall i, j | 0 <= i < j < |m.toks|
      ensures Under(parents, i, j) <==> m.toks[j].start < m.toks[i].end
      ensures m.toks[i].end <= m.toks[j].start || m.toks[j].end < m.toks[i].end
    {
      hide Under, StackOk, OffsetsOk, ParentsEnclose;
      if Under(parents, i, j) { UnderEndsInside(m.toks, parents, i, j); }
    }
  }

  lemma LaidParents(m: Machine, parents: seq<int>)
    requires Laid(m, parents)
    ensures ParentsOk(parents) && |parents| == |m.toks|
  {
  }

  lemma StartIsLaid()
    ensures Laid(Start, [])
  {
  }

  /** A successful parse from a fresh parser: every token is closed, starts increase, intervals are nested or
      disjoint, and a later token lies in token `i` exactly if it starts before `i` ends. */
  lemma ParsedIsNested(js: string, cap: nat)
    requires Parse(js, Start, cap).Next?
    ensures var toks := Parse(js, Start, cap).m.toks;
            var parents := Parents(js, Start, [], cap);
            && Nested(toks) && ParentsOk(parents) && |parents| == |toks|
            && forall i, j | 0 <= i < j < |toks| :: Under(parents, i, j) <==> toks[j].start < toks[i].end
  {
    hide Parents, Under, Nested, Laid;
    StartIsLaid();
    EndIsLaid(js, Start, [], cap);
    assert Laid(Parse(js, Start, cap).m, Parents(js, Start, [], cap));
    LaidParents(Parse(js, Start, cap).m, Parents(js, Start, [], cap));
    hide Parse;
    ClosedIsNested(Parse(js, Start, cap).m, Parents(js, Start, [], cap));
  }

  // ---- Skipping ----

  /** The first token after `i` that starts at or behind its end. */
  ghost predicate SkipsTo(toks: seq<Token>, i: nat, next: int)
    requires i < |toks|
  {
    && i < next <= |toks|
    && (forall j | i < j < next :: toks[j].start < toks[i].end)
    && (next < |toks| ==> toks[next].start >= toks[i].end)
  }

  function SkipFrom(toks: seq<Token>, next: nat, end: int): (r: nat)
    requires next <= |toks|
    ensures next <= r <= |toks|
    decreases |toks| - next
  {
    if next < |toks| && toks[next].start < end then SkipFrom(toks, next + 1, end) else next
  }

  /** The same token, as a function. */
  function Skip(toks: seq<Token>, i: nat): (r: nat)
    requires i < |toks|
    ensures i < r <= |toks|
  {
    SkipFrom(toks, i + 1, toks[i].end)
  }

  lemma {:induction false} SkipsToIsSkip(toks: seq<Token>, i: nat, k: nat, next: nat)
    requires i < |toks| && i < k <= next && SkipsTo(toks, i, next)
    ensures next == SkipFrom(toks, k, toks[i].end)
    decreases next - k
  {
    if k < next { SkipsToIsSkip(toks, i, k + 1, next); }
  }

  /** `skip_token` of the compile-commands reader.  The tokens from `filled` on were never written; the skip goes no
      further, and what its caller makes of the place is the caller's. */
  method SkipToken(toks: array<Token>, filled: nat, current: nat) returns (next: nat)
    requires current < filled <= toks.Length
    ensures SkipsTo(toks[..filled], current, next) && next == Skip(toks[..filled], current)
  {
    var end := toks[current].end;
    next := current + 1;
    while next < filled && toks[next].start < end
      invariant current < next <= filled
      invariant forall j | current < j < next :: toks[j].start < end
    {
      next := next + 1;
    }
    SkipsToIsSkip(toks[..filled], current, current + 1, next);
  }

  /** `jsmn_skip` of the command line; it also stops at a token that starts at offset 0, but on a parsed text
      there is none behind another token. */
  method JsmnSkip(toks: array<Token>, current: nat) returns (next: int)
    requires forall i, j | 0 <= i < j < toks.Length :: toks[i].start < toks[j].start
    requires forall i: nat | i < toks.Length :: 0 <= toks[i].start
    ensures current >= toks.Length ==> next == current
    ensures current < toks.Length ==> SkipsTo(toks[..], current, next)
  {
    if current >= toks.Length { return current; }
    var end := toks[current].end;
    next := current + 1;
    while next < toks.Length && toks[next].start < end && toks[next].start != 0
      invariant current < next <= toks.Length
      invariant forall j | current < j < next :: toks[j].start < end
    {
      next := next + 1;
    }
  }

  /** Both helpers return the end of the token's subtree: the tokens in between are those that lie in it. */
  lemma SkipEndsSubtree(js: string, cap: nat, i: nat, next: int)
    requires Parse(js, Start, cap).Next?
    requires i < |Parse(js, Start, cap).m.toks| && SkipsTo(Parse(js, Start, cap).m.toks, i, next)
    ensures var parents := Parents(js, Start, [], cap);
            && ParentsOk(parents) && |parents| == |Parse(js, Start, cap).m.toks|
            && forall j: nat | j < |parents| :: Under(parents, i, j) <==> i <= j < next
  {
    ParsedIsNested(js, cap);
    hide Parse, Parents;
    var toks := Parse(js, Start, cap).m.toks;
    var parents := Parents(js, Start, [], cap);
    forall j: nat | j < |parents| ensures Under(parents, i, j) <==> i <= j < next {
      if next <= j { assert toks[next].start <= toks[j].start; }
    }
  }

  // ---- The sizes ----

  function SumSizes(toks: seq<Token>): int {
    if toks == [] then 0 else toks[0].size + SumSizes(toks[1..])
  }

  lemma {:induction false} SumSizesAppend(toks: seq<Token>, t: Token)
    ensures SumSizes(toks + [t]) == SumSizes(toks) + t.size
  {
    if toks != [] {
      assert (toks + [t])[1..] == toks[1..] + [t];
      SumSizesAppend(toks[1..], t);
    }
  }

  lemma {:induction false} SumSizesUpdate(toks: seq<Token>, i: nat, t: Token)
    requires i < |toks|
    ensures SumSizes(toks[i := t]) == SumSizes(toks) - toks[i].size + t.size
  {
    if i == 0 {
      assert toks[i := t][1..] == toks[1..];
    } else {
      assert toks[i := t][1..] == toks[1..][i - 1 := t];
      SumSizesUpdate(toks[1..], i - 1, t);
    }
  }

  lemma StepSizes(js: string, m: Machine, cap: nat)
    requires InRange(m) && m.pos < |js| && js[m.pos] != Nul && Step(js, m, cap).Next?
    ensures var m' := Step(js, m, cap).m;
            SumSizes(m'.toks) - |m'.toks| + (if |m'.toks| > |m.toks| && m.super == -1 then 1 else 0)
            == SumSizes(m.toks) - |m.toks|
  {
    hide ScanString, ScanPrimitive, SumSizes;
    var m' := Step(js, m, cap).m;
    if |m'.toks| > |m.toks| {
      if m.super != -1 {
        SumSizesUpdate(m.toks, m.super, m.toks[m.super].(size := m.toks[m.super].size + 1));
      }
      SumSizesAppend(Bump(m.toks, m.super), m'.toks[|m.toks|]);
      assert m'.toks == Bump(m.toks, m.super) + [m'.toks[|m.toks|]];
    } else if js[m.pos] == '}' || js[m.pos] == ']' {
      var top := m.stack[|m.stack| - 1];
      SumSizesUpdate(m.toks, top, m.toks[top].(end := m.pos + 1));
    }
  }

  /** Every token is counted once: in the size of the token it was allocated under, or as a root. */
  lemma {:induction false} SizesAddUp(js: string, m: Machine, cap: nat)
    requires InRange(m) && m.pos <= |js| && Parse(js, m, cap).Next?
    ensures var m' := Parse(js, m, cap).m;
            SumSizes(m'.toks) + Roots(js, m, cap) - |m'.toks| == SumSizes(m.toks) - |m.toks|
    decreases |js| - m.pos
  {
    hide Step, SumSizes;
    if m.pos < |js| && js[m.pos] != Nul {
      StepSizes(js, m, cap);
      SizesAddUp(js, Step(js, m, cap).m, cap);
    }
  }

  /** Sizing in two passes: the sizes and the roots account for all the tokens that were counted. */
  lemma TwoPassSizing(js: string)
    requires CountPass(js, 0, 0) >= 0 && Parse(js, Start, CountPass(js, 0, 0)).Next?
    ensures var n := CountPass(js, 0, 0);
            SumSizes(Parse(js, Start, n).m.toks) + Roots(js, Start, n) == n
  {
    var n := CountPass(js, 0, 0);
    SizesAddUp(js, Start, n);
    SizingIsExact(js, Start, n);
  }
}
