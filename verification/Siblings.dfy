/** Sizes and siblings: a token never counts more children than there are tokens to step to behind it. */
module Siblings {
  import opened Tokens
  import opened JsmnParser
  import opened TokenTree

  /** The tokens met by skipping on from token `i`, up to the end or to the first that is still open. */
  function Run(toks: seq<Token>, i: nat): nat
    requires i <= |toks|
    decreases |toks| - i
  {
    if i == |toks| then 0 else if IsOpen(toks[i]) then 1 else 1 + Run(toks, Skip(toks, i))
  }

  /** Those of them that are closed. */
  function ClosedRun(toks: seq<Token>, i: nat): nat
    requires i <= |toks|
    decreases |toks| - i
  {
    if i == |toks| || IsOpen(toks[i]) then 0 else 1 + ClosedRun(toks, Skip(toks, i))
  }

  ghost predicate SizesFit(toks: seq<Token>) {
    forall v: nat | v < |toks| :: toks[v].size <= Run(toks, v + 1)
  }

  /** Behind the token that counts the next one, everything is closed. */
  ghost predicate NoneOpenBehind(toks: seq<Token>, super: int) {
    0 <= super ==> forall j: nat | super < j < |toks| :: !IsOpen(toks[j])
  }

  // ---- Skipping, when tokens are appended or closed ----

  lemma {:induction false} SameSkipFrom(toks: seq<Token>, toks': seq<Token>, next: nat, end: int)
    requires SameOffsets(toks, toks') && |toks'| == |toks| && next <= |toks|
    ensures SkipFrom(toks', next, end) == SkipFrom(toks, next, end)
    decreases |toks| - next
  {
    if next < |toks| { SameSkipFrom(toks, toks', next + 1, end); }
  }

  lemma {:induction false} SameRun(toks: seq<Token>, toks': seq<Token>, i: nat)
    requires SameOffsets(toks, toks') && |toks'| == |toks| && i <= |toks|
    ensures Run(toks', i) == Run(toks, i)
    decreases |toks| - i
  {
    if i < |toks| {
      SameSkipFrom(toks, toks', i + 1, toks[i].end);
      if !IsOpen(toks[i]) { SameRun(toks, toks', Skip(toks, i)); }
    }
  }

  lemma {:induction false} SkipFromAppend(toks: seq<Token>, t: Token, next: nat, end: int)
    requires next <= |toks| && end <= t.start
    ensures SkipFrom(toks + [t], next, end) == SkipFrom(toks, next, end)
    decreases |toks| - next
  {
    if next < |toks| { SkipFromAppend(toks, t, next + 1, end); }
  }

  /** A token that starts behind all closed ones lengthens the runs that no open token stops. */
  lemma {:induction false} RunAppend(toks: seq<Token>, t: Token, i: nat)
    requires i <= |toks| && forall j: nat | j < |toks| && !IsOpen(toks[j]) :: toks[j].end <= t.start
    ensures Run(toks + [t], i) >= Run(toks, i)
    ensures (forall j: nat | i <= j < |toks| :: !IsOpen(toks[j])) ==> Run(toks + [t], i) == Run(toks, i) + 1
    decreases |toks| - i
  {
    var toks' := toks + [t];
    if i < |toks| {
      assert toks'[i] == toks[i];
      if !IsOpen(toks[i]) {
        SkipFromAppend(toks, t, i + 1, toks[i].end);
        RunAppend(toks, t, Skip(toks, i));
      }
    } else {
      assert Run(toks', |toks'|) == 0;
    }
  }

  lemma {:induction false} SkipFromClose(toks: seq<Token>, toks': seq<Token>, top: nat, pos: nat, next: nat, end: int)
    requires Closes(toks, toks', top, pos) && next <= |toks|
    ensures SkipFrom(toks', next, end) == SkipFrom(toks, next, end)
    decreases |toks| - next
  {
    if next < |toks| { SkipFromClose(toks, toks', top, pos, next + 1, end); }
  }

  lemma {:induction false} RunClose(toks: seq<Token>, toks': seq<Token>, top: nat, pos: nat, i: nat)
    requires Closes(toks, toks', top, pos) && 0 <= pos && i <= |toks|
    ensures Run(toks', i) >= Run(toks, i)
    decreases |toks| - i
  {
    if i < |toks| && i != top && !IsOpen(toks[i]) {
      SkipFromClose(toks, toks', top, pos, i + 1, toks[i].end);
      RunClose(toks, toks', top, pos, Skip(toks, i));
    }
  }

  // ---- One turn ----

  lemma AppendFits(m: Machine, m': Machine, t: Token)
    requires OffsetsOk(m) && Appends(m, m', t) && t.size == 0
    requires SizesFit(m.toks) && NoneOpenBehind(m.toks, m.super)
    ensures SizesFit(m'.toks)
  {
    hide Run;
    var bumped := Bump(m.toks, m.super);
    assert SameOffsets(m.toks, bumped);
    ClosedEndBefore(m, bumped, t);
    forall v: nat | v < |m'.toks| ensures m'.toks[v].size <= Run(m'.toks, v + 1) {
      if v < |m.toks| { AppendFitsOne(m.toks, bumped, t, v, m.super); }
    }
  }

  lemma ClosedEndBefore(m: Machine, bumped: seq<Token>, t: Token)
    requires OffsetsOk(m) && m.pos <= t.start && |bumped| == |m.toks| && SameOffsets(m.toks, bumped)
    ensures forall j: nat | j < |bumped| && !IsOpen(bumped[j]) :: bumped[j].end <= t.start
  {
    forall j: nat | j < |bumped| && !IsOpen(bumped[j])
      ensures bumped[j].end <= t.start
    {
      assert !IsOpen(m.toks[j]);
    }
  }

  lemma AppendFitsOne(toks: seq<Token>, bumped: seq<Token>, t: Token, v: nat, super: int)
    requires |bumped| == |toks| && SameOffsets(toks, bumped) && v < |toks| && toks[v].size <= Run(toks, v + 1)
    requires bumped[v].size == toks[v].size + if super == v then 1 else 0
    requires NoneOpenBehind(toks, super)
    requires forall j: nat | j < |bumped| && !IsOpen(bumped[j]) :: bumped[j].end <= t.start
    ensures (bumped + [t])[v].size <= Run(bumped + [t], v + 1)
  {
    hide Run;
    SameRun(toks, bumped, v + 1);
    RunAppend(bumped, t, v + 1);
    if super == v {
      forall j: nat | v + 1 <= j < |bumped|
        ensures !IsOpen(bumped[j])
      {
        assert !IsOpen(toks[j]);
      }
    }
  }

  lemma ClosesFits(toks: seq<Token>, toks': seq<Token>, top: nat, end: nat)
    requires Closes(toks, toks', top, end) && SizesFit(toks)
    ensures SizesFit(toks')
  {
    hide Run;
    forall v: nat | v < |toks'| ensures toks'[v].size <= Run(toks', v + 1) {
      CloseFitsOne(toks, toks', top, end, v, v + 1);
    }
  }

  lemma CloseFitsOne(toks: seq<Token>, toks': seq<Token>, top: nat, end: nat, v: nat, next: nat)
    requires Closes(toks, toks', top, end) && v < next <= |toks| && toks[v].size <= Run(toks, next)
    ensures v < |toks'| == |toks| && toks'[v].size <= Run(toks', next)
  {
    hide Run;
    RunClose(toks, toks', top, end, next);
  }

  lemma CloseFits(m: Machine, kind: Kind)
    requires Good(m) && Close(m, kind).Next? && SizesFit(m.toks)
    ensures SizesFit(Close(m, kind).m.toks)
  {
    ClosesTop(m, kind);
    var top := m.stack[|m.stack| - 1];
    hide *;
    ClosesFits(m.toks, Close(m, kind).m.toks, top, m.pos + 1);
  }

  lemma NoneOpenBehindTop(toks: seq<Token>, stack: seq<nat>)
    requires StackOk(toks, stack)
    ensures NoneOpenBehind(toks, Top(stack))
  {
    if stack != [] {
      assert forall j: nat | Top(stack) < j < |toks| :: j !in stack;
    }
  }

  ghost predicate Fits(m: Machine) {
    SizesFit(m.toks) && NoneOpenBehind(m.toks, m.super)
  }

  lemma OpenFits(m: Machine, kind: Kind, cap: nat)
    requires InRange(m) && OffsetsOk(m) && Fits(m) && Open(m, kind, cap).Next?
    ensures Fits(Open(m, kind, cap).m)
  {
    hide OffsetsOk, SizesFit;
    AppendFits(m, Open(m, kind, cap).m, Token(kind, m.pos, -1, 0));
  }

  lemma LeafFits(m: Machine, kind: Kind, start: nat, end: nat, next: nat, cap: nat)
    requires InRange(m) && OffsetsOk(m) && Fits(m) && Leaf(m, kind, start, end, next, cap).Next?
    requires m.pos <= start <= end <= next && start < next
    ensures Fits(Leaf(m, kind, start, end, next, cap).m)
  {
    hide OffsetsOk, SizesFit;
    AppendFits(m, Leaf(m, kind, start, end, next, cap).m, Token(kind, start, end, 0));
  }

  lemma ClosingFits(m: Machine, kind: Kind)
    requires Good(m) && Fits(m) && Close(m, kind).Next?
    ensures Fits(Close(m, kind).m)
  {
    hide SizesFit, StackOk, NoneOpenBehind;
    StackAfterClose(m, kind);
    CloseFits(m, kind);
    NoneOpenBehindTop(Close(m, kind).m.toks, Close(m, kind).m.stack);
  }

  lemma MoveFits(m: Machine, m': Machine)
    requires Good(m) && Fits(m) && m'.toks == m.toks
    requires m'.super == m.super || m'.super == Top(m.stack) || m'.super == |m.toks| - 1
    ensures Fits(m')
  {
    NoneOpenBehindTop(m.toks, m.stack);
    hide SizesFit, StackOk;
  }

  /** What a turn is, by its character. */
  lemma TurnOf(js: string, m: Machine, cap: nat, m': Machine)
    requires InRange(m) && m.pos < |js| && js[m.pos] != Nul && Step(js, m, cap) == Next(m')
    ensures var c := js[m.pos];
            || Open(m, if c == '{' then Object else Array, cap) == Next(m')
            || Close(m, if c == '}' then Object else Array) == Next(m')
            || (exists kind, start: nat, end: nat, next: nat ::
                  m.pos <= start <= end <= next && start < next && Leaf(m, kind, start, end, next, cap) == Next(m'))
            || (m'.toks == m.toks && (m'.super == m.super || m'.super == Top(m.stack) || m'.super == |m.toks| - 1))
  {
    hide ScanString, ScanPrimitive, Open, Close, Leaf;
    var c := js[m.pos];
    if c == '"' {
      var q := ScanString(js, m.pos + 1).p;
      assert Leaf(m, Str, m.pos + 1, q, q + 1, cap) == Next(m');
    } else if !IsBracketOrBlank(c) {
      var q := ScanPrimitive(js, m.pos).p;
      assert Leaf(m, Primitive, m.pos, q, q, cap) == Next(m');
    }
  }

  predicate IsBracketOrBlank(c: char) {
    EndsPrimitive(c) || c == '{' || c == '['
  }

  lemma StepKeepsFits(js: string, m: Machine, cap: nat)
    requires Good(m) && OffsetsOk(m) && Fits(m) && m.pos < |js| && js[m.pos] != Nul && Step(js, m, cap).Next?
    ensures Fits(Step(js, m, cap).m)
  {
    var m' := Step(js, m, cap).m;
    TurnOf(js, m, cap, m');
    hide Step, Fits, OffsetsOk, Open, Close, Leaf, StackOk;
    var c := js[m.pos];
    var opens, closes := if c == '{' then Object else Array, if c == '}' then Object else Array;
    if Open(m, opens, cap) == Next(m') {
      OpenFits(m, opens, cap);
    } else if Close(m, closes) == Next(m') {
      ClosingFits(m, closes);
    } else if m'.toks == m.toks && (m'.super == m.super || m'.super == Top(m.stack) || m'.super == |m.toks| - 1) {
      MoveFits(m, m');
    } else {
      var kind, start: nat, end: nat, next: nat :|
        m.pos <= start <= end <= next && start < next && Leaf(m, kind, start, end, next, cap) == Next(m');
      LeafFits(m, kind, start, end, next, cap);
    }
  }

  /** Wherever a parse from a fresh parser ends: no token counts more children than can be stepped to behind it, and
      of those at most the last is still open. */
  lemma {:induction false} EndFits(js: string, m: Machine, parents: seq<int>, cap: nat)
    requires Laid(m, parents) && Fits(m) && m.pos <= |js|
    ensures Fits(ParseEnd(js, m, cap))
    decreases |js| - m.pos
  {
    hide Step, Laid, Fits;
    LaidParents(m, parents);
    LaidIsGood(m, parents);
    if m.pos < |js| && js[m.pos] != Nul && Step(js, m, cap).Next? {
      StepKeepsLaid(js, m, parents, cap);
      StepKeepsFits(js, m, cap);
      var m' := Step(js, m, cap).m;
      EndFits(js, m', Recorded(m, m', parents), cap);
    }
  }

  lemma LaidIsGood(m: Machine, parents: seq<int>)
    requires Laid(m, parents)
    ensures Good(m) && OffsetsOk(m)
  {
  }

  lemma {:induction false} RunAndClosedRun(toks: seq<Token>, i: nat)
    requires i <= |toks|
    ensures ClosedRun(toks, i) <= Run(toks, i) <= ClosedRun(toks, i) + 1
    ensures (forall j: nat | i <= j < |toks| :: !IsOpen(toks[j])) ==> Run(toks, i) == ClosedRun(toks, i)
    decreases |toks| - i
  {
    if i < |toks| && !IsOpen(toks[i]) { RunAndClosedRun(toks, Skip(toks, i)); }
  }
}
