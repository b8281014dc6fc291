/** The tokenizer of `jsmn.h` as a reference machine: it keeps an explicit stack of open containers,
    which the code does not have. */
module Tokens {

  datatype Kind = Object | Array | Str | Primitive

  /** A token; an open container has `end == -1`. */
  datatype Token = Token(kind: Kind, start: int, end: int, size: nat)

  const NoMem := -1
  const Inval := -2
  const Part := -3

  const Nul: char := '\0'

  // ---- Lexical scanning ----

  datatype Scan = End(p: nat) | Bad(code: int)

  predicate IsHex(c: char) {
    '0' <= c <= '9' || 'A' <= c <= 'F' || 'a' <= c <= 'f'
  }

  predicate SimpleEscape(c: char) {
    c == '"' || c == '/' || c == '\\' || c == 'b' || c == 'f' || c == 'r' || c == 'n' || c == 't'
  }

  /** Up to `n` hexadecimal digits of a `\u` escape; it may be cut short by the end of the input. */
  function ScanHex(js: string, p: nat, n: nat): (r: Scan)
    requires p <= |js|
    ensures r.End? ==> p <= r.p <= |js|
    ensures r.Bad? ==> r.code == Inval
    decreases n
  {
    if n == 0 || p == |js| || js[p] == Nul then End(p)
    else if !IsHex(js[p]) then Bad(Inval)
    else ScanHex(js, p + 1, n - 1)
  }

  /** From inside a string to its closing quote. */
  function ScanString(js: string, p: nat): (r: Scan)
    requires p <= |js|
    ensures r.End? ==> p <= r.p < |js| && js[r.p] == '"'
    ensures r.Bad? ==> r.code == Inval || r.code == Part
    decreases |js| - p
  {
    if p == |js| || js[p] == Nul then Bad(Part)
    else if js[p] == '"' then End(p)
    else if js[p] == '\\' && p + 1 < |js| then
      if SimpleEscape(js[p + 1]) then ScanString(js, p + 2)
      else if js[p + 1] == 'u' then
        match ScanHex(js, p + 2, 4)
        case Bad(c) => Bad(c)
        case End(q) => ScanString(js, q)
      else Bad(Inval)
    else ScanString(js, p + 1)
  }

  predicate EndsPrimitive(c: char) {
    c == ':' || c == '\t' || c == '\r' || c == '\n' || c == ' ' || c == ',' || c == ']' || c == '}'
  }

  function ScanPrimitive(js: string, p: nat): (r: Scan)
    requires p <= |js|
    ensures r.End? ==> p <= r.p <= |js|
    ensures r.End? && p < |js| && js[p] != Nul && !EndsPrimitive(js[p]) ==> p < r.p
    ensures r.Bad? ==> r.code == Inval
    decreases |js| - p
  {
    if p == |js| || js[p] == Nul || EndsPrimitive(js[p]) then End(p)
    else if js[p] < ' ' || js[p] >= '\U{7f}' then Bad(Inval)
    else ScanPrimitive(js, p + 1)
  }

  // ---- The machine ----

  /** The position, the tokens allocated so far, the token whose `size` the next one counts for, and the
      open containers, outermost first. */
  datatype Machine = Machine(pos: nat, toks: seq<Token>, super: int, stack: seq<nat>)

  const Start := Machine(0, [], -1, [])

  ghost predicate InRange(m: Machine) {
    && -1 <= m.super < |m.toks|
    && forall k | 0 <= k < |m.stack| :: m.stack[k] < |m.toks|
  }

  function Bump(toks: seq<Token>, super: int): (r: seq<Token>)
    requires -1 <= super < |toks|
    ensures |r| == |toks|
  {
    if super == -1 then toks else toks[super := toks[super].(size := toks[super].size + 1)]
  }

  function Allocate(m: Machine, t: Token): Machine
    requires -1 <= m.super < |m.toks|
  {
    m.(toks := Bump(m.toks, m.super) + [t])
  }

  function Top(stack: seq<nat>): int {
    if stack == [] then -1 else stack[|stack| - 1]
  }

  datatype StepResult = Next(m: Machine) | Stop(code: int)

  function Open(m: Machine, kind: Kind, cap: nat): (r: StepResult)
    requires -1 <= m.super < |m.toks|
    ensures match r case Stop(code) => code == NoMem case Next(n) => |n.toks| == |m.toks| + 1 && n.pos == m.pos + 1
  {
    if |m.toks| >= cap then Stop(NoMem)
    else
      var m1 := Allocate(m, Token(kind, m.pos, -1, 0));
      Next(m1.(pos := m.pos + 1, super := |m.toks|, stack := m.stack + [|m.toks|]))
  }

  function Close(m: Machine, kind: Kind): (r: StepResult)
    requires forall k | 0 <= k < |m.stack| :: m.stack[k] < |m.toks|
    ensures match r case Stop(code) => code == Inval case Next(n) => |n.toks| == |m.toks| && n.pos == m.pos + 1
  {
    if m.stack == [] then Stop(Inval)
    else
      var top := m.stack[|m.stack| - 1];
      var rest := m.stack[..|m.stack| - 1];
      if m.toks[top].kind != kind then Stop(Inval)
      else Next(Machine(m.pos + 1, m.toks[top := m.toks[top].(end := m.pos + 1)], Top(rest), rest))
  }

  function Leaf(m: Machine, kind: Kind, start: nat, end: nat, next: nat, cap: nat): (r: StepResult)
    requires -1 <= m.super < |m.toks|
    ensures match r case Stop(code) => code == NoMem case Next(n) => |n.toks| == |m.toks| + 1 && n.pos == next
  {
    if |m.toks| >= cap then Stop(NoMem)
    else Next(Allocate(m, Token(kind, start, end, 0)).(pos := next))
  }

  predicate IsContainer(k: Kind) { k == Object || k == Array }

  function Comma(m: Machine): (r: Machine)
    requires -1 <= m.super < |m.toks|
    ensures r.toks == m.toks && r.pos == m.pos + 1
  {
    if m.super != -1 && !IsContainer(m.toks[m.super].kind) && m.stack != [] then
      m.(pos := m.pos + 1, super := Top(m.stack))
    else m.(pos := m.pos + 1)
  }

  /** One turn of the main loop of `jsmn_parse`. */
  function Step(js: string, m: Machine, cap: nat): (r: StepResult)
    requires InRange(m) && m.pos < |js| && js[m.pos] != Nul
    ensures r.Next? ==> InRange(r.m) && m.pos < r.m.pos <= |js|
  {
    var c := js[m.pos];
    if c == '{' then Open(m, Object, cap)
    else if c == '[' then Open(m, Array, cap)
    else if c == '}' then Close(m, Object)
    else if c == ']' then Close(m, Array)
    else if c == '"' then
      match ScanString(js, m.pos + 1)
      case Bad(code) => Stop(code)
      case End(q) => Leaf(m, Str, m.pos + 1, q, q + 1, cap)
    else if c == '\t' || c == '\r' || c == '\n' || c == ' ' then Next(m.(pos := m.pos + 1))
    else if c == ':' then Next(m.(pos := m.pos + 1, super := |m.toks| - 1))
    else if c == ',' then Next(Comma(m))
    else
      match ScanPrimitive(js, m.pos)
      case Bad(code) => Stop(code)
      case End(q) => Leaf(m, Primitive, m.pos, q, q, cap)
  }

  /** The whole parse from machine `m` on. */
  function Parse(js: string, m: Machine, cap: nat): (r: StepResult)
    requires InRange(m) && m.pos <= |js|
    ensures r.Next? ==> InRange(r.m) && r.m.stack == [] && r.m.pos <= |js|
    decreases |js| - m.pos
  {
    if m.pos == |js| || js[m.pos] == Nul then
      if m.stack == [] then Next(m) else Stop(Part)
    else
      match Step(js, m, cap)
      case Stop(code) => Stop(code)
      case Next(m') => Parse(js, m', cap)
  }

  /** Where a parse from `m` on ends, in success or in failure: a failing turn changes nothing. */
  function ParseEnd(js: string, m: Machine, cap: nat): (e: Machine)
    requires InRange(m) && m.pos <= |js|
    ensures InRange(e) && m.pos <= e.pos <= |js|
    ensures Parse(js, m, cap).Next? ==> e == Parse(js, m, cap).m
    decreases |js| - m.pos
  {
    if m.pos == |js| || js[m.pos] == Nul then m
    else
      match Step(js, m, cap)
      case Stop(_) => m
      case Next(m') => ParseEnd(js, m', cap)
  }

  // ---- The counting pass ----

  /** The pass without a token array: it counts tokens and looks at nothing else.  A negative result is an error. */
  function CountPass(js: string, p: nat, count: nat): int
    requires p <= |js|
    decreases |js| - p
  {
    if p == |js| || js[p] == Nul then count
    else
      var c := js[p];
      if c == '{' || c == '[' then CountPass(js, p + 1, count + 1)
      else if c == '"' then
        match ScanString(js, p + 1)
        case Bad(code) => code
        case End(q) => CountPass(js, q + 1, count + 1)
      else if c == '}' || c == ']' || c == '\t' || c == '\r' || c == '\n' || c == ' ' || c == ':' || c == ',' then
        CountPass(js, p + 1, count)
      else
        match ScanPrimitive(js, p)
        case Bad(code) => code
        case End(q) => CountPass(js, q, count + 1)
  }

  lemma {:induction false} CountPassMonotone(js: string, p: nat, count: nat)
    requires p <= |js|
    ensures CountPass(js, p, count) < 0 || count <= CountPass(js, p, count)
    decreases |js| - p
  {
    if p < |js| && js[p] != Nul {
      var c := js[p];
      if c == '"' {
        var s := ScanString(js, p + 1);
        if s.End? { CountPassMonotone(js, s.p + 1, count + 1); }
      } else if c == '{' || c == '[' {
        CountPassMonotone(js, p + 1, count + 1);
      } else if c == '}' || c == ']' || c == '\t' || c == '\r' || c == '\n' || c == ' ' || c == ':' || c == ',' {
        CountPassMonotone(js, p + 1, count);
      } else {
        var s := ScanPrimitive(js, p);
        if s.End? { CountPassMonotone(js, s.p, count + 1); }
      }
    }
  }

  /** If the counting pass finds `n` tokens, the filling pass with room for `n` never runs out of room, and
      when it succeeds it has filled exactly `n`. */
  lemma {:induction false} SizingIsExact(js: string, m: Machine, cap: nat)
    requires InRange(m) && m.pos <= |js| && CountPass(js, m.pos, |m.toks|) == cap
    ensures var r := Parse(js, m, cap);
            && (r.Stop? ==> r.code != NoMem)
            && (r.Next? ==> |r.m.toks| == cap)
    decreases |js| - m.pos
  {
    if m.pos < |js| && js[m.pos] != Nul {
      CountStep(js, m, cap);
      var s := Step(js, m, cap);
      if s.Next? { SizingIsExact(js, s.m, cap); }
    }
  }

  /** One step of the filling pass keeps pace with the counting pass. */
  lemma CountStep(js: string, m: Machine, cap: nat)
    requires InRange(m) && m.pos < |js| && js[m.pos] != Nul && CountPass(js, m.pos, |m.toks|) == cap
    ensures var s := Step(js, m, cap);
            && (s.Stop? ==> s.code != NoMem)
            && (s.Next? ==> CountPass(js, s.m.pos, |s.m.toks|) == cap)
  {
    hide ScanString, ScanPrimitive;
    var c := js[m.pos];
    if c == '{' || c == '[' {
      CountPassMonotone(js, m.pos + 1, |m.toks| + 1);
    } else if c == '"' {
      var s := ScanString(js, m.pos + 1);
      if s.End? { CountPassMonotone(js, s.p + 1, |m.toks| + 1); }
    } else if !EndsPrimitive(c) {
      var s := ScanPrimitive(js, m.pos);
      if s.End? { CountPassMonotone(js, s.p, |m.toks| + 1); }
    }
  }

  /** A text that is tokenized when there is room ends with -1, for want of memory, when there is less. */
  lemma {:induction false} LessRoomIsNoMem(js: string, m: Machine, room: nat, cap: nat)
    requires InRange(m) && m.pos <= |js| && Parse(js, m, room).Next?
    requires |m.toks| <= cap < |Parse(js, m, room).m.toks|
    ensures Parse(js, m, cap) == Stop(-1)
    decreases |js| - m.pos
  {
    hide Step;
    if m.pos < |js| && js[m.pos] != Nul {
      LessRoomStep(js, m, room, cap);
      if Step(js, m, cap).Next? { LessRoomIsNoMem(js, Step(js, m, room).m, room, cap); }
    }
  }

  lemma LessRoomStep(js: string, m: Machine, room: nat, cap: nat)
    requires InRange(m) && m.pos < |js| && js[m.pos] != Nul && |m.toks| <= cap && Step(js, m, room).Next?
    ensures Step(js, m, cap) == Stop(-1)
            || (Step(js, m, cap) == Step(js, m, room) && |Step(js, m, room).m.toks| <= cap)
  {
    hide ScanString, ScanPrimitive;
  }

  /** A parse that succeeds has filled as many tokens as the counting pass counts. */
  lemma {:induction false} ParseCounts(js: string, m: Machine, cap: nat)
    requires InRange(m) && m.pos <= |js| && Parse(js, m, cap).Next?
    ensures CountPass(js, m.pos, |m.toks|) == |Parse(js, m, cap).m.toks|
    decreases |js| - m.pos
  {
    hide Step;
    if m.pos < |js| && js[m.pos] != Nul {
      StepCounts(js, m, cap);
      ParseCounts(js, Step(js, m, cap).m, cap);
    }
  }

  lemma StepCounts(js: string, m: Machine, cap: nat)
    requires InRange(m) && m.pos < |js| && js[m.pos] != Nul && Step(js, m, cap).Next?
    ensures var m' := Step(js, m, cap).m;
            CountPass(js, m.pos, |m.toks|) == CountPass(js, m'.pos, |m'.toks|)
  {
    hide ScanString, ScanPrimitive;
  }
}
