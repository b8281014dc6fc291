/** The tokenizer itself.  It keeps no stack: the open container is found by scanning the token array
    backwards.  Every method is proved against the reference machine of `Tokens`. */
module JsmnParser {
  import opened Tokens

  predicate IsOpen(t: Token) { t.start != -1 && t.end == -1 }

  /** What a stackless scan relies on: the open tokens are exactly the ones on the stack, in order. */
  ghost predicate StackOk(toks: seq<Token>, stack: seq<nat>) {
    && (forall k | 0 <= k < |stack| :: stack[k] < |toks| && IsContainer(toks[stack[k]].kind) && IsOpen(toks[stack[k]]))
    && (forall k, l | 0 <= k < l < |stack| :: stack[k] < stack[l])
    && (forall i: nat | i < |toks| && IsOpen(toks[i]) :: i in stack)
    && (forall i: nat | i < |toks| :: toks[i].start >= 0)
  }

  ghost predicate LastOpenIs(toks: seq<Token>, i: int) {
    && -1 <= i < |toks|
    && (i >= 0 ==> IsOpen(toks[i]))
    && forall j | i < j < |toks| :: !IsOpen(toks[j])
  }

  /** The backward scan finds the top of the stack it does not have. */
  lemma LastOpenIsTop(toks: seq<Token>, stack: seq<nat>, i: int)
    requires StackOk(toks, stack) && LastOpenIs(toks, i)
    ensures i == Top(stack) && (i == -1 <==> stack == [])
  {
    if stack != [] {
      var top := stack[|stack| - 1];
      assert IsOpen(toks[top]);
      assert i >= top;
      var k :| 0 <= k < |stack| && stack[k] == i;
    }
  }

  lemma StackAfterOpen(m: Machine, kind: Kind, cap: nat)
    requires InRange(m) && StackOk(m.toks, m.stack) && IsContainer(kind) && Open(m, kind, cap).Next?
    ensures var m' := Open(m, kind, cap).m; StackOk(m'.toks, m'.stack)
  {
    var m' := Open(m, kind, cap).m;
    forall i: nat | i < |m'.toks| && IsOpen(m'.toks[i]) ensures i in m'.stack {
      if i < |m.toks| {
        assert IsOpen(m.toks[i]);
        assert i in m.stack;
      } else {
        assert m'.stack[|m.stack|] == i;
      }
    }
  }

  lemma StackAfterLeaf(m: Machine, kind: Kind, start: nat, end: nat, next: nat, cap: nat)
    requires InRange(m) && StackOk(m.toks, m.stack) && Leaf(m, kind, start, end, next, cap).Next?
    ensures var m' := Leaf(m, kind, start, end, next, cap).m; StackOk(m'.toks, m'.stack)
  {
    var m' := Leaf(m, kind, start, end, next, cap).m;
    forall i: nat | i < |m'.toks| && IsOpen(m'.toks[i]) ensures i in m'.stack {
      assert IsOpen(m.toks[i]);
    }
  }

  lemma StackAfterClose(m: Machine, kind: Kind)
    requires InRange(m) && StackOk(m.toks, m.stack) && Close(m, kind).Next?
    ensures var m' := Close(m, kind).m; StackOk(m'.toks, m'.stack)
  {
    var m' := Close(m, kind).m;
    forall i: nat | i < |m'.toks| && IsOpen(m'.toks[i]) ensures i in m'.stack {
      assert IsOpen(m.toks[i]);
      var k :| 0 <= k < |m.stack| && m.stack[k] == i;
      assert m'.stack[k] == i;
    }
  }

  /** A machine that can arise: in range, and its stack is the open tokens. */
  ghost predicate Good(m: Machine) {
    InRange(m) && StackOk(m.toks, m.stack)
  }

  lemma StepKeepsGood(js: string, m: Machine, cap: nat)
    requires Good(m) && m.pos < |js| && js[m.pos] != Nul && Step(js, m, cap).Next?
    ensures Good(Step(js, m, cap).m)
  {
    hide ScanString, ScanPrimitive, StackOk, Open, Close, Leaf;
    var c := js[m.pos];
    if c == '{' { StackAfterOpen(m, Object, cap); }
    else if c == '[' { StackAfterOpen(m, Array, cap); }
    else if c == '}' { StackAfterClose(m, Object); }
    else if c == ']' { StackAfterClose(m, Array); }
    else if c == '"' {
      var q := ScanString(js, m.pos + 1).p;
      StackAfterLeaf(m, Str, m.pos + 1, q, q + 1, cap);
    } else if !EndsPrimitive(c) {
      var q := ScanPrimitive(js, m.pos).p;
      StackAfterLeaf(m, Primitive, m.pos, q, q, cap);
    }
  }

  class Parser {
    var pos: nat
    var toknext: nat
    var toksuper: int

    constructor ()
      ensures pos == 0 && toknext == 0 && toksuper == -1
    {
      pos, toknext, toksuper := 0, 0, -1;
    }

    /** The fields and the filled part of the array are machine `m`, without its stack. */
    ghost predicate Is(m: Machine, tokens: array<Token>)
      reads this, tokens
    {
      && pos == m.pos && toknext == |m.toks| <= tokens.Length
      && tokens[..toknext] == m.toks && toksuper == m.super
    }

    /** The scan for the innermost open token at or below `from`. */
    method LastOpen(tokens: array<Token>, from: int) returns (i: int)
      requires -1 <= from < tokens.Length
      ensures -1 <= i <= from && (i >= 0 ==> IsOpen(tokens[i]))
      ensures forall j | i < j <= from :: !IsOpen(tokens[j])
    {
      i := from;
      while i >= 0
        invariant -1 <= i <= from
        invariant forall j | i < j <= from :: !IsOpen(tokens[j])
      {
        if tokens[i].start != -1 && tokens[i].end == -1 { return; }
        i := i - 1;
      }
    }

    method OpenBracket(tokens: array<Token>, kind: Kind, ghost m: Machine) returns (r: int)
      requires Good(m) && Is(m, tokens) && IsContainer(kind)
      modifies this, tokens
      ensures match Open(m, kind, tokens.Length)
              case Stop(code) => r == code && Is(m, tokens)
              case Next(m') => r == 0 && Is(m'.(pos := m.pos), tokens)
    {
      if toknext >= tokens.Length { return NoMem; }
      tokens[toknext] := Token(kind, -1, -1, 0);
      toknext := toknext + 1;
      if toksuper != -1 {
        var t := tokens[toksuper];
        tokens[toksuper] := t.(size := t.size + 1);
      }
      tokens[toknext - 1] := Token(kind, pos, -1, 0);
      toksuper := toknext - 1;
      r := 0;
      assert tokens[..toknext] == Bump(m.toks, m.super) + [Token(kind, m.pos, -1, 0)];
    }

    method CloseBracket(tokens: array<Token>, kind: Kind, ghost m: Machine) returns (r: int)
      requires Good(m) && Is(m, tokens)
      modifies this, tokens
      ensures match Close(m, kind)
              case Stop(code) => r == code && Is(m, tokens)
              case Next(m') => r == 0 && Is(m'.(pos := m.pos), tokens)
    {
      var i := LastOpen(tokens, toknext - 1);
      assert LastOpenIs(m.toks, i);
      LastOpenIsTop(m.toks, m.stack, i);
      if i == -1 { return Inval; }
      if tokens[i].kind != kind { return Inval; }
      toksuper := -1;
      tokens[i] := tokens[i].(end := pos + 1);
      ghost var m' := Close(m, kind).m;
      StackAfterClose(m, kind);
      assert tokens[..toknext] == m'.toks;
      var above := i;
      i := LastOpen(tokens, i);
      assert forall j | above <= j < |m'.toks| :: !IsOpen(m'.toks[j]);
      assert LastOpenIs(m'.toks, i);
      LastOpenIsTop(m'.toks, m'.stack, i);
      if i >= 0 { toksuper := i; }
      r := 0;
    }

    method Comma(tokens: array<Token>, ghost m: Machine)
      requires Good(m) && Is(m, tokens)
      modifies this
      ensures Is(Tokens.Comma(m).(pos := m.pos), tokens)
    {
      if toksuper != -1 && tokens[toksuper].kind != Array && tokens[toksuper].kind != Object {
        var i := toknext - 1;
        while i >= 0
          invariant -1 <= i < toknext
          invariant forall j | i < j < toknext :: !(IsContainer(tokens[j].kind) && IsOpen(tokens[j]))
        {
          if tokens[i].kind == Array || tokens[i].kind == Object {
            if tokens[i].start != -1 && tokens[i].end == -1 {
              toksuper := i;
              break;
            }
          }
          i := i - 1;
        }
        OpenAreContainers(m, i);
      }
    }

    static lemma OpenAreContainers(m: Machine, i: int)
      requires Good(m) && -1 <= i < |m.toks|
      requires i >= 0 ==> IsOpen(m.toks[i])
      requires forall j | i < j < |m.toks| :: !(IsContainer(m.toks[j].kind) && IsOpen(m.toks[j]))
      ensures i == Top(m.stack) && (i == -1 <==> m.stack == [])
    {
      forall j: nat | j < |m.toks| ensures IsOpen(m.toks[j]) ==> IsContainer(m.toks[j].kind) {
        if IsOpen(m.toks[j]) {
          var k :| 0 <= k < |m.stack| && m.stack[k] == j;
        }
      }
      assert LastOpenIs(m.toks, i);
      LastOpenIsTop(m.toks, m.stack, i);
    }

    /** A scanned leaf is put in the next token, if there is one. */
    ghost predicate Appended(m: Machine, t: Token, tokens: array<Token>)
      reads this, tokens
    {
      && toknext == |m.toks| + 1 <= tokens.Length && tokens[..toknext] == m.toks + [t] && toksuper == m.super
    }

    method AllocLeaf(tokens: array<Token>, t: Token, ghost m: Machine) returns (ok: bool)
      requires toknext == |m.toks| <= tokens.Length && tokens[..toknext] == m.toks && toksuper == m.super
      modifies this`toknext, tokens
      ensures ok <==> |m.toks| < tokens.Length
      ensures ok ==> Appended(m, t, tokens)
      ensures !ok ==> toknext == old(toknext) && tokens[..toknext] == m.toks
    {
      if toknext >= tokens.Length { return false; }
      tokens[toknext] := t;
      toknext := toknext + 1;
      ok := true;
    }

    /** Four digits at most, after `\\u`. */
    method SkipHex(js: string) returns (ok: bool)
      requires pos <= |js|
      modifies this`pos
      ensures match ScanHex(js, old(pos), 4)
              case Bad(_) => !ok
              case End(q) => ok && pos == q
    {
      var i := 0;
      while i < 4 && pos < |js| && js[pos] != Nul
        invariant 0 <= i <= 4 && pos <= |js|
        invariant ScanHex(js, pos, 4 - i) == ScanHex(js, old(pos), 4)
      {
        if !IsHex(js[pos]) { return false; }
        pos := pos + 1;
        i := i + 1;
      }
      ok := true;
    }

    method ParseString(js: string, tokens: array?<Token>, ghost m: Machine) returns (r: int)
      requires pos < |js|
      requires tokens != null ==> Is(m, tokens)
      modifies this`pos, this`toknext, tokens
      ensures tokens == null ==> toknext == old(toknext)
      ensures tokens != null && r < 0 ==> Is(m, tokens)
      ensures match ScanString(js, old(pos) + 1)
              case Bad(code) => r == code
              case End(q) =>
                if tokens == null then r == 0 && pos == q
                else if |m.toks| >= tokens.Length then r == NoMem
                else r == 0 && pos == q && Appended(m, Token(Str, old(pos) + 1, q, 0), tokens)
    {
      hide SimpleEscape, IsHex, ScanHex, Appended;
      var start := pos;
      pos := pos + 1;
      while pos < |js| && js[pos] != Nul
        invariant start < pos <= |js| && toknext == old(toknext)
        invariant tokens != null ==> tokens[..toknext] == m.toks
        invariant ScanString(js, pos) == ScanString(js, start + 1)
        decreases |js| - pos
      {
        var c := js[pos];
        if c == '"' {
          if tokens == null { return 0; }
          var ok := AllocLeaf(tokens, Token(Str, start + 1, pos, 0), m);
          if !ok { pos := start; return NoMem; }
          return 0;
        }
        if c == '\\' && pos + 1 < |js| {
          pos := pos + 1;
          if SimpleEscape(js[pos]) {
          } else if js[pos] == 'u' {
            pos := pos + 1;
            var ok := SkipHex(js);
            if !ok { pos := start; return Inval; }
            pos := pos - 1;
          } else {
            pos := start;
            return Inval;
          }
        }
        pos := pos + 1;
      }
      pos := start;
      r := Part;
    }

    /** On success `pos` is left on the last character of the primitive. */
    method ParsePrimitive(js: string, tokens: array?<Token>, ghost m: Machine) returns (r: int)
      requires pos < |js| && js[pos] != Nul && !EndsPrimitive(js[pos])
      requires tokens != null ==> Is(m, tokens)
      modifies this`pos, this`toknext, tokens
      ensures tokens == null ==> toknext == old(toknext)
      ensures tokens != null && r < 0 ==> Is(m, tokens)
      ensures match ScanPrimitive(js, old(pos))
              case Bad(code) => r == code
              case End(q) =>
                if tokens == null then r == 0 && pos + 1 == q
                else if |m.toks| >= tokens.Length then r == NoMem
                else r == 0 && pos + 1 == q && Appended(m, Token(Primitive, old(pos), q, 0), tokens)
    {
      var start := pos;
      while pos < |js| && js[pos] != Nul && !EndsPrimitive(js[pos])
        invariant start <= pos <= |js| && toknext == old(toknext)
        invariant tokens != null ==> tokens[..toknext] == m.toks
        invariant ScanPrimitive(js, pos) == ScanPrimitive(js, start)
      {
        if js[pos] < ' ' || js[pos] >= '\U{7f}' {
          pos := start;
          return Inval;
        }
        pos := pos + 1;
      }
      if tokens != null {
        var ok := AllocLeaf(tokens, Token(Primitive, start, pos, 0), m);
        if !ok { pos := start; return NoMem; }
      }
      pos := pos - 1;
      r := 0;
    }

    /** The increment of the enclosing token's size, after a leaf was appended. */
    method CountChild(tokens: array<Token>, ghost t: Token, ghost m: Machine)
      requires InRange(m) && Appended(m, t, tokens)
      modifies tokens
      ensures toknext == |m.toks| + 1 && tokens[..toknext] == Bump(m.toks, m.super) + [t]
    {
      if toksuper != -1 {
        var s := tokens[toksuper];
        tokens[toksuper] := s.(size := s.size + 1);
      }
    }

    /** A leaf in the main loop: a string, or a primitive. */
    method LeafTurn(js: string, tokens: array?<Token>, ghost m: Machine) returns (r: int)
      requires pos < |js| && js[pos] != Nul && (js[pos] == '"' || !EndsPrimitive(js[pos]))
      requires tokens != null ==> Good(m) && Is(m, tokens)
      modifies this, tokens
      ensures tokens == null ==> toknext == old(toknext)
      ensures tokens != null && r < 0 ==> Is(m, tokens)
      ensures var string_ := js[old(pos)] == '"';
              var scan := if string_ then ScanString(js, old(pos) + 1) else ScanPrimitive(js, old(pos));
              var start := if string_ then old(pos) + 1 else old(pos);
              match scan
              case Bad(code) => r == code
              case End(q) =>
                var next := if string_ then q + 1 else q;
                if tokens == null then r == 0 && pos + 1 == next
                else match Leaf(m, if string_ then Str else Primitive, start, q, next, tokens.Length)
                  case Stop(code) => r == code
                  case Next(m') => r == 0 && pos + 1 == m'.pos && Is(m'.(pos := pos), tokens)
    {
      hide ScanString, ScanPrimitive;
      ghost var t: Token;
      if js[pos] == '"' {
        t := Token(Str, pos + 1, if ScanString(js, pos + 1).End? then ScanString(js, pos + 1).p else 0, 0);
        r := ParseString(js, tokens, m);
      } else {
        t := Token(Primitive, pos, if ScanPrimitive(js, pos).End? then ScanPrimitive(js, pos).p else 0, 0);
        r := ParsePrimitive(js, tokens, m);
      }
      if r < 0 { return; }
      if toksuper != -1 && tokens != null {
        CountChild(tokens, t, m);
      }
    }

    /** The switch of the main loop: one character, with or without a token array.  `pos` is left one before
        the next character to read. */
    method Turn(js: string, tokens: array?<Token>, count: nat, ghost m: Machine) returns (r: int, count': nat)
      requires pos < |js| && js[pos] != Nul
      requires tokens != null ==> Good(m) && Is(m, tokens) && count == |m.toks|
      modifies this, tokens
      ensures tokens != null ==>
                match Step(js, m, tokens.Length)
                case Stop(code) => r == code && r < 0 && Is(m, tokens)
                case Next(m') => r == 0 && pos + 1 == m'.pos && Is(m'.(pos := pos), tokens) && count' == |m'.toks|
      ensures tokens == null ==> toknext == old(toknext)
      ensures tokens == null && r < 0 ==> r == CountPass(js, old(pos), count)
      ensures tokens == null && r >= 0 ==>
                old(pos) < pos + 1 <= |js| && CountPass(js, old(pos), count) == CountPass(js, pos + 1, count')
    {
      hide ScanString, ScanPrimitive, Open, Close, Leaf, Tokens.Comma, StackOk;
      var c := js[pos];
      r, count' := 0, count;
      if c == '{' || c == '[' {
        count' := count + 1;
        if tokens != null {
          r := OpenBracket(tokens, if c == '{' then Object else Array, m);
        }
      } else if c == '}' || c == ']' {
        if tokens != null {
          r := CloseBracket(tokens, if c == '}' then Object else Array, m);
        }
      } else if c == '"' {
        r := LeafTurn(js, tokens, m);
        if r < 0 { return; }
        count' := count + 1;
      } else if c == '\t' || c == '\r' || c == '\n' || c == ' ' {
      } else if c == ':' {
        toksuper := toknext - 1;
      } else if c == ',' {
        if tokens != null { Comma(tokens, m); }
      } else {
        r := LeafTurn(js, tokens, m);
        if r < 0 { return; }
        count' := count + 1;
      }
    }

    /** The parser, resumed at machine `m0` (a fresh parser is at `Start`): it fills the array exactly as the
        stack machine does, and when it fails it leaves what the stack machine had by then; without an array it
        counts.  The result is a token count or an error code. */
    method Parse(js: string, tokens: array?<Token>, ghost m0: Machine) returns (r: int)
      requires pos <= |js|
      requires tokens != null ==> Good(m0) && Is(m0, tokens)
      modifies this, tokens
      ensures tokens == null ==> r == CountPass(js, old(pos), old(toknext))
      ensures tokens != null ==>
                && Is(ParseEnd(js, m0, tokens.Length), tokens)
                && match Tokens.Parse(js, m0, tokens.Length)
                   case Stop(code) => r == code && r < 0
                   case Next(m) => r == |m.toks|
    {
      hide Step, StackOk;
      var count := toknext;
      ghost var m := m0;
      while pos < |js| && js[pos] != Nul
        invariant pos <= |js|
        invariant tokens != null ==> Good(m) && Is(m, tokens) && count == |m.toks|
        invariant tokens != null ==> Tokens.Parse(js, m, tokens.Length) == Tokens.Parse(js, m0, tokens.Length)
        invariant tokens != null ==> ParseEnd(js, m, tokens.Length) == ParseEnd(js, m0, tokens.Length)
        invariant tokens == null ==> toknext == old(toknext)
        invariant tokens == null ==> CountPass(js, pos, count) == CountPass(js, old(pos), old(toknext))
        decreases |js| - pos
      {
        var turn;
        turn, count := Turn(js, tokens, count, m);
        if turn < 0 { return turn; }
        ghost var step := if tokens == null then Stop(0) else Step(js, m, tokens.Length);
        if tokens != null { StepKeepsGood(js, m, tokens.Length); }
        m := if step.Next? then step.m else m;
        pos := pos + 1;
      }
      if tokens != null {
        var i := LastOpen(tokens, toknext - 1);
        assert LastOpenIs(m.toks, i);
        LastOpenIsTop(m.toks, m.stack, i);
        if i >= 0 { return Part; }
      }
      r := count;
    }
  }
}
