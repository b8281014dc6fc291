/** What the tokenizer makes of a compile-commands document: the tokens, one by one. */
module CommandTokens {
  import opened Tokens
  import opened CommandText

  ghost predicate At(js: string, p: nat, w: string) {
    p + |w| <= |js| && js[p..p + |w|] == w
  }

  lemma AtSplit(js: string, p: nat, u: string, v: string)
    requires At(js, p, u + v)
    ensures At(js, p, u) && At(js, p + |u|, v)
  {
    assert js[p..p + |u|] == js[p..p + |u + v|][..|u|];
    assert js[p + |u|..p + |u + v|] == js[p..p + |u + v|][|u|..];
  }

  lemma AtSplit3(js: string, p: nat, u: string, v: string, w: string)
    requires At(js, p, u + v + w)
    ensures At(js, p, u) && At(js, p + |u|, v) && At(js, p + |u| + |v|, w)
    ensures |u + v + w| == |u| + |v| + |w|
  {
    hide At;
    AtSplit(js, p, u + v, w);
    AtSplit(js, p, u, v);
  }

  lemma AtIndex(js: string, p: nat, w: string, k: nat)
    requires At(js, p, w) && k < |w|
    ensures p + k < |js| && js[p + k] == w[k]
  {
    assert js[p..p + |w|][k] == js[p + k];
  }

  /** The parse from `m` goes on as the parse from `m'`. */
  ghost predicate Leads(js: string, m: Machine, m': Machine, cap: nat) {
    && InRange(m) && m.pos <= |js| && InRange(m') && m'.pos <= |js|
    && Parse(js, m, cap) == Parse(js, m', cap)
  }

  lemma LeadsOn(js: string, m: Machine, m1: Machine, m2: Machine, cap: nat)
    requires Leads(js, m, m1, cap) && Leads(js, m1, m2, cap)
    ensures Leads(js, m, m2, cap)
  {
  }

  lemma LeadsStep(js: string, m: Machine, cap: nat)
    requires InRange(m) && m.pos < |js| && js[m.pos] != Nul && Step(js, m, cap).Next?
    ensures Leads(js, m, Step(js, m, cap).m, cap)
  {
  }

  // ---- Single pieces of text ----

  predicate White(c: char) { c == '\t' || c == '\r' || c == '\n' || c == ' ' }

  lemma {:induction false} LeadsBlank(js: string, m: Machine, k: nat, cap: nat)
    requires InRange(m) && m.pos + k <= |js| && forall i | m.pos <= i < m.pos + k :: White(js[i])
    ensures Leads(js, m, m.(pos := m.pos + k), cap)
    decreases k
  {
    if k > 0 {
      LeadsStep(js, m, cap);
      var m1 := m.(pos := m.pos + 1);
      LeadsBlank(js, m1, k - 1, cap);
    }
  }

  function AddString(m: Machine, len: nat): Machine
    requires InRange(m)
  {
    m.(pos := m.pos + len + 2, toks := Bump(m.toks, m.super) + [Token(Str, m.pos + 1, m.pos + 1 + len, 0)])
  }

  lemma LeadsString(js: string, m: Machine, len: nat, cap: nat)
    requires InRange(m) && m.pos < |js| && js[m.pos] == '"' && |m.toks| < cap
    requires ScanString(js, m.pos + 1) == End(m.pos + 1 + len)
    ensures Leads(js, m, AddString(m, len), cap)
  {
    hide ScanString;
    LeadsStep(js, m, cap);
  }

  lemma {:induction false} ScanEscaped(js: string, p: nat, s: string)
    requires NoNul(s) && At(js, p, Escape(s) + "\"")
    ensures ScanString(js, p) == End(p + |Escape(s)|)
    decreases s
  {
    AtIndex(js, p, Escape(s) + "\"", 0);
    if s != "" {
      var e := EscapeChar(s[0]);
      assert Escape(s) + "\"" == e + (Escape(s[1..]) + "\"");
      AtSplit(js, p, e, Escape(s[1..]) + "\"");
      ScanEscaped(js, p + |e|, s[1..]);
      ScanEscapedChar(js, p, s[0]);
    }
  }

  lemma ScanEscapedChar(js: string, p: nat, c: char)
    requires c != Nul && At(js, p, EscapeChar(c))
    ensures ScanString(js, p) == ScanString(js, p + |EscapeChar(c)|)
  {
    AtIndex(js, p, EscapeChar(c), 0);
    if |EscapeChar(c)| == 2 { AtIndex(js, p, EscapeChar(c), 1); }
  }

  lemma {:induction false} ScanPlain(js: string, p: nat, q: nat)
    requires p <= q < |js| && js[q] == '"'
    requires forall i | p <= i < q :: js[i] != '"' && js[i] != '\\' && js[i] != Nul
    ensures ScanString(js, p) == End(q)
    decreases q - p
  {
    if p < q { ScanPlain(js, p + 1, q); }
  }

  lemma LeadsQuoted(js: string, m: Machine, s: string, cap: nat)
    requires InRange(m) && NoNul(s) && At(js, m.pos, Quoted(s)) && |m.toks| < cap
    ensures Leads(js, m, AddString(m, |Escape(s)|), cap)
    ensures |Quoted(s)| == |Escape(s)| + 2
  {
    hide Escape;
    assert Quoted(s) == "\"" + (Escape(s) + "\"");
    AtSplit(js, m.pos, "\"", Escape(s) + "\"");
    AtIndex(js, m.pos, "\"", 0);
    ScanEscaped(js, m.pos + 1, s);
    LeadsString(js, m, |Escape(s)|, cap);
  }

  lemma LeadsOpen(js: string, m: Machine, kind: Kind, cap: nat)
    requires InRange(m) && m.pos < |js| && |m.toks| < cap
    requires (kind == Object && js[m.pos] == '{') || (kind == Array && js[m.pos] == '[')
    ensures Leads(js, m, Machine(m.pos + 1, Bump(m.toks, m.super) + [Token(kind, m.pos, -1, 0)], |m.toks|,
                                 m.stack + [|m.toks|]), cap)
  {
    LeadsStep(js, m, cap);
  }

  lemma LeadsClose(js: string, m: Machine, kind: Kind, cap: nat)
    requires InRange(m) && m.pos < |js| && m.stack != [] && m.toks[m.stack[|m.stack| - 1]].kind == kind
    requires (kind == Object && js[m.pos] == '}') || (kind == Array && js[m.pos] == ']')
    ensures var top := m.stack[|m.stack| - 1];
            var rest := m.stack[..|m.stack| - 1];
            Leads(js, m, Machine(m.pos + 1, m.toks[top := m.toks[top].(end := m.pos + 1)], Top(rest), rest), cap)
  {
    LeadsStep(js, m, cap);
  }

  /** A colon and a space: the key is what counts the value. */
  lemma LeadsColon(js: string, m: Machine, cap: nat)
    requires InRange(m) && m.pos + 2 <= |js| && js[m.pos] == ':' && js[m.pos + 1] == ' '
    ensures Leads(js, m, m.(pos := m.pos + 2, super := |m.toks| - 1), cap)
  {
    LeadsStep(js, m, cap);
    var m1 := m.(pos := m.pos + 1, super := |m.toks| - 1);
    LeadsStep(js, m1, cap);
  }

  /** A comma after a value: the enclosing container counts again. */
  lemma LeadsComma(js: string, m: Machine, cap: nat)
    requires InRange(m) && m.pos < |js| && js[m.pos] == ',' && m.super != -1 && m.stack != []
    requires IsContainer(m.toks[m.super].kind) ==> m.super == Top(m.stack)
    ensures Leads(js, m, m.(pos := m.pos + 1, super := Top(m.stack)), cap)
  {
    LeadsStep(js, m, cap);
  }

  // ---- The heads of an entry ----

  lemma BumpTail(base: seq<Token>, tail: seq<Token>, i: nat)
    requires i < |tail|
    ensures Bump(base + tail, |base| + i) == base + tail[i := tail[i].(size := tail[i].size + 1)]
  {
    var x, y := Bump(base + tail, |base| + i), base + tail[i := tail[i].(size := tail[i].size + 1)];
    forall k | 0 <= k < |x| ensures x[k] == y[k] {
      if k == |base| + i { assert (base + tail)[k] == tail[i]; }
    }
    assert x == y;
  }

  lemma DirectoryHeadShape()
    ensures var h := DirectoryHead();
            && |h| == 27
            && (forall k | 0 <= k < 4 || 5 <= k < 14 :: White(h[k])) && h[4] == '{' && h[14] == '"'
            && h[15..24] == "directory" && h[24] == '"' && h[25] == ':' && h[26] == ' '
  {
    var key, h := "directory", DirectoryHead();
    assert forall k | 0 <= k < 9 :: h[15..24][k] == key[k];
  }

  lemma FileHeadShape()
    ensures var h := FileHead();
            && |h| == 18
            && h[0] == ',' && (forall k | 1 <= k < 10 :: White(h[k])) && h[10] == '"'
            && h[11..15] == "file" && h[15] == '"' && h[16] == ':' && h[17] == ' '
  {
  }

  lemma ArgumentsHeadShape()
    ensures var h := ArgumentsHead();
            && |h| == 25
            && h[0] == ',' && (forall k | 1 <= k < 10 :: White(h[k])) && h[10] == '"'
            && h[11..20] == "arguments" && h[20] == '"' && h[21] == ':' && h[22] == ' ' && h[23] == '[' && h[24] == '\n'
  {
  }

  lemma EntryTailShape()
    ensures var h := EntryTail();
            && |h| == 15
            && (forall k | 0 <= k < 8 || 9 <= k < 14 :: White(h[k])) && h[8] == ']' && h[14] == '}'
  {
  }

  lemma PadShape()
    ensures |Pad()| == 12 && forall k | 0 <= k < 12 :: White(Pad()[k])
  {
  }

  predicate PlainKey(w: string) {
    forall k | 0 <= k < |w| :: w[k] != '"' && w[k] != '\\' && w[k] != Nul
  }

  lemma PlainKeys()
    ensures PlainKey("directory") && PlainKey("file") && PlainKey("arguments")
  {
  }

  /** A key with its colon and space. */
  lemma LeadsKey(js: string, m: Machine, len: nat, cap: nat)
    requires InRange(m) && m.pos + len + 4 <= |js| && |m.toks| < cap
    requires js[m.pos] == '"' && PlainKey(js[m.pos + 1..m.pos + 1 + len]) && js[m.pos + 1 + len] == '"'
    requires js[m.pos + len + 2] == ':' && js[m.pos + len + 3] == ' '
    ensures Leads(js, m, Machine(m.pos + len + 4, Bump(m.toks, m.super) + [Token(Str, m.pos + 1, m.pos + 1 + len, 0)],
                                 |m.toks|, m.stack), cap)
  {
    hide Leads, ScanString;
    var key := js[m.pos + 1..m.pos + 1 + len];
    forall i | m.pos + 1 <= i < m.pos + 1 + len ensures js[i] != '"' && js[i] != '\\' && js[i] != Nul {
      assert js[i] == key[i - m.pos - 1];
    }
    ScanPlain(js, m.pos + 1, m.pos + 1 + len);
    LeadsString(js, m, len, cap);
    var m1 := AddString(m, len);
    LeadsColon(js, m1, cap);
    LeadsOn(js, m, m1, m1.(pos := m1.pos + 2, super := |m1.toks| - 1), cap);
  }

  /** The key at offset `k` of a head. */
  lemma KeyAt(js: string, p: nat, h: string, k: nat, w: string)
    requires At(js, p, h) && k + |w| + 4 <= |h|
    requires h[k] == '"' && h[k + 1..k + 1 + |w|] == w && h[k + 1 + |w|] == '"' && h[k + |w| + 2] == ':'
        && h[k + |w| + 3] == ' '
    ensures p + |h| <= |js|
    ensures js[p + k] == '"' && js[p + k + 1..p + k + 1 + |w|] == w && js[p + k + 1 + |w|] == '"'
    ensures js[p + k + |w| + 2] == ':' && js[p + k + |w| + 3] == ' '
  {
    forall i: nat | i < |h| ensures js[p + i] == h[i] { AtIndex(js, p, h, i); }
  }

  lemma LeadsBlankAt(js: string, m: Machine, p: nat, h: string, k: nat, l: nat, cap: nat)
    requires InRange(m) && At(js, p, h) && k <= l <= |h| && m.pos == p + k && forall i | k <= i < l :: White(h[i])
    ensures Leads(js, m, m.(pos := p + l), cap)
  {
    hide Leads;
    forall i | m.pos <= i < p + l ensures White(js[i]) { AtIndex(js, p, h, i - p); }
    LeadsBlank(js, m, l - k, cap);
  }

  lemma LeadsDirectoryHead(js: string, m: Machine, cap: nat)
    requires InRange(m) && At(js, m.pos, DirectoryHead()) && |m.toks| + 2 <= cap
    ensures var base := Bump(m.toks, m.super);
            Leads(js, m, Machine(m.pos + 27,
                                 base + [Token(Object, m.pos + 4, -1, 1), Token(Str, m.pos + 15, m.pos + 24, 0)],
                                 |base| + 1, m.stack + [|base|]), cap)
  {
    hide Leads, PlainKey, DirectoryHead;
    var p, h := m.pos, DirectoryHead();
    DirectoryHeadShape();
    PlainKeys();
    var base := Bump(m.toks, m.super);
    LeadsBlankAt(js, m, p, h, 0, 4, cap);
    var m1 := m.(pos := p + 4);
    AtIndex(js, p, h, 4);
    LeadsOpen(js, m1, Object, cap);
    var m2 := Machine(p + 5, base + [Token(Object, p + 4, -1, 0)], |base|, m.stack + [|base|]);
    LeadsBlankAt(js, m2, p, h, 5, 14, cap);
    var m3 := m2.(pos := p + 14);
    KeyAt(js, p, h, 14, "directory");
    LeadsKey(js, m3, 9, cap);
    BumpTail(base, [Token(Object, p + 4, -1, 0)], 0);
    var m4 := Machine(p + 27, Bump(m3.toks, |base|) + [Token(Str, p + 15, p + 24, 0)], |base| + 1, m3.stack);
    LeadsOn(js, m, m1, m2, cap);
    LeadsOn(js, m, m2, m3, cap);
    LeadsOn(js, m, m3, m4, cap);
    assert m4.toks == base + [Token(Object, p + 4, -1, 1), Token(Str, p + 15, p + 24, 0)];
  }

  /** A comma, blanks and the next key of the innermost object. */
  lemma LeadsNextKey(js: string, m: Machine, h: string, w: string, cap: nat)
    requires InRange(m) && m.stack != [] && m.super != -1 && !IsContainer(m.toks[m.super].kind) && |m.toks| < cap
    requires At(js, m.pos, h) && |w| + 14 <= |h| && PlainKey(w)
    requires h[0] == ',' && (forall k | 1 <= k < 10 :: White(h[k]))
    requires h[10] == '"' && h[11..11 + |w|] == w && h[11 + |w|] == '"' && h[12 + |w|] == ':' && h[13 + |w|] == ' '
    ensures Leads(js, m, Machine(m.pos + |w| + 14,
                                 Bump(m.toks, Top(m.stack)) + [Token(Str, m.pos + 11, m.pos + 11 + |w|, 0)],
                                 |m.toks|, m.stack), cap)
  {
    hide Leads, PlainKey, Bump;
    var p := m.pos;
    AtIndex(js, p, h, 0);
    LeadsComma(js, m, cap);
    var m1 := m.(pos := p + 1, super := Top(m.stack));
    LeadsBlankAt(js, m1, p, h, 1, 10, cap);
    var m2 := m1.(pos := p + 10);
    KeyAt(js, p, h, 10, w);
    LeadsKey(js, m2, |w|, cap);
    var m3 := Machine(p + |w| + 14, Bump(m.toks, m2.super) + [Token(Str, p + 11, p + 11 + |w|, 0)], |m.toks|, m.stack);
    LeadsOn(js, m, m1, m2, cap);
    LeadsOn(js, m, m2, m3, cap);
  }

  lemma LeadsFileHead(js: string, m: Machine, cap: nat)
    requires InRange(m) && m.stack != [] && m.super != -1 && !IsContainer(m.toks[m.super].kind) && |m.toks| < cap
    requires At(js, m.pos, FileHead())
    ensures Leads(js, m, Machine(m.pos + 18, Bump(m.toks, Top(m.stack)) + [Token(Str, m.pos + 11, m.pos + 15, 0)],
                                 |m.toks|, m.stack), cap)
  {
    hide Leads, PlainKey, Bump, FileHead;
    FileHeadShape();
    PlainKeys();
    LeadsNextKey(js, m, FileHead(), "file", cap);
  }

  lemma LeadsArgumentsHead(js: string, m: Machine, cap: nat)
    requires InRange(m) && m.stack != [] && m.super != -1 && !IsContainer(m.toks[m.super].kind) && |m.toks| + 2 <= cap
    requires At(js, m.pos, ArgumentsHead())
    ensures var base := Bump(m.toks, Top(m.stack));
            Leads(js, m, Machine(m.pos + 25,
                                 base + [Token(Str, m.pos + 11, m.pos + 20, 1), Token(Array, m.pos + 23, -1, 0)],
                                 |m.toks| + 1, m.stack + [|m.toks| + 1]), cap)
  {
    hide Leads, PlainKey, Bump, ArgumentsHead;
    ArgumentsHeadShape();
    PlainKeys();
    var p, h := m.pos, ArgumentsHead();
    var base := Bump(m.toks, Top(m.stack));
    LeadsNextKey(js, m, h, "arguments", cap);
    var m1 := Machine(p + 23, base + [Token(Str, p + 11, p + 20, 0)], |m.toks|, m.stack);
    AtIndex(js, p, h, 23);
    LeadsOpen(js, m1, Array, cap);
    BumpTail(base, [Token(Str, p + 11, p + 20, 0)], 0);
    assert |base| == |m.toks|;
    assert [Token(Str, p + 11, p + 20, 0)][0 := Token(Str, p + 11, p + 20, 1)] == [Token(Str, p + 11, p + 20, 1)];
    var m2 := Machine(p + 24, base + [Token(Str, p + 11, p + 20, 1)] + [Token(Array, p + 23, -1, 0)],
                      |m.toks| + 1, m.stack + [|m.toks| + 1]);
    LeadsOn(js, m, m1, m2, cap);
    LeadsBlankAt(js, m2, p, h, 24, 25, cap);
    LeadsOn(js, m, m2, m2.(pos := p + 25), cap);
    assert m2.toks == base + [Token(Str, p + 11, p + 20, 1), Token(Array, p + 23, -1, 0)];
  }

  // ---- The arguments ----

  function LineToks(args: seq<string>, p: nat): (r: seq<Token>)
    ensures |r| == |args|
  {
    if args == [] then []
    else
      [Token(Str, p + 13, p + 13 + |Escape(args[0])|, 0)]
      + LineToks(args[1..], p + 12 + |Quoted(args[0])| + |LineEnd(|args| == 1)|)
  }

  lemma LeadsLine(js: string, m: Machine, s: string, last: bool, cap: nat)
    requires InRange(m) && 0 <= m.super && m.super == Top(m.stack) && IsContainer(m.toks[m.super].kind)
        && |m.toks| < cap
    requires NoNul(s) && At(js, m.pos, Pad() + Quoted(s) + LineEnd(last))
    ensures Leads(js, m, Machine(m.pos + 12 + |Quoted(s)| + |LineEnd(last)|,
                                 Bump(m.toks, m.super) + [Token(Str, m.pos + 13, m.pos + 13 + |Escape(s)|, 0)],
                                 m.super, m.stack), cap)
  {
    hide Leads, Quoted, Pad, NoNul;
    var p := m.pos;
    PadShape();
    AtSplit(js, p, Pad() + Quoted(s), LineEnd(last));
    AtSplit(js, p, Pad(), Quoted(s));
    LeadsBlankAt(js, m, p, Pad(), 0, 12, cap);
    var m1 := m.(pos := p + 12);
    LeadsQuoted(js, m1, s, cap);
    var m2 := AddString(m1, |Escape(s)|);
    LeadsOn(js, m, m1, m2, cap);
    var q := p + 12 + |Quoted(s)|;
    assert |Pad() + Quoted(s)| == 12 + |Quoted(s)|;
    AtIndex(js, q, LineEnd(last), 0);
    if last {
      LeadsBlankAt(js, m2, q, LineEnd(last), 0, 1, cap);
      LeadsOn(js, m, m2, m2.(pos := q + 1), cap);
    } else {
      LeadsComma(js, m2, cap);
      var m3 := m2.(pos := q + 1, super := Top(m2.stack));
      LeadsBlankAt(js, m3, q, LineEnd(last), 1, 2, cap);
      LeadsOn(js, m, m2, m3, cap);
      LeadsOn(js, m, m3, m3.(pos := q + 2), cap);
    }
  }

  function AddLines(m: Machine, args: seq<string>): Machine
    requires 0 <= m.super < |m.toks|
  {
    Machine(m.pos + |Lines(args)|,
            m.toks[m.super := m.toks[m.super].(size := m.toks[m.super].size + |args|)] + LineToks(args, m.pos),
            m.super, m.stack)
  }

  lemma {:induction false} LeadsLines(js: string, m: Machine, args: seq<string>, cap: nat)
    requires InRange(m) && 0 <= m.super && m.super == Top(m.stack) && IsContainer(m.toks[m.super].kind)
    requires |m.toks| + |args| <= cap
    requires (forall a: string | a in args :: NoNul(a)) && At(js, m.pos, Lines(args))
    ensures Leads(js, m, AddLines(m, args), cap)
    decreases |args|
  {
    hide AddLines, Leads, Quoted, Pad, NoNul, LineEnd, Bump, IsContainer;
    if args == [] {
      LeadsNoLines(js, m, cap);
    } else {
      var last := |args| == 1;
      var line := Pad() + Quoted(args[0]) + LineEnd(last);
      PadShape();
      SplitLines(js, m.pos, args);
      LeadsLine(js, m, args[0], last, cap);
      var m1 := AfterLine(m, args);
      LeadsInRange(js, m, m1, cap);
      LeadsLines(js, m1, args[1..], cap);
      AddLinesTwice(m, args);
      LeadsOn(js, m, m1, AddLines(m1, args[1..]), cap);
    }
  }

  lemma LeadsInRange(js: string, m: Machine, m': Machine, cap: nat)
    requires Leads(js, m, m', cap)
    ensures InRange(m') && m'.pos <= |js|
  {
  }

  lemma LeadsNoLines(js: string, m: Machine, cap: nat)
    requires InRange(m) && 0 <= m.super && m.pos <= |js|
    ensures Leads(js, m, AddLines(m, []), cap)
  {
    assert AddLines(m, []) == m;
  }

  lemma SplitLines(js: string, p: nat, args: seq<string>)
    requires args != [] && At(js, p, Lines(args))
    ensures var line := Pad() + Quoted(args[0]) + LineEnd(|args| == 1);
            At(js, p, line) && At(js, p + |line|, Lines(args[1..]))
  {
    hide At, Pad, Quoted, LineEnd;
    AtSplit(js, p, Pad() + Quoted(args[0]) + LineEnd(|args| == 1), Lines(args[1..]));
  }

  function AfterLine(m: Machine, args: seq<string>): (r: Machine)
    requires 0 <= m.super < |m.toks| && args != []
    ensures |r.toks| == |m.toks| + 1 && r.super == m.super && r.stack == m.stack
    ensures r.toks[m.super].kind == m.toks[m.super].kind
  {
    Machine(m.pos + 12 + |Quoted(args[0])| + |LineEnd(|args| == 1)|,
            Bump(m.toks, m.super) + [Token(Str, m.pos + 13, m.pos + 13 + |Escape(args[0])|, 0)],
            m.super, m.stack)
  }

  lemma AddLinesTwice(m: Machine, args: seq<string>)
    requires 0 <= m.super < |m.toks| && args != []
    ensures AddLines(AfterLine(m, args), args[1..]) == AddLines(m, args)
  {
    hide Quoted, Pad, LineEnd, Escape;
    PadShape();
    assert AddLines(AfterLine(m, args), args[1..]).toks == AddLines(m, args).toks;
  }

  // ---- An entry ----

  /** Where in an entry at `p` the pieces behind the directory, and behind the file, begin. */
  function FileAt(c: Command, p: nat): nat { p + 27 + |Quoted(c.directory)| }

  function ArgumentsAt(c: Command, p: nat): nat { FileAt(c, p) + 18 + |Quoted(c.file)| }

  function TailAt(c: Command, p: nat): nat { ArgumentsAt(c, p) + 25 + |Lines(c.args)| }

  function ObjectToks(c: Command, p: nat, size: nat, end: int): seq<Token> {
    [Token(Object, p + 4, end, size), Token(Str, p + 15, p + 24, 1),
     Token(Str, p + 28, p + 28 + |Escape(c.directory)|, 0)]
  }

  function FileToks(c: Command, p: nat): seq<Token> {
    var f := FileAt(c, p);
    [Token(Str, f + 11, f + 15, 1), Token(Str, f + 19, f + 19 + |Escape(c.file)|, 0)]
  }

  function ArgumentsToks(c: Command, p: nat, size: nat, end: int): seq<Token> {
    var g := ArgumentsAt(c, p);
    [Token(Str, g + 11, g + 20, 1), Token(Array, g + 23, end, size)]
  }

  /** The tokens of an entry whose text begins at `p`: an object of three keys, each with its value. */
  function EntryToks(c: Command, p: nat): (r: seq<Token>)
    ensures |r| == 7 + |c.args|
  {
    ObjectToks(c, p, 3, TailAt(c, p) + 15) + FileToks(c, p)
    + ArgumentsToks(c, p, |c.args|, TailAt(c, p) + 9) + LineToks(c.args, ArgumentsAt(c, p) + 25)
  }

  lemma SplitEntry(js: string, p: nat, c: Command)
    requires At(js, p, Entry(c))
    ensures At(js, p, DirectoryHead()) && At(js, p + 27, Quoted(c.directory))
    ensures At(js, FileAt(c, p), FileHead()) && At(js, FileAt(c, p) + 18, Quoted(c.file))
    ensures At(js, ArgumentsAt(c, p), ArgumentsHead()) && At(js, ArgumentsAt(c, p) + 25, Lines(c.args))
    ensures At(js, TailAt(c, p), EntryTail()) && p + |Entry(c)| == TailAt(c, p) + 15
  {
    DirectoryHeadShape();
    FileHeadShape();
    ArgumentsHeadShape();
    EntryTailShape();
    hide At, DirectoryHead, FileHead, ArgumentsHead, EntryTail, Quoted, Lines;
    var e1 := DirectoryHead();
    var e2 := e1 + Quoted(c.directory);
    var e3 := e2 + FileHead();
    var e4 := e3 + Quoted(c.file);
    var e5 := e4 + ArgumentsHead();
    var e6 := e5 + Lines(c.args);
    AtSplit(js, p, e6, EntryTail());
    AtSplit(js, p, e5, Lines(c.args));
    AtSplit(js, p, e4, ArgumentsHead());
    AtSplit(js, p, e3, Quoted(c.file));
    AtSplit(js, p, e2, FileHead());
    AtSplit(js, p, e1, Quoted(c.directory));
  }

  ghost predicate ReadyForEntry(m: Machine) {
    InRange(m) && 0 <= m.super && m.super == Top(m.stack) && IsContainer(m.toks[m.super].kind)
  }

  /** After the directory. */
  function Stage1(m: Machine, c: Command): Machine
    requires -1 <= m.super < |m.toks|
  {
    var o := |m.toks|;
    Machine(FileAt(c, m.pos), Bump(m.toks, m.super) + ObjectToks(c, m.pos, 1, -1), o + 1, m.stack + [o])
  }

  /** After the file. */
  function Stage2(m: Machine, c: Command): Machine
    requires -1 <= m.super < |m.toks|
  {
    var o := |m.toks|;
    Machine(ArgumentsAt(c, m.pos), Bump(m.toks, m.super) + (ObjectToks(c, m.pos, 2, -1) + FileToks(c, m.pos)),
            o + 3, m.stack + [o])
  }

  /** After the opening bracket of the arguments. */
  function Stage3(m: Machine, c: Command): Machine
    requires -1 <= m.super < |m.toks|
  {
    var o := |m.toks|;
    Machine(ArgumentsAt(c, m.pos) + 25,
            Bump(m.toks, m.super) + (ObjectToks(c, m.pos, 3, -1) + FileToks(c, m.pos) + ArgumentsToks(c, m.pos, 0, -1)),
            o + 6, m.stack + [o, o + 6])
  }

  lemma LeadsStage1(js: string, m: Machine, c: Command, cap: nat)
    requires InRange(m) && |m.toks| + 3 <= cap && NoNul(c.directory)
    requires At(js, m.pos, DirectoryHead()) && At(js, m.pos + 27, Quoted(c.directory))
    ensures Leads(js, m, Stage1(m, c), cap)
  {
    hide Leads, At, DirectoryHead, Quoted, Escape, NoNul, Bump;
    var p, base := m.pos, Bump(m.toks, m.super);
    LeadsDirectoryHead(js, m, cap);
    var two := [Token(Object, p + 4, -1, 1), Token(Str, p + 15, p + 24, 0)];
    var m1 := Machine(p + 27, base + two, |base| + 1, m.stack + [|base|]);
    LeadsInRange(js, m, m1, cap);
    LeadsQuoted(js, m1, c.directory, cap);
    BumpTail(base, two, 1);
    LeadsOn(js, m, m1, AddString(m1, |Escape(c.directory)|), cap);
    assert base + two[1 := two[1].(size := 1)] + [Token(Str, p + 28, p + 28 + |Escape(c.directory)|, 0)]
        == base + ObjectToks(c, p, 1, -1);
  }

  lemma LeadsStage2(js: string, m: Machine, c: Command, cap: nat)
    requires InRange(m) && |m.toks| + 5 <= cap && NoNul(c.file) && InRange(Stage1(m, c))
    requires At(js, FileAt(c, m.pos), FileHead()) && At(js, FileAt(c, m.pos) + 18, Quoted(c.file))
    ensures Leads(js, Stage1(m, c), Stage2(m, c), cap)
  {
    hide Leads, At, FileHead, Quoted, Escape, NoNul, Bump;
    var p, f, base := m.pos, FileAt(c, m.pos), Bump(m.toks, m.super);
    var m1 := Stage1(m, c);
    LeadsFileHead(js, m1, cap);
    var three := ObjectToks(c, p, 1, -1);
    BumpTail(base, three, 0);
    assert three[0 := three[0].(size := 2)] == ObjectToks(c, p, 2, -1);
    var four := ObjectToks(c, p, 2, -1) + [Token(Str, f + 11, f + 15, 0)];
    var m2 := Machine(f + 18, base + ObjectToks(c, p, 2, -1) + [Token(Str, f + 11, f + 15, 0)], |base| + 3, m1.stack);
    assert m2.toks == base + four;
    LeadsInRange(js, m1, m2, cap);
    LeadsQuoted(js, m2, c.file, cap);
    BumpTail(base, four, 3);
    LeadsOn(js, m1, m2, AddString(m2, |Escape(c.file)|), cap);
    assert base + four[3 := four[3].(size := 1)] + [Token(Str, f + 19, f + 19 + |Escape(c.file)|, 0)]
        == base + (ObjectToks(c, p, 2, -1) + FileToks(c, p));
  }

  lemma LeadsStage3(js: string, m: Machine, c: Command, cap: nat)
    requires InRange(m) && |m.toks| + 7 <= cap && InRange(Stage2(m, c))
    requires At(js, ArgumentsAt(c, m.pos), ArgumentsHead())
    ensures Leads(js, Stage2(m, c), Stage3(m, c), cap)
  {
    hide Leads, At, ArgumentsHead, Quoted, Escape, Bump;
    var p, g, base := m.pos, ArgumentsAt(c, m.pos), Bump(m.toks, m.super);
    var m2 := Stage2(m, c);
    LeadsArgumentsHead(js, m2, cap);
    var five := ObjectToks(c, p, 2, -1) + FileToks(c, p);
    BumpTail(base, five, 0);
    assert five[0 := five[0].(size := 3)] == ObjectToks(c, p, 3, -1) + FileToks(c, p);
    assert base + (ObjectToks(c, p, 3, -1) + FileToks(c, p)) + ArgumentsToks(c, p, 0, -1) == Stage3(m, c).toks;
    assert m2.stack + [|m2.toks| + 1] == Stage3(m, c).stack;
  }

  function AddEntry(m: Machine, c: Command): (r: Machine)
    requires -1 <= m.super < |m.toks|
    ensures |r.toks| == |m.toks| + 7 + |c.args|
  {
    Machine(m.pos + |Entry(c)|, Bump(m.toks, m.super) + EntryToks(c, m.pos), m.super, m.stack)
  }

  /** The bracket at offset `k` of the tail closes the innermost container. */
  lemma LeadsTail(js: string, m: Machine, cap: nat)
    requires InRange(m) && At(js, m.pos, EntryTail()) && |m.stack| >= 2
    requires m.toks[m.stack[|m.stack| - 1]].kind == Array && m.toks[m.stack[|m.stack| - 2]].kind == Object
    requires m.stack[|m.stack| - 1] != m.stack[|m.stack| - 2]
    ensures var a, o := m.stack[|m.stack| - 1], m.stack[|m.stack| - 2];
            var rest := m.stack[..|m.stack| - 2];
            var toks := m.toks[a := m.toks[a].(end := m.pos + 9)];
            Leads(js, m, Machine(m.pos + 15, toks[o := toks[o].(end := m.pos + 15)], Top(rest), rest), cap)
  {
    hide Leads, At, EntryTail;
    EntryTailShape();
    var p, h := m.pos, EntryTail();
    var a, o := m.stack[|m.stack| - 1], m.stack[|m.stack| - 2];
    var mid, rest := m.stack[..|m.stack| - 1], m.stack[..|m.stack| - 2];
    LeadsBlankAt(js, m, p, h, 0, 8, cap);
    var m1 := m.(pos := p + 8);
    AtIndex(js, p, h, 8);
    LeadsClose(js, m1, Array, cap);
    var toks := m.toks[a := m.toks[a].(end := p + 9)];
    var m2 := Machine(p + 9, toks, Top(mid), mid);
    LeadsOn(js, m, m1, m2, cap);
    LeadsInRange(js, m, m2, cap);
    LeadsBlankAt(js, m2, p, h, 9, 14, cap);
    var m3 := m2.(pos := p + 14);
    LeadsOn(js, m, m2, m3, cap);
    AtIndex(js, p, h, 14);
    LeadsClose(js, m3, Object, cap);
    assert mid[..|mid| - 1] == rest;
    LeadsOn(js, m, m3, Machine(p + 15, toks[o := toks[o].(end := p + 15)], Top(rest), rest), cap);
  }

  /** Closing the array and the object of an entry, on the token list. */
  lemma ClosedEntry(base: seq<Token>, c: Command, p: nat)
    ensures var open := base + (ObjectToks(c, p, 3, -1) + FileToks(c, p) + ArgumentsToks(c, p, |c.args|, -1))
                        + LineToks(c.args, ArgumentsAt(c, p) + 25);
            var o := |base|;
            var toks := open[o + 6 := open[o + 6].(end := TailAt(c, p) + 9)];
            toks[o := toks[o].(end := TailAt(c, p) + 15)] == base + EntryToks(c, p)
  {
    hide LineToks, FileAt, ArgumentsAt, TailAt, Escape;
    var lines := LineToks(c.args, ArgumentsAt(c, p) + 25);
    var t, g := TailAt(c, p), ArgumentsAt(c, p);
    var head := ObjectToks(c, p, 3, -1) + FileToks(c, p) + ArgumentsToks(c, p, |c.args|, -1);
    var closed := ObjectToks(c, p, 3, t + 15) + FileToks(c, p) + ArgumentsToks(c, p, |c.args|, t + 9);
    assert head[6].(end := t + 9) == closed[6] && head[0].(end := t + 15) == closed[0];
    assert head[6 := closed[6]][0 := closed[0]] == closed;
    var open := base + head + lines;
    var o := |base|;
    assert open[o + 6] == head[6] && open[o] == head[0];
    assert open[o + 6 := closed[6]][o := closed[0]] == base + (closed + lines);
  }

  lemma LinesOnTail(m: Machine, c: Command)
    requires -1 <= m.super < |m.toks|
    ensures var s := Stage3(m, c);
            AddLines(s, c.args).toks ==
              Bump(m.toks, m.super)
              + (ObjectToks(c, m.pos, 3, -1) + FileToks(c, m.pos) + ArgumentsToks(c, m.pos, |c.args|, -1))
              + LineToks(c.args, ArgumentsAt(c, m.pos) + 25)
  {
    hide LineToks, FileAt, ArgumentsAt, TailAt, Escape, Bump;
    var s := Stage3(m, c);
    var base, p, n := Bump(m.toks, m.super), m.pos, |c.args|;
    var open := ObjectToks(c, p, 3, -1) + FileToks(c, p) + ArgumentsToks(c, p, 0, -1);
    var counted := ObjectToks(c, p, 3, -1) + FileToks(c, p) + ArgumentsToks(c, p, n, -1);
    assert open[6 := open[6].(size := n)] == counted;
    assert (base + open)[|base| + 6] == open[6];
    assert (base + open)[|base| + 6 := counted[6]] == base + counted;
  }

  lemma LeadsArguments(js: string, m: Machine, c: Command, cap: nat)
    requires -1 <= m.super < |m.toks| && |m.toks| + 7 + |c.args| <= cap && NulFree(c)
    requires InRange(Stage3(m, c)) && At(js, ArgumentsAt(c, m.pos) + 25, Lines(c.args))
    ensures Leads(js, Stage3(m, c), AddLines(Stage3(m, c), c.args), cap)
  {
    hide Leads, At, Lines, Bump, FileAt, ArgumentsAt, Escape;
    LeadsLines(js, Stage3(m, c), c.args, cap);
  }

  lemma LeadsEntryTail(js: string, m: Machine, c: Command, cap: nat)
    requires ReadyForEntry(m) && InRange(AddLines(Stage3(m, c), c.args))
    requires At(js, TailAt(c, m.pos), EntryTail()) && m.pos + |Entry(c)| == TailAt(c, m.pos) + 15
    ensures Leads(js, AddLines(Stage3(m, c), c.args), AddEntry(m, c), cap)
  {
    hide Leads, At, Entry, EntryTail, Lines, Bump, FileAt, ArgumentsAt, Escape, LineToks;
    var m4 := AddLines(Stage3(m, c), c.args);
    var o := |m.toks|;
    LinesOnTail(m, c);
    assert m4.pos == TailAt(c, m.pos);
    assert m4.stack[|m4.stack| - 1] == o + 6 && m4.stack[|m4.stack| - 2] == o && m4.stack[..|m4.stack| - 2] == m.stack;
    LeadsTail(js, m4, cap);
    ClosedEntry(Bump(m.toks, m.super), c, m.pos);
  }

  lemma LeadsEntry(js: string, m: Machine, c: Command, cap: nat)
    requires ReadyForEntry(m) && At(js, m.pos, Entry(c)) && NulFree(c) && |m.toks| + 7 + |c.args| <= cap
    ensures Leads(js, m, AddEntry(m, c), cap)
  {
    hide Leads, At, Entry, AddLines, AddEntry, Stage1, Stage2, FileAt, ArgumentsAt, TailAt, NoNul, Bump,
      ObjectToks, FileToks, ArgumentsToks;
    SplitEntry(js, m.pos, c);
    LeadsStage1(js, m, c, cap);
    var m1, m2, m3 := Stage1(m, c), Stage2(m, c), Stage3(m, c);
    LeadsInRange(js, m, m1, cap);
    LeadsStage2(js, m, c, cap);
    LeadsInRange(js, m1, m2, cap);
    LeadsStage3(js, m, c, cap);
    LeadsInRange(js, m2, m3, cap);
    LeadsArguments(js, m, c, cap);
    assert 0 <= m3.super < |m3.toks|;
    var m4 := AddLines(m3, c.args);
    LeadsInRange(js, m3, m4, cap);
    LeadsEntryTail(js, m, c, cap);
    LeadsOn(js, m, m1, m2, cap);
    LeadsOn(js, m, m2, m3, cap);
    LeadsOn(js, m, m3, m4, cap);
    LeadsOn(js, m, m4, AddEntry(m, c), cap);
  }

  // ---- The document ----

  /** Where, in the entries that begin at `p`, entry number `n` begins when `before` is in front of it. */
  function EntryAt(before: seq<Command>, p: nat): nat { p + |Entries(before)| + |Separator(|before|)| }

  function EntriesToks(cmds: seq<Command>, p: nat): seq<Token> {
    if cmds == [] then []
    else
      var n := |cmds| - 1;
      EntriesToks(cmds[..n], p) + EntryToks(cmds[n], EntryAt(cmds[..n], p))
  }

  function AddEntries(m: Machine, cmds: seq<Command>): Machine
    requires 0 <= m.super < |m.toks|
  {
    Machine(m.pos + |Entries(cmds)|,
            m.toks[m.super := m.toks[m.super].(size := m.toks[m.super].size + |cmds|)] + EntriesToks(cmds, m.pos),
            m.super, m.stack)
  }

  lemma LeadsSeparator(js: string, m: Machine, k: nat, cap: nat)
    requires ReadyForEntry(m) && At(js, m.pos, Separator(k))
    ensures Leads(js, m, m.(pos := m.pos + |Separator(k)|), cap)
  {
    hide Leads;
    if k > 0 {
      var p := m.pos;
      AtIndex(js, p, ",\n", 0);
      LeadsComma(js, m, cap);
      var m1 := m.(pos := p + 1);
      LeadsBlankAt(js, m1, p, ",\n", 1, 2, cap);
      LeadsOn(js, m, m1, m1.(pos := p + 2), cap);
    } else {
      LeadsBlank(js, m, 0, cap);
    }
  }

  lemma EntriesLast(cmds: seq<Command>)
    requires cmds != []
    ensures var n := |cmds| - 1; Entries(cmds) == Entries(cmds[..n]) + Separator(n) + Entry(cmds[n])
  {
    hide Entry, Separator;
  }

  lemma SplitEntries(js: string, p: nat, cmds: seq<Command>, n: nat)
    requires |cmds| == n + 1 && At(js, p, Entries(cmds))
    ensures At(js, p, Entries(cmds[..n])) && At(js, p + |Entries(cmds[..n])|, Separator(n))
    ensures At(js, p + |Entries(cmds[..n])| + |Separator(n)|, Entry(cmds[n]))
    ensures |Entries(cmds)| == |Entries(cmds[..n])| + |Separator(n)| + |Entry(cmds[n])|
  {
    hide *;
    EntriesLast(cmds);
    AtSplit3(js, p, Entries(cmds[..n]), Separator(n), Entry(cmds[n]));
  }

  lemma AddLastEntry(m: Machine, cmds: seq<Command>, n: nat)
    requires 0 <= m.super < |m.toks| && |cmds| == n + 1
    ensures var m1 := AddEntries(m, cmds[..n]);
            AddEntry(m1.(pos := m1.pos + |Separator(n)|), cmds[n]) == AddEntries(m, cmds)
  {
    hide Entry, Separator, EntryToks, Entries;
    EntriesLast(cmds);
    var super, t := m.super, m.toks[m.super];
    var counted := m.toks[super := t.(size := t.size + n)];
    BumpHead(counted, EntriesToks(cmds[..n], m.pos), super);
    assert Bump(counted, super) == m.toks[super := t.(size := t.size + |cmds|)];
  }

  lemma BumpHead(base: seq<Token>, tail: seq<Token>, i: nat)
    requires i < |base|
    ensures Bump(base + tail, i) == Bump(base, i) + tail
  {
  }

  lemma {:induction false} LeadsEntries(js: string, m: Machine, cmds: seq<Command>, cap: nat)
    requires ReadyForEntry(m) && At(js, m.pos, Entries(cmds)) && (forall c: Command | c in cmds :: NulFree(c))
    requires |m.toks| + |EntriesToks(cmds, m.pos)| <= cap
    ensures Leads(js, m, AddEntries(m, cmds), cap)
    decreases |cmds|
  {
    if cmds == [] {
      assert AddEntries(m, cmds) == m;
    } else {
      var n := |cmds| - 1;
      hide Leads, At, Entries, AddEntries, NulFree, EntryToks, EntryAt;
      assert |EntriesToks(cmds, m.pos)| == |EntriesToks(cmds[..n], m.pos)| + 7 + |cmds[n].args|;
      SplitEntries(js, m.pos, cmds, n);
      LeadsEntries(js, m, cmds[..n], cap);
      LeadsLastEntry(js, m, cmds, n, cap);
    }
  }

  lemma LeadsNextEntry(js: string, m: Machine, k: nat, c: Command, cap: nat)
    requires ReadyForEntry(m) && NulFree(c) && |m.toks| + 7 + |c.args| <= cap
    requires At(js, m.pos, Separator(k)) && At(js, m.pos + |Separator(k)|, Entry(c))
    ensures Leads(js, m, AddEntry(m.(pos := m.pos + |Separator(k)|), c), cap)
  {
    hide Leads, At, Entry, Separator, EntryToks, AddEntry, NulFree;
    LeadsSeparator(js, m, k, cap);
    var m2 := m.(pos := m.pos + |Separator(k)|);
    LeadsInRange(js, m, m2, cap);
    LeadsEntry(js, m2, c, cap);
    LeadsOn(js, m, m2, AddEntry(m2, c), cap);
  }

  lemma LeadsLastEntry(js: string, m: Machine, cmds: seq<Command>, n: nat, cap: nat)
    requires ReadyForEntry(m) && |cmds| == n + 1 && NulFree(cmds[n]) && At(js, m.pos, Entries(cmds))
    requires |m.toks| + |EntriesToks(cmds[..n], m.pos)| + 7 + |cmds[n].args| <= cap
    requires Leads(js, m, AddEntries(m, cmds[..n]), cap)
    ensures Leads(js, m, AddEntries(m, cmds), cap)
  {
    hide *;
    AddEntriesFrame(m, cmds[..n]);
    var m1 := AddEntries(m, cmds[..n]);
    SplitEntries(js, m.pos, cmds, n);
    LeadsNextEntry(js, m1, n, cmds[n], cap);
    AddLastEntry(m, cmds, n);
    LeadsOn(js, m, m1, AddEntries(m, cmds), cap);
  }

  lemma AddEntriesFrame(m: Machine, cmds: seq<Command>)
    requires ReadyForEntry(m)
    ensures 0 <= m.super < |m.toks|
    ensures var r := AddEntries(m, cmds);
            ReadyForEntry(r) && |r.toks| == |m.toks| + |EntriesToks(cmds, m.pos)| && r.pos == m.pos + |Entries(cmds)|
  {
    hide EntriesToks, Entries;
  }

  /** The tokens of a document: the array around the entries. */
  function DocumentToks(cmds: seq<Command>): seq<Token> {
    [Token(Array, 0, |Document(cmds)| - 1, |cmds|)] + EntriesToks(cmds, 2)
  }

  lemma LeadsDocumentHead(js: string, cap: nat)
    requires At(js, 0, DocumentHead()) && cap >= 1
    ensures Leads(js, Start, Machine(2, [Token(Array, 0, -1, 0)], 0, [0]), cap)
  {
    var h := DocumentHead();
    AtIndex(js, 0, h, 0);
    LeadsOpen(js, Start, Array, cap);
    hide Leads;
    var m1 := Machine(1, [Token(Array, 0, -1, 0)], 0, [0]);
    assert Start.stack + [0] == [0] && [] + [Token(Array, 0, -1, 0)] == m1.toks;
    LeadsBlankAt(js, m1, 1, h[1..], 0, 1, cap) by { AtIndex(js, 0, h, 1); assert At(js, 1, h[1..]); }
    LeadsOn(js, Start, m1, m1.(pos := 2), cap);
  }

  lemma LeadsDocumentTail(js: string, m: Machine, cap: nat)
    requires InRange(m) && m.stack == [0] && |m.toks| > 0 && m.toks[0].kind == Array
    requires At(js, m.pos, DocumentTail()) && m.pos + 3 == |js|
    ensures Leads(js, m, Machine(|js|, m.toks[0 := m.toks[0].(end := m.pos + 2)], -1, []), cap)
  {
    var p, h := m.pos, DocumentTail();
    LeadsBlankAt(js, m, p, h, 0, 1, cap);
    var m1 := m.(pos := p + 1);
    AtIndex(js, p, h, 1);
    LeadsClose(js, m1, Array, cap);
    var m2 := Machine(p + 2, m.toks[0 := m.toks[0].(end := p + 2)], -1, []);
    hide Leads;
    LeadsOn(js, m, m1, m2, cap);
    LeadsInRange(js, m, m2, cap);
    LeadsBlankAt(js, m2, p, h, 2, 3, cap);
    LeadsOn(js, m, m2, m2.(pos := p + 3), cap);
  }

  lemma SplitDocument(cmds: seq<Command>)
    ensures var js := Document(cmds);
            && At(js, 0, DocumentHead()) && At(js, 2, Entries(cmds)) && At(js, 2 + |Entries(cmds)|, DocumentTail())
            && |js| == 5 + |Entries(cmds)|
  {
    assert |DocumentHead()| == 2 && |DocumentTail()| == 3;
    var js := Document(cmds);
    assert js[0..|js|] == js;
    assert At(js, 0, js);
    hide At, Entries, DocumentHead, DocumentTail;
    AtSplit3(js, 0, DocumentHead(), Entries(cmds), DocumentTail());
  }

  /** The tokenizer, with room for exactly the document's tokens, produces them and uses up the text. */
  lemma DocumentParses(cmds: seq<Command>)
    requires forall c: Command | c in cmds :: NulFree(c)
    ensures Parse(Document(cmds), Start, |DocumentToks(cmds)|)
         == Next(Machine(|Document(cmds)|, DocumentToks(cmds), -1, []))
  {
    var js, cap := Document(cmds), |DocumentToks(cmds)|;
    SplitDocument(cmds);
    hide At, Document, Entries, DocumentHead, DocumentTail, NulFree, EntriesToks;
    LeadsDocumentHead(js, cap);
    var m1 := Machine(2, [Token(Array, 0, -1, 0)], 0, [0]);
    assert |DocumentToks(cmds)| == 1 + |EntriesToks(cmds, 2)|;
    LeadsEntries(js, m1, cmds, cap);
    var m2 := AddEntries(m1, cmds);
    assert m2.toks == [Token(Array, 0, -1, |cmds|)] + EntriesToks(cmds, 2);
    LeadsOn(js, Start, m1, m2, cap);
    LeadsDocumentTail(js, m2, cap);
    var m3 := Machine(|js|, m2.toks[0 := m2.toks[0].(end := m2.pos + 2)], -1, []);
    LeadsOn(js, Start, m2, m3, cap);
    assert m3.toks == DocumentToks(cmds);
  }
}
