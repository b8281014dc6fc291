/** The compile-commands reader, over the tokens that the filling pass leaves. */
module CompileCommands {
  import opened Tokens
  import opened TokenTree
  import opened CommandText
  import opened JsmnParser

  /** A command as it is read: the arguments are counted and packed. */
  datatype Read = Read(directory: string, file: string, numArgs: nat, packed: string)

  const Blank := Read("", "", 0, "")

  /** `Undefined`: the code reads a token that was never filled or that is behind the last one, or unescapes a token
      that is still open, whose length is negative, into a buffer that is too small for it. */
  datatype Outcome = Failed | Undefined | Parsed(cmds: seq<Read>)

  /** Strings are never open. */
  ghost predicate TokenIn(js: string, t: Token) {
    && 0 <= t.start <= |js| && (t.kind == Str ==> !IsOpen(t))
    && (!IsOpen(t) ==> t.start <= t.end <= |js|)
  }

  ghost predicate TokensIn(js: string, toks: seq<Token>) {
    forall i: nat | i < |toks| :: TokenIn(js, toks[i])
  }

  function Text(js: string, t: Token): string
    requires TokenIn(js, t) && !IsOpen(t)
  {
    js[t.start..t.end]
  }

  // ---- What is read from a token list ----

  datatype Taken = Gone | Taken(packed: string, next: nat)

  /** `n` arguments from token `i` on. */
  function ReadArgs(js: string, toks: seq<Token>, i: nat, n: nat): (r: Taken)
    requires TokensIn(js, toks) && i <= |toks|
    ensures r.Taken? ==> i <= r.next <= |toks|
    decreases n
  {
    if n == 0 then Taken("", i)
    else if i == |toks| || IsOpen(toks[i]) then Gone
    else
      match ReadArgs(js, toks, Skip(toks, i), n - 1)
      case Gone => Gone
      case Taken(packed, next) => Taken(Unescape(Text(js, toks[i])) + "\0" + packed, next)
  }

  datatype Fields = Astray | Fields(cmd: Read, next: nat)

  predicate IsKey(js: string, t: Token, key: string)
    requires TokenIn(js, t)
  {
    t.kind == Str && Text(js, t) == key
  }

  function ReadField(js: string, toks: seq<Token>, i: nat, cmd: Read): (r: Fields)
    requires TokensIn(js, toks) && i <= |toks|
    ensures r.Fields? ==> i < r.next <= |toks|
  {
    if i + 1 >= |toks| then Astray
    else
      var val := toks[i + 1];
      if IsKey(js, toks[i], "directory") then
        if IsOpen(val) then Astray else Fields(cmd.(directory := Unescape(Text(js, val))), Skip(toks, i + 1))
      else if IsKey(js, toks[i], "file") then
        if IsOpen(val) then Astray else Fields(cmd.(file := Unescape(Text(js, val))), Skip(toks, i + 1))
      else if IsKey(js, toks[i], "arguments") && val.kind == Array then
        match ReadArgs(js, toks, i + 2, val.size)
        case Gone => Astray
        case Taken(packed, next) => Fields(cmd.(numArgs := val.size, packed := packed), next)
      else Fields(cmd, Skip(toks, i + 1))
  }

  /** `k` keys with their values, from token `i` on. */
  function ReadFields(js: string, toks: seq<Token>, i: nat, k: nat, cmd: Read): (r: Fields)
    requires TokensIn(js, toks) && i <= |toks|
    ensures r.Fields? ==> i <= r.next <= |toks|
    decreases k
  {
    if k == 0 then Fields(cmd, i)
    else
      match ReadField(js, toks, i, cmd)
      case Astray => Astray
      case Fields(cmd', next) => ReadFields(js, toks, next, k - 1, cmd')
  }

  /** The elements from token `i` on.  The walk ends at the last token that was counted; `filled` says whether it was
      filled, too. */
  function ReadCommands(js: string, toks: seq<Token>, filled: bool, i: nat): Outcome
    requires TokensIn(js, toks) && i <= |toks|
    decreases |toks| - i
  {
    if i == |toks| then (if filled then Parsed([]) else Undefined)
    else if toks[i].kind != Object then ReadCommands(js, toks, filled, Skip(toks, i))
    else
      match ReadFields(js, toks, i + 1, toks[i].size, Blank)
      case Astray => Undefined
      case Fields(cmd, next) =>
        Prepend([cmd], ReadCommands(js, toks, filled, next))
  }

  function Prepend(out: seq<Read>, r: Outcome): Outcome {
    if r.Parsed? then Parsed(out + r.cmds) else r
  }

  lemma EndTokensIn(js: string, cap: nat)
    ensures TokensIn(js, ParseEnd(js, Start, cap).toks)
  {
    StartIsLaid();
    EndIsLaid(js, Start, [], cap);
    hide ParseEnd;
    LaidTokensIn(js, ParseEnd(js, Start, cap), Parents(js, Start, [], cap));
  }

  lemma LaidTokensIn(js: string, m: Machine, parents: seq<int>)
    requires Laid(m, parents) && m.pos <= |js|
    ensures TokensIn(js, m.toks)
  {
    hide ParentsEnclose, Disjoint, Under;
    forall i: nat | i < |m.toks| ensures TokenIn(js, m.toks[i]) {
      if IsOpen(m.toks[i]) { var k :| 0 <= k < |m.stack| && m.stack[k] == i; }
    }
  }

  /** What `zmm_cc_parse` makes of a file with content `js`.  It does not look at the result of the filling pass. */
  ghost function ReadDocument(js: string): Outcome {
    var n := CountPass(js, 0, 0);
    if n < 1 then Failed
    else
      EndTokensIn(js, n);
      var toks := ParseEnd(js, Start, n).toks;
      if |toks| == 0 then Undefined
      else if toks[0].kind != Array then Failed
      else ReadCommands(js, toks, |toks| == n, 1)
  }

  // ---- The reader itself ----

  /** `unescape_string_into`: the text between the quotes of `t`, unescaped and ended by a NUL, from `at` on. */
  method UnescapeInto(js: string, t: Token, dest: array<char>, at: nat) returns (len: nat)
    requires TokenIn(js, t) && !IsOpen(t) && at + (t.end - t.start) + 1 <= dest.Length
    modifies dest
    ensures len == |Unescape(Text(js, t))| <= t.end - t.start
    ensures dest[..at + len + 1] == old(dest[..at]) + Unescape(Text(js, t)) + "\0"
  {
    len := UnescapeSlice(js, t.start, t.end, dest, at);
  }

  method UnescapeSlice(js: string, from: nat, end: nat, dest: array<char>, at: nat) returns (out: nat)
    requires from <= end <= |js| && at + (end - from) + 1 <= dest.Length
    modifies dest
    ensures out == |Unescape(js[from..end])| <= end - from
    ensures dest[..at + out + 1] == old(dest[..at]) + Unescape(js[from..end]) + "\0"
  {
    hide *;
    out := 0;
    var i := from;
    ghost var start, done: string := dest[..at], "";
    ghost var all := Unescape(js[from..end]);
    assert "" + all == all;
    while i < end
      invariant from <= i <= end && out <= i - from && |done| == out
      invariant dest[..at + out] == start + done
      invariant done + Unescape(js[i..end]) == all
    {
      UnescapeStep(js, i, end, done, all);
      var c := js[i];
      if c == '\\' && i + 1 < end {
        i := i + 1;
        c := AfterBackslash(js[i]);
      }
      Put(dest, at + out, c);
      AddLast(start, done, c);
      done := done + [c];
      out := out + 1;
      i := i + 1;
    }
    UnescapeStep(js, end, end, done, all);
    Put(dest, at + out, '\0');
  }

  lemma UnescapeStep(js: string, i: nat, end: nat, done: string, all: string)
    requires i <= end <= |js| && done + Unescape(js[i..end]) == all
    ensures i == end ==> done == all
    ensures i < end && !(js[i] == '\\' && i + 1 < end) ==> done + [js[i]] + Unescape(js[i + 1..end]) == all
    ensures i + 1 < end && js[i] == '\\' ==> done + [AfterBackslash(js[i + 1])] + Unescape(js[i + 2..end]) == all
  {
    hide *;
    UnescapeFrom(js, i, end);
    if i == end {
    } else if js[i] == '\\' && i + 1 < end {
      AppendAssoc(done, AfterBackslash(js[i + 1]), Unescape(js[i + 2..end]));
    } else {
      AppendAssoc(done, js[i], Unescape(js[i + 1..end]));
    }
  }

  lemma AddLast(a: string, b: string, c: char)
    ensures a + b + [c] == a + (b + [c])
  {
  }

  method Put(dest: array<char>, at: nat, c: char)
    requires at < dest.Length
    modifies dest
    ensures dest[..at + 1] == old(dest[..at]) + [c]
  {
    dest[at] := c;
  }

  lemma AppendAssoc(a: string, c: char, b: string)
    ensures a + ([c] + b) == a + [c] + b
  {
  }

  lemma UnescapeFrom(js: string, i: nat, end: nat)
    requires i <= end <= |js|
    ensures Unescape(js[i..end]) ==
              if i == end then ""
              else if js[i] == '\\' && i + 1 < end then [AfterBackslash(js[i + 1])] + Unescape(js[i + 2..end])
              else [js[i]] + Unescape(js[i + 1..end])
  {
    if i + 1 < end { assert js[i..end][2..] == js[i + 2..end]; }
    if i < end { assert js[i..end][1..] == js[i + 1..end]; }
  }

  /** `unescape_string`. */
  method UnescapeString(js: string, t: Token) returns (s: string)
    requires TokenIn(js, t) && !IsOpen(t)
    ensures s == Unescape(Text(js, t))
  {
    var dest := new char[t.end - t.start + 1];
    var len := UnescapeInto(js, t, dest, 0);
    s := dest[0..len];
  }

  /** The room that is reserved for `n` arguments from token `i` on. */
  function Room(toks: seq<Token>, i: nat, n: nat): int
    requires i <= |toks|
    decreases n
  {
    if n == 0 || i == |toks| then 0
    else toks[i].end - toks[i].start + 1 + Room(toks, Skip(toks, i), n - 1)
  }

  lemma {:induction false} RoomSuffices(js: string, toks: seq<Token>, i: nat, n: nat)
    requires TokensIn(js, toks) && i <= |toks| && ReadArgs(js, toks, i, n).Taken?
    ensures |ReadArgs(js, toks, i, n).packed| <= Room(toks, i, n)
    decreases n
  {
    if n > 0 { RoomSuffices(js, toks, Skip(toks, i), n - 1); }
  }

  /** The first pass over the arguments: how much room they need. */
  method MeasureArguments(js: string, toks: array<Token>, filled: nat, first: nat, numArgs: nat)
    returns (ok: bool, room: int)
    requires first <= filled <= toks.Length && TokensIn(js, toks[..filled])
    ensures ok == ReadArgs(js, toks[..filled], first, numArgs).Taken?
    ensures ok ==> room == Room(toks[..filled], first, numArgs)
  {
    hide Skip;
    room := 0;
    var i: nat := first;
    ghost var ts := toks[..filled];
    for a := 0 to numArgs
      invariant i <= filled
      invariant room + Room(ts, i, numArgs - a) == Room(ts, first, numArgs)
      invariant ReadArgs(js, ts, i, numArgs - a).Taken? == ReadArgs(js, ts, first, numArgs).Taken?
    {
      if i >= filled || toks[i].end == -1 { return false, 0; }
      room := room + (toks[i].end - toks[i].start) + 1;
      i := SkipToken(toks, filled, i);
    }
    ok := true;
  }

  /** Both passes.  Every write of the second lands in the `max_packed_len` bytes the first has measured. */
  method ReadArguments(js: string, toks: array<Token>, filled: nat, first: nat, numArgs: nat)
    returns (ok: bool, dest: array<char>, written: nat, next: nat)
    requires first <= filled <= toks.Length && TokensIn(js, toks[..filled])
    ensures fresh(dest)
    ensures match ReadArgs(js, toks[..filled], first, numArgs)
            case Gone => !ok
            case Taken(p, n) =>
              && ok && dest.Length == Room(toks[..filled], first, numArgs) && written <= dest.Length
              && dest[..written] == p && next == n
  {
    hide Skip, TokensIn;
    written, next := 0, first;
    ghost var ts := toks[..filled];
    var room;
    ok, room := MeasureArguments(js, toks, filled, first, numArgs);
    if !ok { dest := new char[0]; return; }
    RoomSuffices(js, ts, first, numArgs);
    dest := new char[room];
    ghost var all := ReadArgs(js, ts, first, numArgs).packed;
    for a := 0 to numArgs
      invariant next <= filled && written <= dest.Length
      invariant written + Room(ts, next, numArgs - a) <= room
      invariant ReadArgs(js, ts, next, numArgs - a).Taken?
      invariant dest[..written] + ReadArgs(js, ts, next, numArgs - a).packed == all
      invariant ReadArgs(js, ts, next, numArgs - a).next == ReadArgs(js, ts, first, numArgs).next
    {
      written, next := ReadArgument(js, toks, filled, next, numArgs - a, dest, written, all);
    }
  }

  method ReadArgument(js: string, toks: array<Token>, filled: nat, i: nat, left: nat, dest: array<char>, at: nat,
                      ghost all: string)
    returns (at': nat, next: nat)
    requires i <= filled <= toks.Length && at <= dest.Length && left > 0
    requires TokensIn(js, toks[..filled]) && at + Room(toks[..filled], i, left) <= dest.Length
    requires var r := ReadArgs(js, toks[..filled], i, left); r.Taken? && dest[..at] + r.packed == all
    modifies dest
    ensures next <= filled && at' <= dest.Length && at' + Room(toks[..filled], next, left - 1) <= dest.Length
    ensures var r := ReadArgs(js, toks[..filled], next, left - 1);
            r.Taken? && dest[..at'] + r.packed == all && r.next == ReadArgs(js, toks[..filled], i, left).next
  {
    hide Skip, Unescape;
    ghost var ts, start := toks[..filled], dest[..at];
    RoomSuffices(js, ts, Skip(ts, i), left - 1);
    next := SkipToken(toks, filled, i);
    var len := UnescapeInto(js, toks[i], dest, at);
    at' := at + len + 1;
    ghost var r := ReadArgs(js, ts, next, left - 1);
    JoinArgument(start, Unescape(Text(js, toks[i])), r.packed);
  }

  lemma JoinArgument(a: string, b: string, c: string)
    ensures a + b + "\0" + c == a + (b + "\0" + c)
  {
  }

  /** One key and its value. */
  method ParseField(js: string, toks: array<Token>, filled: nat, i: nat, cmd: Read)
    returns (ok: bool, cmd': Read, next: nat)
    requires i <= filled <= toks.Length && TokensIn(js, toks[..filled])
    ensures match ReadField(js, toks[..filled], i, cmd)
            case Astray => !ok
            case Fields(c, n) => ok && cmd' == c && next == n
  {
    hide Skip, Unescape;
    cmd', next := cmd, i;
    if i + 1 >= filled { return false, cmd, i; }
    ghost var ts := toks[..filled];
    var key, val := toks[i], toks[i + 1];
    assert ts[i] == key && ts[i + 1] == val;
    ok := true;
    if key.kind == Str && js[key.start..key.end] == "directory" {
      if val.end == -1 { return false, cmd, i; }
      var s := UnescapeString(js, val);
      cmd' := cmd.(directory := s);
      next := SkipToken(toks, filled, i + 1);
    } else if key.kind == Str && js[key.start..key.end] == "file" {
      if val.end == -1 { return false, cmd, i; }
      var s := UnescapeString(js, val);
      cmd' := cmd.(file := s);
      next := SkipToken(toks, filled, i + 1);
    } else if key.kind == Str && js[key.start..key.end] == "arguments" {
      if val.kind == Array {
        var dest, written;
        ok, dest, written, next := ReadArguments(js, toks, filled, i + 2, val.size);
        if ok { cmd' := cmd.(numArgs := val.size, packed := dest[..written]); }
      } else {
        next := SkipToken(toks, filled, i + 1);
      }
    } else {
      next := SkipToken(toks, filled, i + 1);
    }
  }

  /** One object; not `ok` when its reading goes astray. */
  method ParseObject(js: string, toks: array<Token>, filled: nat, i: nat) returns (ok: bool, cmd: Read, next: nat)
    requires i < filled <= toks.Length && TokensIn(js, toks[..filled])
    ensures match ReadFields(js, toks[..filled], i + 1, toks[i].size, Blank)
            case Astray => !ok
            case Fields(c, n) => ok && cmd == c && next == n
  {
    hide ReadField;
    var keys := toks[i].size;
    cmd, next := Blank, i + 1;
    for k := 0 to keys
      invariant next <= filled
      invariant ReadFields(js, toks[..filled], next, keys - k, cmd) ==
          ReadFields(js, toks[..filled], i + 1, keys, Blank)
    {
      ok, cmd, next := ParseField(js, toks, filled, next, cmd);
      if !ok { return; }
    }
    ok := true;
  }

  /** `zmm_cc_parse`, for a file with content `js`: one pass to count, one to fill, whose result is not looked at, then
      the walk. */
  method CcParse(js: string) returns (r: Outcome)
    ensures r == ReadDocument(js)
  {
    hide Parse, CountPass, ReadFields, Skip, TokensIn;
    var p := new JsmnParser.Parser();
    var count := p.Parse(js, null, Start);
    if count < 0 { return Failed; }
    var toks := new Token[count];
    p := new JsmnParser.Parser();
    assert toks[..0] == [];
    StartIsGood();
    var _ := p.Parse(js, toks, Start);
    if count < 1 { return Failed; }
    EndTokensIn(js, count);
    if p.toknext < 1 { return Undefined; }
    if toks[0].kind != Array { return Failed; }
    r := Walk(js, toks, p.toknext);
  }

  lemma StartIsGood()
    ensures Good(Start)
  {
  }

  /** The walk over the array's elements, up to the number of tokens that were counted. */
  method Walk(js: string, toks: array<Token>, filled: nat) returns (r: Outcome)
    requires 1 <= filled <= toks.Length && TokensIn(js, toks[..filled])
    ensures r == ReadCommands(js, toks[..filled], filled == toks.Length, 1)
  {
    hide Skip, ReadFields;
    ghost var ts, full := toks[..filled], filled == toks.Length;
    var i, out := 1, [];
    while i < toks.Length
      invariant i <= filled
      invariant ReadCommands(js, ts, full, 1) == Prepend(out, ReadCommands(js, ts, full, i))
    {
      if i >= filled { return Undefined; }
      if toks[i].kind != Object {
        i := SkipToken(toks, filled, i);
      } else {
        var ok, cmd, next := ParseObject(js, toks, filled, i);
        if !ok { return Undefined; }
        PrependOne(out, cmd, ReadCommands(js, ts, full, next));
        out, i := out + [cmd], next;
      }
    }
    r := Parsed(out);
  }

  lemma PrependOne(out: seq<Read>, cmd: Read, r: Outcome)
    ensures Prepend(out, Prepend([cmd], r)) == Prepend(out + [cmd], r)
  {
    if r.Parsed? { assert out + ([cmd] + r.cmds) == out + [cmd] + r.cmds; }
  }

  lemma ConfigUnescapeFrom(src: string, i: nat)
    requires i <= |src|
    ensures ConfigUnescape(src[i..]) ==
              if i == |src| then ""
              else if src[i] == '\\' && i + 1 < |src| then
                [ConfigAfterBackslash(src[i + 1])] + ConfigUnescape(src[i + 2..])
              else [src[i]] + ConfigUnescape(src[i + 1..])
  {
    if i + 1 < |src| { assert src[i..][2..] == src[i + 2..]; }
    if i < |src| { assert src[i..][1..] == src[i + 1..]; }
  }

  /** `unescape_json_string` of the command line: never longer than its source. */
  method UnescapeJsonString(src: string) returns (dest: array<char>, d: nat)
    ensures fresh(dest) && d <= |src| <= dest.Length && dest[..d] == ConfigUnescape(src)
  {
    hide ConfigAfterBackslash, ConfigUnescape;
    dest := new char[|src|];
    d := 0;
    var i := 0;
    assert src[0..] == src;
    while i < |src|
      invariant d <= i <= |src|
      invariant dest[..d] + ConfigUnescape(src[i..]) == ConfigUnescape(src)
    {
      ghost var done := dest[..d];
      ConfigUnescapeFrom(src, i);
      if src[i] == '\\' && i + 1 < |src| {
        i := i + 1;
        dest[d] := ConfigAfterBackslash(src[i]);
      } else {
        dest[d] := src[i];
      }
      d := d + 1;
      i := i + 1;
      assert dest[..d] == done + [dest[d - 1]];
      AppendAssoc(done, dest[d - 1], ConfigUnescape(src[i..]));
    }
    ConfigUnescapeFrom(src, |src|);
    assert dest[..d] == dest[..d] + "";
  }
}
