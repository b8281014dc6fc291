/** The streaming reader of makefile-style dependency files. */
module Depfile {

  /** What the reader keeps between characters: the token being read, three flags, and the result. */
  datatype State = State(token: string, seenColon: bool, escaping: bool, skipLf: bool, deps: seq<string>)

  const Fresh := State("", false, false, false, [])

  /** Whitespace of the C locale. */
  predicate IsSpace(c: char) {
    c == ' ' || c == '\t' || c == '\n' || c == '\r' || c == '\U{b}' || c == '\U{c}'
  }

  function Append(st: State, c: char): State { st.(token := st.token + [c]) }

  /** The end of a token: it counts only behind a colon. */
  function Commit(st: State): State {
    if st.token == "" then st
    else st.(token := "", deps := if st.seenColon then st.deps + [st.token] else st.deps)
  }

  function Plain(st: State, c: char): State {
    if c == '\\' then st.(escaping := true)
    else if c == '\n' || c == '\r' then Commit(st).(seenColon := false)
    else if c == ':' then
      if !st.seenColon then st.(seenColon := true, token := "") else Append(st, c)
    else if IsSpace(c) then Commit(st)
    else Append(st, c)
  }

  function Step(st: State, c: char): State {
    if st.skipLf && c == '\n' then st.(skipLf := false)
    else
      var s := st.(skipLf := false);
      if s.escaping then
        if c == '\n' || c == '\r' then s.(escaping := false, skipLf := c == '\r')
        else Append(s.(escaping := false), c)
      else Plain(s, c)
  }

  function Run(text: string, st: State): State {
    if text == "" then st else Run(text[1..], Step(st, text[0]))
  }

  /** The names a file yields. */
  function Deps(text: string): seq<string> { Commit(Run(text, Fresh)).deps }

  lemma {:induction false} RunAppend(a: string, b: string, st: State)
    ensures Run(a + b, st) == Run(b, Run(a, st))
  {
    hide Step;
    if a == "" {
      assert a + b == b;
    } else {
      assert (a + b)[1..] == a[1..] + b;
      RunAppend(a[1..], b, Step(st, a[0]));
    }
  }

  // ---- The code ----

  const ChunkSize := 128
  const StackSize := 1024

  class Reader {
    var tokenBuf: array<char>
    var tokenLen: nat
    var seenColon: bool
    var escaping: bool
    var skipLf: bool
    var deps: seq<string>

    ghost predicate Valid()
      reads this
    {
      tokenLen <= tokenBuf.Length && tokenBuf.Length > 0
    }

    ghost function Now(): State
      requires Valid()
      reads this, tokenBuf
    {
      State(tokenBuf[..tokenLen], seenColon, escaping, skipLf, deps)
    }

    constructor ()
      ensures Valid() && fresh(tokenBuf) && Now() == Fresh
    {
      tokenBuf := new char[StackSize];
      tokenLen, seenColon, escaping, skipLf, deps := 0, false, false, false, [];
    }

    /** The token grows; a full buffer is replaced by one of twice the size. */
    method AppendChar(c: char)
      requires Valid()
      modifies this`tokenBuf, this`tokenLen, tokenBuf
      ensures Valid() && (tokenBuf == old(tokenBuf) || fresh(tokenBuf)) && Now() == Append(old(Now()), c)
    {
      if tokenLen >= tokenBuf.Length {
        var bigger := new char[tokenBuf.Length * 2];
        forall k | 0 <= k < tokenLen { bigger[k] := tokenBuf[k]; }
        assert bigger[..tokenLen] == tokenBuf[..tokenLen];
        tokenBuf := bigger;
      }
      tokenBuf[tokenLen] := c;
      tokenLen := tokenLen + 1;
    }

    method CommitToken()
      requires Valid()
      modifies this`tokenLen, this`deps
      ensures Valid() && Now() == Commit(old(Now()))
    {
      if tokenLen > 0 {
        if seenColon { deps := deps + [tokenBuf[..tokenLen]]; }
        tokenLen := 0;
      }
    }

    /** The body of the inner loop. */
    method Feed(c: char)
      requires Valid()
      modifies this, tokenBuf
      ensures Valid() && (tokenBuf == old(tokenBuf) || fresh(tokenBuf)) && Now() == Step(old(Now()), c)
    {
      if skipLf {
        skipLf := false;
        if c == '\n' { return; }
      }
      if escaping {
        escaping := false;
        if c == '\n' || c == '\r' {
          if c == '\r' { skipLf := true; }
        } else {
          AppendChar(c);
        }
        return;
      }
      if c == '\\' {
        escaping := true;
      } else if c == '\n' || c == '\r' {
        CommitToken();
        seenColon := false;
      } else if c == ':' {
        if !seenColon {
          seenColon := true;
          tokenLen := 0;
        } else {
          AppendChar(c);
        }
      } else if IsSpace(c) {
        CommitToken();
      } else {
        AppendChar(c);
      }
    }

    /** The file is read in chunks; the result does not depend on where they end. */
    method Parse(file: string)
      requires Valid() && Now() == Fresh
      modifies this, tokenBuf
      ensures deps == Deps(file)
    {
      var chunk := new char[ChunkSize];
      var read := 0;
      assert file[0..] == file;
      while read < |file|
        invariant read <= |file| && Valid() && (tokenBuf == old(tokenBuf) || fresh(tokenBuf)) && tokenBuf != chunk
        invariant Run(file[read..], Now()) == Run(file, Fresh)
      {
        var bytesRead := if |file| - read < ChunkSize then |file| - read else ChunkSize;
        forall i | 0 <= i < bytesRead { chunk[i] := file[read + i]; }
        for i := 0 to bytesRead
          invariant Valid() && (tokenBuf == old(tokenBuf) || fresh(tokenBuf)) && tokenBuf != chunk
          invariant forall k | 0 <= k < bytesRead :: chunk[k] == file[read + k]
          invariant Run(file[read + i..], Now()) == Run(file, Fresh)
        {
          assert file[read + i..][1..] == file[read + i + 1..];
          Feed(chunk[i]);
        }
        read := read + bytesRead;
      }
      CommitToken();
    }
  }

  // ---- Printing ----

  /** A gap between names: blanks, and lines continued with a backslash. */
  datatype Gap = Blank(c: char) | Continued

  /** A name, and how it is spelled. */
  datatype Item = Item(gap: seq<Gap>, text: string, name: string)

  /** The text of a rule: targets, a colon, prerequisites, each behind a gap. */
  datatype Rule = Rule(targets: seq<Item>, beforeColon: seq<Gap>, prereqs: seq<Item>, atEnd: seq<Gap>)

  /** Space, horizontal tab, vertical tab, form feed. */
  predicate IsBlank(c: char) { c == ' ' || c == '\t' || c == '\U{b}' || c == '\U{c}' }

  ghost predicate GapOk(gap: seq<Gap>) {
    forall g: Gap | g in gap && g.Blank? :: IsBlank(g.c)
  }

  /** A blank ends a name; a continued line does not. */
  predicate Separates(gap: seq<Gap>) {
    exists k :: 0 <= k < |gap| && gap[k].Blank?
  }

  predicate NoLineBreak(name: string) { '\n' !in name && '\r' !in name }

  /** A character that can be written without a backslash: no blank, no backslash, no line break, and a colon only
      behind the first one of the line. */
  predicate Bare(c: char, behindColon: bool) {
    c != ' ' && c != '\t' && c != '\U{b}' && c != '\U{c}' && c != '\\' && c != '\n' && c != '\r'
    && (c == ':' ==> behindColon)
  }

  /** `text` spells `name`: each character bare, or behind a backslash, which any but a line break may be. */
  ghost predicate Spells(text: string, name: string, behindColon: bool) {
    if name == "" then text == ""
    else
      || (text != "" && text[0] == name[0] && Bare(name[0], behindColon) && Spells(text[1..], name[1..], behindColon))
      || (|text| > 1 && text[0] == '\\' && text[1] == name[0] && name[0] != '\n' && name[0] != '\r'
          && Spells(text[2..], name[1..], behindColon))
  }

  ghost predicate ItemOk(item: Item, behindColon: bool) {
    GapOk(item.gap) && Spells(item.text, item.name, behindColon)
  }

  ghost predicate ItemsOk(items: seq<Item>, behindColon: bool) {
    forall k: nat | k < |items| :: ItemOk(items[k], behindColon)
  }

  /** Names are spelled, gaps are blanks and continued lines: what the format can express. */
  ghost predicate RuleOk(r: Rule) {
    GapOk(r.beforeColon) && GapOk(r.atEnd) && ItemsOk(r.targets, false) && ItemsOk(r.prereqs, true)
  }

  ghost predicate RulesOk(rules: seq<Rule>) {
    forall k: nat | k < |rules| :: RuleOk(rules[k])
  }

  lemma RulesOkTail(rules: seq<Rule>)
    requires RulesOk(rules) && rules != []
    ensures RuleOk(rules[0]) && RulesOk(rules[1..])
  {
    hide RuleOk;
  }

  function GapText(gap: seq<Gap>): string {
    if gap == [] then ""
    else (if gap[0].Blank? then [gap[0].c] else "\\\n") + GapText(gap[1..])
  }

  /** The usual spelling: backslashes where they are needed, and in front of every colon. */
  function EscapeName(name: string): string {
    if name == "" then ""
    else
      var c := name[0];
      (if c == ' ' || c == '\t' || c == '\U{b}' || c == '\U{c}' || c == '\\' || c == ':' then ['\\', c] else [c])
      + EscapeName(name[1..])
  }

  /** It can be used on either side of the colon, for any name without line breaks. */
  lemma {:induction false} EscapeSpells(name: string, behindColon: bool)
    requires NoLineBreak(name)
    ensures Spells(EscapeName(name), name, behindColon)
  {
    if name != "" {
      EscapeSpells(name[1..], behindColon);
      var c := name[0];
      var text, rest := EscapeName(name), EscapeName(name[1..]);
      if c == ' ' || c == '\t' || c == '\U{b}' || c == '\U{c}' || c == '\\' || c == ':' {
        assert text[2..] == rest;
      } else {
        assert text[1..] == rest;
      }
    }
  }

  function ItemsText(items: seq<Item>): string {
    if items == [] then "" else GapText(items[0].gap) + items[0].text + ItemsText(items[1..])
  }

  /** A rule without the line break behind it. */
  function RuleText(r: Rule): string {
    ItemsText(r.targets) + GapText(r.beforeColon) + ":" + ItemsText(r.prereqs) + GapText(r.atEnd)
  }

  function RulesText(rules: seq<Rule>): string {
    if rules == [] then "" else RuleText(rules[0]) + "\n" + RulesText(rules[1..])
  }

  function Names(items: seq<Item>): seq<string> {
    if items == [] then [] else [items[0].name] + Names(items[1..])
  }

  /** All prerequisites in order. */
  function AllPrereqs(rules: seq<Rule>): seq<string> {
    if rules == [] then [] else Names(rules[0].prereqs) + AllPrereqs(rules[1..])
  }

  // ---- Reading what was printed ----

  lemma RunNothing(st: State)
    ensures Run("", st) == st
  {
  }

  lemma RunTwo(a: char, b: char, st: State)
    ensures Run([a, b], st) == Step(Step(st, a), b)
  {
    hide Step;
    assert [a, b][1..] == [b] && [b][1..] == "";
    assert Run([b], Step(st, a)) == Step(Step(st, a), b);
  }

  /** Between names and separators. */
  predicate Clean(st: State) { !st.escaping && !st.skipLf }

  lemma {:induction false} RunGap(gap: seq<Gap>, st: State)
    requires GapOk(gap) && Clean(st)
    ensures Run(GapText(gap), st) == if Separates(gap) then Commit(st) else st
    decreases |gap|
  {
    if gap != [] {
      var head := if gap[0].Blank? then [gap[0].c] else "\\\n";
      assert forall g: Gap | g in gap[1..] :: g in gap;
      assert gap[0] in gap;
      RunAppend(head, GapText(gap[1..]), st);
      RunGapHead(gap[0], st);
      var next := if gap[0].Blank? then Commit(st) else st;
      RunGap(gap[1..], next);
      SeparatesTail(gap);
    }
  }

  lemma SeparatesTail(gap: seq<Gap>)
    requires gap != []
    ensures Separates(gap) <==> gap[0].Blank? || Separates(gap[1..])
  {
    if gap[0].Blank? { assert gap[0].Blank?; }
    if Separates(gap[1..]) {
      var k :| 0 <= k < |gap[1..]| && gap[1..][k].Blank?;
      assert gap[k + 1].Blank?;
    }
    if Separates(gap) && !gap[0].Blank? {
      var k :| 0 <= k < |gap| && gap[k].Blank?;
      assert gap[1..][k - 1].Blank?;
    }
  }

  lemma RunGapHead(g: Gap, st: State)
    requires Clean(st) && (g.Blank? ==> IsBlank(g.c))
    ensures Run(if g.Blank? then [g.c] else "\\\n", st) == if g.Blank? then Commit(st) else st
  {
    if g.Continued? {
      RunTwo('\\', '\n', st);
      assert "\\\n" == ['\\', '\n'];
    }
  }

  /** A spelled name adds exactly the name to the token. */
  lemma {:induction false} RunName(text: string, name: string, st: State)
    requires Spells(text, name, st.seenColon) && Clean(st)
    ensures Run(text, st) == st.(token := st.token + name)
    decreases |name|
  {
    hide Run;
    if name == "" {
      RunNothing(st);
      assert st.token + name == st.token;
    } else {
      var c := name[0];
      assert st.token + [c] + name[1..] == st.token + name;
      if text[0] == c && Bare(c, st.seenColon) && Spells(text[1..], name[1..], st.seenColon) {
        RunBare(c, text, st);
        RunName(text[1..], name[1..], Append(st, c));
      } else {
        RunEscaped(c, text, st);
        RunName(text[2..], name[1..], Append(st, c));
      }
    }
  }

  lemma RunBare(c: char, text: string, st: State)
    requires text != "" && text[0] == c && Bare(c, st.seenColon) && Clean(st)
    ensures Run(text, st) == Run(text[1..], Append(st, c))
  {
  }

  lemma RunEscaped(c: char, text: string, st: State)
    requires |text| > 1 && text[0] == '\\' && text[1] == c && c != '\n' && c != '\r' && Clean(st)
    ensures Run(text, st) == Run(text[2..], Append(st, c))
  {
    assert text[1..][1..] == text[2..];
    assert Run(text, st) == Run(text[1..], Step(st, '\\'));
    assert Run(text[1..], Step(st, '\\')) == Run(text[2..], Step(Step(st, '\\'), c));
  }

  /** The names read so far, with the one being read. */
  function Pending(st: State): seq<string> {
    if st.token == "" then st.deps else st.deps + [st.token]
  }

  /** What a reader makes of the items when it is in the middle of `token`: only a blank ends a name. */
  function Joined(items: seq<Item>, token: string): seq<string> {
    if items == [] then (if token == "" then [] else [token])
    else if !Separates(items[0].gap) || token == "" then Joined(items[1..], token + items[0].name)
    else [token] + Joined(items[1..], items[0].name)
  }

  function AllJoined(rules: seq<Rule>): seq<string> {
    if rules == [] then [] else Joined(rules[0].prereqs, "") + AllJoined(rules[1..])
  }

  lemma {:induction false} RunPrereqs(items: seq<Item>, st: State)
    requires Clean(st) && st.seenColon && ItemsOk(items, true)
    ensures var s := Run(ItemsText(items), st);
            Clean(s) && s.seenColon && Pending(s) == st.deps + Joined(items, st.token)
    decreases |items|
  {
    hide Run, ItemOk, Separates;
    if items != [] {
      RunItem(items[0], st, ItemsText(items[1..]));
      var s := if Separates(items[0].gap) then Commit(st) else st;
      assert forall k: nat | k < |items[1..]| :: items[1..][k] == items[k + 1];
      RunPrereqs(items[1..], s.(token := s.token + items[0].name));
      AfterItem(items, st);
    } else {
      RunNothing(st);
      assert st.deps + [] == st.deps;
    }
  }

  lemma AfterItem(items: seq<Item>, st: State)
    requires st.seenColon && items != []
    ensures var s := if Separates(items[0].gap) then Commit(st) else st;
            s.deps + Joined(items[1..], s.token + items[0].name) == st.deps + Joined(items, st.token)
  {
    hide Separates;
    assert "" + items[0].name == items[0].name;
    if Separates(items[0].gap) && st.token != "" {
      Assoc(st.deps, [st.token], Joined(items[1..], items[0].name));
    }
  }

  lemma Assoc(a: seq<string>, b: seq<string>, c: seq<string>)
    ensures a + (b + c) == a + b + c
  {
  }

  lemma RunItem(item: Item, st: State, rest: string)
    requires Clean(st) && ItemOk(item, st.seenColon)
    ensures var s := if Separates(item.gap) then Commit(st) else st;
            Run(GapText(item.gap) + item.text + rest, st) == Run(rest, s.(token := s.token + item.name))
  {
    hide Run;
    RunAppend(GapText(item.gap) + item.text, rest, st);
    RunAppend(GapText(item.gap), item.text, st);
    RunGap(item.gap, st);
    RunName(item.text, item.name, if Separates(item.gap) then Commit(st) else st);
  }

  /** Targets leave nothing but the token being read. */
  lemma {:induction false} RunTargets(items: seq<Item>, st: State)
    requires Clean(st) && !st.seenColon && ItemsOk(items, false)
    ensures var s := Run(ItemsText(items), st); s == st.(token := s.token)
    decreases |items|
  {
    if items != [] {
      RunItem(items[0], st, ItemsText(items[1..]));
      var s := (if Separates(items[0].gap) then Commit(st) else st);
      assert forall k: nat | k < |items[1..]| :: items[1..][k] == items[k + 1];
      RunTargets(items[1..], s.(token := s.token + items[0].name));
    }
  }

  /** Between rules. */
  predicate AtLineStart(st: State) { Clean(st) && !st.seenColon && st.token == "" }

  lemma RunRule(r: Rule, st: State)
    requires RuleOk(r) && AtLineStart(st)
    ensures var s := Run(RuleText(r), st);
            Clean(s) && s.seenColon && Pending(s) == st.deps + Joined(r.prereqs, "")
  {
    hide Run;
    var t1 := ItemsText(r.targets);
    var t2 := t1 + GapText(r.beforeColon);
    var t3 := t2 + ":";
    var t4 := t3 + ItemsText(r.prereqs);
    RunAppend(t4, GapText(r.atEnd), st);
    RunAppend(t3, ItemsText(r.prereqs), st);
    RunAppend(t2, ":", st);
    RunAppend(t1, GapText(r.beforeColon), st);
    RunTargets(r.targets, st);
    var s1 := Run(t1, st);
    RunGap(r.beforeColon, s1);
    var s2 := Run(t2, st);
    RunColon(s2);
    var s3 := Run(t3, st);
    assert s3.deps == st.deps;
    RunPrereqs(r.prereqs, s3);
    var s4 := Run(t4, st);
    RunGap(r.atEnd, s4);
  }

  lemma RunColon(st: State)
    requires Clean(st) && !st.seenColon
    ensures Run(":", st) == st.(seenColon := true, token := "")
  {
    assert ":"[1..] == "";
  }

  lemma RunLineEnd(st: State)
    requires Clean(st) && st.seenColon
    ensures var s := Run("\n", st); AtLineStart(s) && s.deps == Pending(st)
  {
    assert "\n"[1..] == "";
  }

  lemma {:induction false} RunRules(rules: seq<Rule>, st: State)
    requires AtLineStart(st) && RulesOk(rules)
    ensures var s := Run(RulesText(rules), st); AtLineStart(s) && s.deps == st.deps + AllJoined(rules)
    decreases |rules|
  {
    hide RuleOk, Run, Joined, RuleText, RulesOk;
    if rules == [] {
      RunNothing(st);
      assert st.deps + [] == st.deps;
    } else {
      RulesOkTail(rules);
      var s := RunFirstRule(rules, st);
      RunRules(rules[1..], s);
      Assoc(st.deps, Joined(rules[0].prereqs, ""), AllJoined(rules[1..]));
    }
  }

  lemma RunFirstRule(rules: seq<Rule>, st: State) returns (s: State)
    requires AtLineStart(st) && rules != [] && RuleOk(rules[0])
    ensures Run(RulesText(rules), st) == Run(RulesText(rules[1..]), s)
    ensures AtLineStart(s) && s.deps == st.deps + Joined(rules[0].prereqs, "")
  {
    hide RuleOk, RuleText, Joined, Run;
    RunAppend(RuleText(rules[0]) + "\n", RulesText(rules[1..]), st);
    RunAppend(RuleText(rules[0]), "\n", st);
    RunRule(rules[0], st);
    RunLineEnd(Run(RuleText(rules[0]), st));
    s := Run(RuleText(rules[0]) + "\n", st);
  }

  /** What is read from printed rules, whatever they are: no target, and the prerequisites in order, those without
      a blank between them as one name. */
  lemma PrintedIsRead(rules: seq<Rule>)
    requires RulesOk(rules)
    ensures Deps(RulesText(rules)) == AllJoined(rules)
  {
    RunRules(rules, Fresh);
    assert [] + AllJoined(rules) == AllJoined(rules);
  }

  /** The same when the last rule has no line break behind it. */
  lemma PrintedIsReadAtEnd(rules: seq<Rule>, last: Rule)
    requires RulesOk(rules) && RuleOk(last)
    ensures Deps(RulesText(rules) + RuleText(last)) == AllJoined(rules + [last])
  {
    hide RuleText, RulesText, Joined, AllJoined, RuleOk;
    RunAppend(RulesText(rules), RuleText(last), Fresh);
    RunRules(rules, Fresh);
    RunRule(last, Run(RulesText(rules), Fresh));
    assert [] + AllJoined(rules) == AllJoined(rules);
    AllJoinedAppend(rules, last);
  }

  lemma {:induction false} AllJoinedAppend(rules: seq<Rule>, last: Rule)
    ensures AllJoined(rules + [last]) == AllJoined(rules) + Joined(last.prereqs, "")
  {
    hide Joined;
    if rules == [] {
      assert [last][1..] == [] && [] + [last] == [last];
    } else {
      assert (rules + [last])[1..] == rules[1..] + [last];
      AllJoinedAppend(rules[1..], last);
      Assoc(Joined(rules[0].prereqs, ""), AllJoined(rules[1..]), Joined(last.prereqs, ""));
    }
  }

  // ---- When exactly the prerequisites come back ----

  /** No name is empty, and a blank is in front of every item that follows a name. */
  ghost predicate KeptApart(items: seq<Item>, first: bool) {
    && (forall k: nat | k < |items| :: items[k].name != "")
    && (forall k: nat | k < |items| && (k > 0 || !first) :: Separates(items[k].gap))
  }

  lemma KeptApartTail(items: seq<Item>, first: bool)
    requires items != []
    ensures KeptApart(items, first) <==>
      items[0].name != "" && (first || Separates(items[0].gap)) && KeptApart(items[1..], false)
  {
    hide Separates;
    if items[0].name != "" && (first || Separates(items[0].gap)) && KeptApart(items[1..], false) {
      forall k: nat | k < |items|
        ensures items[k].name != "" && (k > 0 || !first ==> Separates(items[k].gap))
      {
        if k > 0 { assert items[k] == items[1..][k - 1]; }
      }
    }
    if KeptApart(items, first) {
      assert forall k: nat | k < |items[1..]| :: items[1..][k] == items[k + 1];
    }
  }

  /** Names can only be lost, never made up. */
  lemma {:induction false} JoinedIsNoLonger(items: seq<Item>, token: string)
    ensures |Joined(items, token)| <= |items| + if token == "" then 0 else 1
    decreases |items|
  {
    hide Separates;
    if items != [] {
      JoinedIsNoLonger(items[1..], token + items[0].name);
      JoinedIsNoLonger(items[1..], items[0].name);
      assert "" + items[0].name == items[0].name;
    }
  }

  lemma {:induction false} NamesLength(items: seq<Item>)
    ensures |Names(items)| == |items|
  {
    if items != [] { NamesLength(items[1..]); }
  }

  function Unless(token: string): seq<string> { if token == "" then [] else [token] }

  /** One rule: all names come back exactly if they are kept apart. */
  lemma {:induction false} JoinedIsNamesIff(items: seq<Item>, token: string)
    ensures Joined(items, token) == Unless(token) + Names(items) <==> KeptApart(items, token == "")
    decreases |items|
  {
    if items != [] {
      hide Separates, KeptApart;
      KeptApartTail(items, token == "");
      NamesLength(items);
      if !Separates(items[0].gap) && token != "" {
        JoinedIsNoLonger(items[1..], token + items[0].name);
      } else {
        JoinedFirst(items, token);
        JoinedIsNamesIff(items[1..], items[0].name);
        JoinedIsNoLonger(items[1..], items[0].name);
        SamePrefix(token, Joined(items[1..], items[0].name), Names(items));
      }
    }
  }

  lemma JoinedFirst(items: seq<Item>, token: string)
    requires items != [] && (Separates(items[0].gap) || token == "")
    ensures Joined(items, token) == Unless(token) + Joined(items[1..], items[0].name)
  {
    hide Separates;
    assert "" + items[0].name == items[0].name;
  }

  lemma SamePrefix(token: string, a: seq<string>, b: seq<string>)
    ensures Unless(token) + a == Unless(token) + b <==> a == b
  {
    if Unless(token) + a == Unless(token) + b {
      assert a == (Unless(token) + a)[|Unless(token)|..] == b;
    }
  }

  lemma {:induction false} AllJoinedIsNoLonger(rules: seq<Rule>)
    ensures |AllJoined(rules)| <= |AllPrereqs(rules)|
  {
    hide Joined, Names;
    if rules != [] {
      JoinedIsNoLonger(rules[0].prereqs, "");
      NamesLength(rules[0].prereqs);
      AllJoinedIsNoLonger(rules[1..]);
    }
  }

  ghost predicate AllKeptApart(rules: seq<Rule>) {
    forall k: nat | k < |rules| :: KeptApart(rules[k].prereqs, true)
  }

  lemma {:induction false} AllJoinedIsAllIff(rules: seq<Rule>)
    ensures AllJoined(rules) == AllPrereqs(rules) <==> AllKeptApart(rules)
  {
    hide KeptApart, Joined, Names;
    if rules != [] {
      var a, b, c, d := Joined(rules[0].prereqs, ""), AllJoined(rules[1..]), Names(rules[0].prereqs),
          AllPrereqs(rules[1..]);
      JoinedIsNoLonger(rules[0].prereqs, "");
      NamesLength(rules[0].prereqs);
      AllJoinedIsNoLonger(rules[1..]);
      JoinedIsNamesIff(rules[0].prereqs, "");
      assert Unless("") + c == c;
      SameHalves(a, b, c, d);
      AllJoinedIsAllIff(rules[1..]);
      AllKeptApartTail(rules);
    }
  }

  lemma SameHalves(a: seq<string>, b: seq<string>, c: seq<string>, d: seq<string>)
    requires |a| <= |c| && |b| <= |d|
    ensures a + b == c + d <==> a == c && b == d
  {
    if a + b == c + d {
      assert |a + b| == |c + d|;
      assert a == (a + b)[..|a|] && b == (a + b)[|a|..];
    }
  }

  lemma AllKeptApartTail(rules: seq<Rule>)
    requires rules != []
    ensures AllKeptApart(rules) <==> KeptApart(rules[0].prereqs, true) && AllKeptApart(rules[1..])
  {
    hide KeptApart;
    if KeptApart(rules[0].prereqs, true) && AllKeptApart(rules[1..]) {
      forall k: nat | k < |rules|
        ensures KeptApart(rules[k].prereqs, true)
      {
        if k > 0 { assert rules[k] == rules[1..][k - 1]; }
      }
    }
    if AllKeptApart(rules) {
      assert forall k: nat | k < |rules[1..]| :: rules[1..][k] == rules[k + 1];
    }
  }

  /** The prerequisites come back exactly if they are kept apart in every rule. */
  lemma PrintedComesBackIff(rules: seq<Rule>)
    requires RulesOk(rules)
    ensures Deps(RulesText(rules)) == AllPrereqs(rules) <==> AllKeptApart(rules)
  {
    PrintedIsRead(rules);
    AllJoinedIsAllIff(rules);
  }

  lemma PrintedComesBackAtEndIff(rules: seq<Rule>, last: Rule)
    requires RulesOk(rules) && RuleOk(last)
    ensures Deps(RulesText(rules) + RuleText(last)) == AllPrereqs(rules + [last]) <==> AllKeptApart(rules + [last])
  {
    PrintedIsReadAtEnd(rules, last);
    AllJoinedIsAllIff(rules + [last]);
  }

  /** A continued line alone does not keep names apart: `a` and `b` are read as one name. */
  lemma ContinuationJoins()
    ensures Deps(":a\\\nb\n") == ["ab"]
  {
    hide Run;
    var s1, s2 := Fresh.(seenColon := true), Fresh.(seenColon := true, token := "a");
    RunOne(":a\\\nb\n", "a\\\nb\n", Fresh, s1);
    RunOne("a\\\nb\n", "\\\nb\n", s1, s2);
    RunOne("\\\nb\n", "\nb\n", s2, s2.(escaping := true));
    RunOne("\nb\n", "b\n", s2.(escaping := true), s2);
    RunOne("b\n", "\n", s2, s2.(token := "ab"));
    RunOne("\n", "", s2.(token := "ab"), Fresh.(deps := ["ab"]));
    RunNothing(Fresh.(deps := ["ab"]));
  }

  lemma RunOne(text: string, rest: string, st: State, next: State)
    requires text != "" && text[1..] == rest && Step(st, text[0]) == next
    ensures Run(text, st) == Run(rest, next)
  {
  }

  // ---- Line ends ----

  /** Every LF becomes CR LF. */
  function ToCrlf(text: string): string {
    if text == "" then "" else (if text[0] == '\n' then "\r\n" else [text[0]]) + ToCrlf(text[1..])
  }

  lemma {:induction false} RunCrlf(text: string, st: State)
    requires '\r' !in text && !st.skipLf
    ensures Run(ToCrlf(text), st) == Run(text, st)
    decreases |text|
  {
    if text != "" {
      var c := text[0];
      var head := if c == '\n' then "\r\n" else [c];
      RunAppend(head, ToCrlf(text[1..]), st);
      if c == '\n' { CrlfStep(st); } else { assert [c][1..] == ""; }
      assert Run(head, st) == Step(st, c);
      RunCrlf(text[1..], Step(st, c));
    }
  }

  lemma CrlfStep(st: State)
    requires !st.skipLf
    ensures Run("\r\n", st) == Step(st, '\n')
  {
    RunTwo('\r', '\n', st);
    assert "\r\n" == ['\r', '\n'];
  }

  /** A file without CRs is read the same with either line end. */
  lemma LineEndsDoNotMatter(text: string)
    requires '\r' !in text
    ensures Deps(ToCrlf(text)) == Deps(text)
  {
    RunCrlf(text, Fresh);
  }

  /** Every LF becomes a lone CR. */
  function ToCr(text: string): string {
    if text == "" then "" else [if text[0] == '\n' then '\r' else text[0]] + ToCr(text[1..])
  }

  /** A state that only differs in whether an LF is still to be skipped. */
  predicate Alike(a: State, b: State) { a.(skipLf := b.skipLf) == b }

  lemma {:induction false} RunCr(text: string, a: State, b: State)
    requires '\r' !in text && Alike(a, b) && !b.skipLf
    ensures Alike(Run(ToCr(text), a), Run(text, b)) && !Run(text, b).skipLf
    decreases |text|
  {
    if text != "" {
      var c := text[0];
      var d := if c == '\n' then '\r' else c;
      assert ToCr(text)[1..] == ToCr(text[1..]);
      CrStep(a, b, c, d);
      RunCr(text[1..], Step(a, d), Step(b, c));
    }
  }

  lemma CrStep(a: State, b: State, c: char, d: char)
    requires Alike(a, b) && !b.skipLf && c != '\r' && d == if c == '\n' then '\r' else c
    ensures Alike(Step(a, d), Step(b, c)) && !Step(b, c).skipLf
  {
  }

  /** A lone CR ends a line, or continues it behind a backslash, just as LF does. */
  lemma LoneCrEndsLines(text: string)
    requires '\r' !in text
    ensures Deps(ToCr(text)) == Deps(text)
  {
    RunCr(text, Fresh, Fresh);
  }

  predicate NoCr(text: string) { '\r' !in text }

  lemma NoCrAppend(a: string, b: string)
    requires NoCr(a) && NoCr(b)
    ensures NoCr(a + b)
  {
  }

  lemma {:induction false} NoCrGap(gap: seq<Gap>)
    requires GapOk(gap)
    ensures NoCr(GapText(gap))
  {
    if gap != [] {
      assert gap[0] in gap && forall g: Gap | g in gap[1..] :: g in gap;
      NoCrGap(gap[1..]);
      NoCrAppend(if gap[0].Blank? then [gap[0].c] else "\\\n", GapText(gap[1..]));
    }
  }

  lemma {:induction false} NoCrName(text: string, name: string, behindColon: bool)
    requires Spells(text, name, behindColon)
    ensures NoCr(text)
    decreases |name|
  {
    if name != "" {
      if text[0] == name[0] && Bare(name[0], behindColon) && Spells(text[1..], name[1..], behindColon) {
        NoCrName(text[1..], name[1..], behindColon);
        assert text == [text[0]] + text[1..];
      } else {
        NoCrName(text[2..], name[1..], behindColon);
        assert text == [text[0], text[1]] + text[2..];
      }
    }
  }

  lemma {:induction false} NoCrItems(items: seq<Item>, behindColon: bool)
    requires ItemsOk(items, behindColon)
    ensures NoCr(ItemsText(items))
  {
    if items != [] {
      NoCrGap(items[0].gap);
      NoCrName(items[0].text, items[0].name, behindColon);
      assert forall k: nat | k < |items[1..]| :: items[1..][k] == items[k + 1];
      hide NoCr;
      NoCrItems(items[1..], behindColon);
      NoCrAppend(GapText(items[0].gap), items[0].text);
      NoCrAppend(GapText(items[0].gap) + items[0].text, ItemsText(items[1..]));
    }
  }

  lemma NoCrRule(r: Rule)
    requires RuleOk(r)
    ensures NoCr(RuleText(r))
  {
    NoCrItems(r.targets, false);
    NoCrGap(r.beforeColon);
    NoCrItems(r.prereqs, true);
    NoCrGap(r.atEnd);
    assert NoCr(":");
    hide NoCr;
    var t := ItemsText(r.targets) + GapText(r.beforeColon);
    NoCrAppend(ItemsText(r.targets), GapText(r.beforeColon));
    NoCrAppend(t, ":");
    NoCrAppend(t + ":", ItemsText(r.prereqs));
    NoCrAppend(t + ":" + ItemsText(r.prereqs), GapText(r.atEnd));
  }

  lemma {:induction false} NoCrRules(rules: seq<Rule>)
    requires RulesOk(rules)
    ensures NoCr(RulesText(rules))
  {
    if rules != [] {
      assert NoCr("\n");
      hide NoCr, RuleOk;
      RulesOkTail(rules);
      NoCrRule(rules[0]);
      NoCrRules(rules[1..]);
      NoCrAppend(RuleText(rules[0]), "\n");
      NoCrAppend(RuleText(rules[0]) + "\n", RulesText(rules[1..]));
    }
  }

  /** Printed rules are read the same with CR LF line ends, continuations included. */
  lemma PrintedWithCrlfIsRead(rules: seq<Rule>)
    requires RulesOk(rules)
    ensures Deps(ToCrlf(RulesText(rules))) == AllJoined(rules)
    ensures Deps(ToCrlf(RulesText(rules))) == AllPrereqs(rules) <==> AllKeptApart(rules)
  {
    NoCrRules(rules);
    LineEndsDoNotMatter(RulesText(rules));
    PrintedIsRead(rules);
    PrintedComesBackIff(rules);
  }
}
