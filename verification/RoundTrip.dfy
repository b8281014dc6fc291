/** Reading a written compile-commands file gives the commands back. */
module RoundTrip {
  import opened Tokens
  import opened TokenTree
  import opened JsmnParser
  import opened CommandText
  import opened CommandTokens
  import opened CompileCommands

  function Expected(c: Command): Read { Read(c.directory, c.file, |c.args|, Pack(c.args)) }

  function ExpectedAll(cmds: seq<Command>): seq<Read> {
    if cmds == [] then [] else [Expected(cmds[0])] + ExpectedAll(cmds[1..])
  }

  /** Nothing from token `j` on starts before `bound`, as far as token `j` tells. */
  ghost predicate Follows(toks: seq<Token>, j: nat, bound: int) {
    j <= |toks| && (j < |toks| ==> toks[j].start >= bound)
  }

  ghost predicate Slice(toks: seq<Token>, i: nat, part: seq<Token>) {
    i + |part| <= |toks| && forall k | 0 <= k < |part| :: toks[i + k] == part[k]
  }

  lemma SkipOne(toks: seq<Token>, i: nat)
    requires i < |toks| && Follows(toks, i + 1, toks[i].end)
    ensures Skip(toks, i) == i + 1
  {
  }

  lemma SliceSplit(toks: seq<Token>, i: nat, u: seq<Token>, v: seq<Token>)
    requires Slice(toks, i, u + v)
    ensures Slice(toks, i, u) && Slice(toks, i + |u|, v)
  {
    forall k | 0 <= k < |u| ensures toks[i + k] == u[k] { assert (u + v)[k] == u[k]; }
    forall k | 0 <= k < |v| ensures toks[i + |u| + k] == v[k] {
      assert (u + v)[|u| + k] == v[k];
      assert toks[i + (|u| + k)] == (u + v)[|u| + k];
    }
  }

  lemma SliceAt(toks: seq<Token>, i: nat, part: seq<Token>, k: nat)
    requires Slice(toks, i, part) && k < |part|
    ensures i + k < |toks| && toks[i + k] == part[k]
  {
  }

  lemma SubSlice(js: string, a: nat, b: nat, c: nat, d: nat)
    requires a <= b <= |js| && c <= d <= b - a
    ensures js[a..b][c..d] == js[a + c..a + d]
  {
    var x, y := js[a..b][c..d], js[a + c..a + d];
    forall k | 0 <= k < d - c ensures x[k] == y[k] { assert js[a..b][c + k] == js[a + (c + k)]; }
    assert x == y;
  }

  /** A quoted string in the text is read back. */
  lemma TextOfQuoted(js: string, p: nat, s: string, t: Token)
    requires At(js, p, Quoted(s)) && t.start == p + 1 && t.end == p + 1 + |Escape(s)|
    ensures t.end + 1 <= |js| && Text(js, t) == Escape(s) && Unescape(Text(js, t)) == s
    ensures t.end + 1 == p + |Quoted(s)|
  {
    assert Quoted(s)[1..1 + |Escape(s)|] == Escape(s);
    SubSlice(js, p, p + |Quoted(s)|, 1, 1 + |Escape(s)|);
    UnescapeEscape(s);
  }

  lemma TextOfHead(js: string, p: nat, h: string, t: Token, k: nat, w: string)
    requires At(js, p, h) && k + |w| <= |h| && h[k..k + |w|] == w && t.start == p + k && t.end == p + k + |w|
    ensures t.end <= |js| && Text(js, t) == w
  {
    SubSlice(js, p, p + |h|, k, k + |w|);
  }

  lemma {:induction false} ReadLines(js: string, toks: seq<Token>, i: nat, args: seq<string>, p: nat)
    requires TokensIn(js, toks) && At(js, p, Lines(args)) && Slice(toks, i, LineToks(args, p))
    requires Follows(toks, i + |args|, p + |Lines(args)|)
    ensures ReadArgs(js, toks, i, |args|) == Taken(Pack(args), i + |args|)
    decreases |args|
  {
    hide Skip, Lines, LineToks, Slice, At, Quoted, LineEnd, Unescape, Follows;
    if args != [] {
      var p' := p + 12 + |Quoted(args[0])| + |LineEnd(|args| == 1)|;
      ReadLine(js, toks, i, args, p, p');
      ReadLines(js, toks, i + 1, args[1..], p');
    }
  }

  lemma AtSplit4(js: string, p: nat, a: string, b: string, c: string, d: string)
    requires At(js, p, a + b + c + d)
    ensures At(js, p + |a|, b) && At(js, p + |a| + |b| + |c|, d)
  {
    hide At;
    AtSplit(js, p, a + b + c, d);
    AtSplit(js, p, a + b, c);
    AtSplit(js, p, a, b);
  }

  lemma LineAt(js: string, p: nat, args: seq<string>, p': nat)
    requires args != [] && At(js, p, Lines(args)) && p' == p + 12 + |Quoted(args[0])| + |LineEnd(|args| == 1)|
    ensures At(js, p + 12, Quoted(args[0])) && At(js, p', Lines(args[1..]))
  {
    hide *;
    PadShape();
    LinesUnfold(args);
    AtSplit4(js, p, Pad(), Quoted(args[0]), LineEnd(|args| == 1), Lines(args[1..]));
  }

  lemma LineText(js: string, args: seq<string>, p: nat, t: Token, p': nat)
    requires args != [] && At(js, p, Lines(args)) && p' == p + 12 + |Quoted(args[0])| + |LineEnd(|args| == 1)|
    requires t.start == p + 13 && t.end == p + 13 + |Escape(args[0])|
    ensures 0 <= t.start <= t.end <= |js| && Unescape(Text(js, t)) == args[0]
    ensures t.end <= p' && At(js, p', Lines(args[1..])) && p + |Lines(args)| == p' + |Lines(args[1..])|
  {
    hide *;
    LineAt(js, p, args, p');
    LinesLength(args);
    TextOfQuoted(js, p + 12, args[0], t);
  }

  lemma LinesLength(args: seq<string>)
    requires args != []
    ensures |Lines(args)| == 12 + |Quoted(args[0])| + |LineEnd(|args| == 1)| + |Lines(args[1..])|
  {
    PadShape();
    hide Pad, Quoted, LineEnd;
  }

  lemma ReadLine(js: string, toks: seq<Token>, i: nat, args: seq<string>, p: nat, p': nat)
    requires args != [] && At(js, p, Lines(args)) && Slice(toks, i, LineToks(args, p))
    requires p' == p + 12 + |Quoted(args[0])| + |LineEnd(|args| == 1)|
    requires Follows(toks, i + |args|, p + |Lines(args)|)
    ensures i < |toks| && 0 <= toks[i].start <= toks[i].end <= |js|
    ensures Unescape(Text(js, toks[i])) == args[0] && Skip(toks, i) == i + 1
    ensures At(js, p', Lines(args[1..])) && Slice(toks, i + 1, LineToks(args[1..], p'))
    ensures p + |Lines(args)| == p' + |Lines(args[1..])|
  {
    hide *;
    var t := Token(Str, p + 13, p + 13 + |Escape(args[0])|, 0);
    LineToksUnfold(args, p);
    SliceAt(toks, i, LineToks(args, p), 0);
    SliceSplit(toks, i, [t], LineToks(args[1..], p'));
    LineText(js, args, p, t, p');
    if |args| == 1 { EmptyLines(args); }
    NextLineFollows(toks, i + 1, args, p');
    FollowsWeaker(toks, i + 1, p', t.end);
    SkipOne(toks, i);
  }

  lemma FollowsWeaker(toks: seq<Token>, j: nat, bound: int, bound': int)
    requires Follows(toks, j, bound) && bound' <= bound
    ensures Follows(toks, j, bound')
  {
  }

  lemma EmptyLines(args: seq<string>)
    requires |args| == 1
    ensures Lines(args[1..]) == ""
  {
  }

  lemma LineToksUnfold(args: seq<string>, p: nat)
    requires args != []
    ensures LineToks(args, p) == [Token(Str, p + 13, p + 13 + |Escape(args[0])|, 0)]
            + LineToks(args[1..], p + 12 + |Quoted(args[0])| + |LineEnd(|args| == 1)|)
  {
    hide Quoted, LineEnd, Escape;
  }

  lemma NextLineFollows(toks: seq<Token>, i: nat, args: seq<string>, p': nat)
    requires args != [] && Slice(toks, i, LineToks(args[1..], p'))
    requires |args| == 1 ==> Follows(toks, i, p')
    ensures Follows(toks, i, p')
  {
    if |args| > 1 { SliceAt(toks, i, LineToks(args[1..], p'), 0); }
  }

  // ---- An entry ----

  /** The seven tokens in front of the arguments. */
  function HeadToks(c: Command, p: nat): seq<Token> {
    ObjectToks(c, p, 3, TailAt(c, p) + 15) + FileToks(c, p) + ArgumentsToks(c, p, |c.args|, TailAt(c, p) + 9)
  }

  /** A text with a key in it, and a written string behind it: what the two tokens say. */
  lemma PairTexts(js: string, p: nat, h: string, k: nat, w: string, v: string, key: Token, value: Token)
    requires At(js, p, h) && k + |w| <= |h| && h[k..k + |w|] == w && At(js, p + |h|, Quoted(v))
    requires key == Token(Str, p + k, p + k + |w|, 1)
    requires value == Token(Str, p + |h| + 1, p + |h| + 1 + |Escape(v)|, 0)
    ensures TokenIn(js, key) && TokenIn(js, value)
    ensures IsKey(js, key, w) && Unescape(Text(js, value)) == v
  {
    hide At, Quoted, Escape, Unescape;
    TextOfHead(js, p, h, key, k, w);
    TextOfQuoted(js, p + |h|, v, value);
  }

  lemma HeadToksAre(c: Command, p: nat)
    ensures var h, f, g := HeadToks(c, p), FileAt(c, p), ArgumentsAt(c, p);
            && |h| == 7
            && h[0] == Token(Object, p + 4, TailAt(c, p) + 15, 3)
            && h[1] == Token(Str, p + 15, p + 15 + |"directory"|, 1)
            && h[2] == Token(Str, p + 28, p + 28 + |Escape(c.directory)|, 0)
            && h[3] == Token(Str, f + 11, f + 11 + |"file"|, 1)
            && h[4] == Token(Str, f + 19, f + 19 + |Escape(c.file)|, 0)
            && h[5] == Token(Str, g + 11, g + 11 + |"arguments"|, 1)
            && h[6] == Token(Array, g + 23, TailAt(c, p) + 9, |c.args|)
  {
    hide Escape, Quoted, Lines;
  }

  lemma HeadTexts(js: string, p: nat, c: Command)
    requires At(js, p, Entry(c))
    ensures var h := HeadToks(c, p);
            && TokensIn(js, h) && !IsOpen(h[2]) && !IsOpen(h[4])
            && IsKey(js, h[1], "directory") && IsKey(js, h[3], "file") && IsKey(js, h[5], "arguments")
            && Unescape(Text(js, h[2])) == c.directory && Unescape(Text(js, h[4])) == c.file
            && h[2].end <= h[3].start && h[4].end <= h[5].start
  {
    hide *;
    HeadToksAre(c, p);
    var h := HeadToks(c, p);
    SplitEntry(js, p, c);
    HeadShapes();
    HeadSizes(js, p, c);
    PairTexts(js, p, DirectoryHead(), 15, "directory", c.directory, h[1], h[2]);
    PairTexts(js, FileAt(c, p), FileHead(), 11, "file", c.file, h[3], h[4]);
    KeyText(js, ArgumentsAt(c, p), ArgumentsHead(), h[5], 11, "arguments");
    SevenIn(js, h);
  }

  lemma HeadShapes()
    ensures |DirectoryHead()| == 27 && DirectoryHead()[15..24] == "directory"
    ensures |FileHead()| == 18 && FileHead()[11..15] == "file"
    ensures |ArgumentsHead()| == 25 && ArgumentsHead()[11..20] == "arguments"
  {
    hide *;
    DirectoryHeadShape();
    FileHeadShape();
    ArgumentsHeadShape();
  }

  lemma HeadSizes(js: string, p: nat, c: Command)
    requires At(js, p, Entry(c)) && p + |Entry(c)| == TailAt(c, p) + 15
    ensures FileAt(c, p) == p + 29 + |Escape(c.directory)|
    ensures ArgumentsAt(c, p) == FileAt(c, p) + 20 + |Escape(c.file)|
    ensures ArgumentsAt(c, p) + 25 <= TailAt(c, p) <= |js| - 15
  {
    hide Escape, Lines, Entry, Quoted;
    QuotedLength(c.directory);
    QuotedLength(c.file);
  }

  lemma QuotedLength(s: string)
    ensures |Quoted(s)| == |Escape(s)| + 2
  {
    hide Escape;
  }

  lemma SevenIn(js: string, h: seq<Token>)
    requires |h| == 7 && TokenIn(js, h[1]) && TokenIn(js, h[2]) && TokenIn(js, h[3]) && TokenIn(js, h[4])
    requires h[2].kind == h[4].kind == Str
    requires TokenIn(js, h[5]) && h[0].kind != Str && 0 <= h[0].start <= h[0].end <= |js|
    requires h[6].kind != Str && 0 <= h[6].start <= h[6].end <= |js|
    ensures TokensIn(js, h) && !IsOpen(h[2]) && !IsOpen(h[4])
  {
  }

  lemma KeyText(js: string, p: nat, h: string, t: Token, k: nat, w: string)
    requires At(js, p, h) && k + |w| <= |h| && h[k..k + |w|] == w && t == Token(Str, p + k, p + k + |w|, 1)
    ensures TokenIn(js, t) && IsKey(js, t, w)
  {
    hide At;
    TextOfHead(js, p, h, t, k, w);
  }

  lemma ReadThree(js: string, toks: seq<Token>, i0: nat, i1: nat, i2: nat, i3: nat, c0: Read, c1: Read, c2: Read,
          c3: Read)
    requires TokensIn(js, toks) && i0 <= |toks| && i1 <= |toks| && i2 <= |toks|
    requires ReadField(js, toks, i0, c0) == Fields(c1, i1)
    requires ReadField(js, toks, i1, c1) == Fields(c2, i2)
    requires ReadField(js, toks, i2, c2) == Fields(c3, i3)
    ensures ReadFields(js, toks, i0, 3, c0) == Fields(c3, i3)
  {
    hide ReadField;
    assert ReadFields(js, toks, i2, 1, c2) == Fields(c3, i3);
    assert ReadFields(js, toks, i1, 2, c1) == Fields(c3, i3);
  }

  lemma ReadDirectory(js: string, toks: seq<Token>, i: nat, cmd: Read, s: string)
    requires TokensIn(js, toks) && i + 1 < |toks| && IsKey(js, toks[i], "directory")
    requires !IsOpen(toks[i + 1]) && Unescape(Text(js, toks[i + 1])) == s && Skip(toks, i + 1) == i + 2
    ensures ReadField(js, toks, i, cmd) == Fields(cmd.(directory := s), i + 2)
  {
    hide Skip, Unescape, IsKey;
  }

  lemma ReadFile(js: string, toks: seq<Token>, i: nat, cmd: Read, s: string)
    requires TokensIn(js, toks) && i + 1 < |toks| && IsKey(js, toks[i], "file")
    requires !IsOpen(toks[i + 1]) && Unescape(Text(js, toks[i + 1])) == s && Skip(toks, i + 1) == i + 2
    ensures ReadField(js, toks, i, cmd) == Fields(cmd.(file := s), i + 2)
  {
    hide Skip, Unescape;
    assert !IsKey(js, toks[i], "directory");
  }

  lemma ReadArguments(js: string, toks: seq<Token>, i: nat, cmd: Read, n: nat, packed: string, next: nat)
    requires TokensIn(js, toks) && i + 1 < |toks| && IsKey(js, toks[i], "arguments")
    requires toks[i + 1].kind == Array && toks[i + 1].size == n && ReadArgs(js, toks, i + 2, n) == Taken(packed, next)
    ensures ReadField(js, toks, i, cmd) == Fields(cmd.(numArgs := n, packed := packed), next)
  {
    hide Skip, Unescape, ReadArgs;
    assert |Text(js, toks[i])| == 9;
    assert Text(js, toks[i])[0] == 'a';
    assert !IsKey(js, toks[i], "directory") && !IsKey(js, toks[i], "file");
  }

  lemma EntrySlices(toks: seq<Token>, i: nat, c: Command, p: nat)
    requires Slice(toks, i, EntryToks(c, p))
    ensures Slice(toks, i, HeadToks(c, p)) && |HeadToks(c, p)| == 7
    ensures Slice(toks, i + 7, LineToks(c.args, ArgumentsAt(c, p) + 25))
  {
    hide Slice;
    SliceSplit(toks, i, HeadToks(c, p), LineToks(c.args, ArgumentsAt(c, p) + 25));
  }

  lemma EntryLength(js: string, p: nat, c: Command)
    requires At(js, p, Entry(c))
    ensures At(js, ArgumentsAt(c, p) + 25, Lines(c.args))
    ensures ArgumentsAt(c, p) + 25 + |Lines(c.args)| <= p + |Entry(c)|
  {
    SplitEntry(js, p, c);
  }

  lemma ReadEntryArgs(js: string, toks: seq<Token>, i: nat, c: Command, p: nat)
    requires TokensIn(js, toks) && At(js, p, Entry(c)) && Slice(toks, i, EntryToks(c, p))
    requires Follows(toks, i + 7 + |c.args|, p + |Entry(c)|)
    ensures i + 7 <= |toks| && ReadArgs(js, toks, i + 7, |c.args|) == Taken(Pack(c.args), i + 7 + |c.args|)
  {
    hide *;
    EntrySlices(toks, i, c, p);
    EntryLength(js, p, c);
    SliceAt(toks, i, HeadToks(c, p), 6);
    FollowsWeaker(toks, i + 7 + |c.args|, p + |Entry(c)|, ArgumentsAt(c, p) + 25 + |Lines(c.args)|);
    ReadLines(js, toks, i + 7, c.args, ArgumentsAt(c, p) + 25);
  }

  lemma HeadKinds(c: Command, p: nat)
    ensures var h := HeadToks(c, p);
            |h| == 7 && h[0].kind == Object && h[0].size == 3 && h[6].kind == Array && h[6].size == |c.args|
            && h[0].start == p + 4
  {
  }

  lemma ReadEntry(js: string, toks: seq<Token>, i: nat, c: Command, p: nat)
    requires TokensIn(js, toks) && At(js, p, Entry(c)) && Slice(toks, i, EntryToks(c, p))
    requires Follows(toks, i + 7 + |c.args|, p + |Entry(c)|)
    ensures i + 7 <= |toks| && toks[i].kind == Object && toks[i].size == 3
    ensures ReadFields(js, toks, i + 1, 3, Blank) == Fields(Expected(c), i + 7 + |c.args|)
  {
    hide HeadToks, EntryToks, At, Slice, Skip, Unescape, ReadField, ReadFields, ReadArgs, Text, IsKey, Entry, TokensIn;
    EntrySlices(toks, i, c, p);
    ReadEntryArgs(js, toks, i, c, p);
    HeadKinds(c, p);
    HeadTexts(js, p, c);
    var h := HeadToks(c, p);
    forall k: nat | k < 7 ensures toks[i + k] == h[k] { SliceAt(toks, i, h, k); }
    assert toks[i + 1] == h[1] && toks[i + 2] == h[2] && toks[i + 3] == h[3] && toks[i + 4] == h[4]
        && toks[i + 5] == h[5] && toks[i + 6] == h[6] && toks[i + 0] == h[0];
    SkipOne(toks, i + 2);
    SkipOne(toks, i + 4);
    var c1 := Blank.(directory := c.directory);
    var c2 := c1.(file := c.file);
    ReadDirectory(js, toks, i + 1, Blank, c.directory);
    ReadFile(js, toks, i + 3, c1, c.file);
    ReadArguments(js, toks, i + 5, c2, |c.args|, Pack(c.args), i + 7 + |c.args|);
    ReadThree(js, toks, i + 1, i + 3, i + 5, i + 7 + |c.args|, Blank, c1, c2, Expected(c));
  }

  // ---- The document ----

  /** Entry number `k`, in the text and in the tokens. */
  lemma {:induction false} EntryOf(js: string, cmds: seq<Command>, k: nat, p: nat)
    requires k < |cmds| && At(js, p, Entries(cmds))
    ensures At(js, EntryAt(cmds[..k], p), Entry(cmds[k]))
    ensures Slice(EntriesToks(cmds, p), |EntriesToks(cmds[..k], p)|, EntryToks(cmds[k], EntryAt(cmds[..k], p)))
    decreases |cmds|
  {
    var n := |cmds| - 1;
    hide At, Entries, Entry, EntryToks, EntryAt, Slice, EntriesToks;
    LastEntry(js, cmds, n, p);
    if k < n {
      assert cmds[..n][..k] == cmds[..k] && cmds[..n][k] == cmds[k];
      EntryOf(js, cmds[..n], k, p);
      SlicePrefix(EntriesToks(cmds[..n], p), EntryToks(cmds[n], EntryAt(cmds[..n], p)),
                  |EntriesToks(cmds[..k], p)|, EntryToks(cmds[k], EntryAt(cmds[..k], p)));
    }
  }

  lemma LastEntry(js: string, cmds: seq<Command>, n: nat, p: nat)
    requires |cmds| == n + 1 && At(js, p, Entries(cmds))
    ensures At(js, p, Entries(cmds[..n])) && At(js, EntryAt(cmds[..n], p), Entry(cmds[n]))
    ensures EntriesToks(cmds, p) == EntriesToks(cmds[..n], p) + EntryToks(cmds[n], EntryAt(cmds[..n], p))
    ensures Slice(EntriesToks(cmds, p), |EntriesToks(cmds[..n], p)|, EntryToks(cmds[n], EntryAt(cmds[..n], p)))
  {
    hide At, Entry, EntryToks, Separator, Entries;
    SplitEntries(js, p, cmds, n);
  }

  lemma SlicePrefix(u: seq<Token>, v: seq<Token>, i: nat, part: seq<Token>)
    requires Slice(u, i, part)
    ensures Slice(u + v, i, part)
  {
  }

  lemma NextEntryStart(cmds: seq<Command>, k: nat, p: nat)
    requires k < |cmds|
    ensures EntryAt(cmds[..k], p) + |Entry(cmds[k])| <= EntryAt(cmds[..k + 1], p)
    ensures |EntriesToks(cmds[..k + 1], p)| == |EntriesToks(cmds[..k], p)| + 7 + |cmds[k].args|
  {
    hide Entry, EntryToks, Separator, Entries;
    var before := cmds[..k + 1];
    assert before[..k] == cmds[..k] && before[k] == cmds[k];
    EntriesLast(before);
  }

  /** The tokens of a document's array, with the array in front. */
  lemma BehindArray(first: Token, toks: seq<Token>, i: nat, part: seq<Token>)
    requires Slice(toks, i, part)
    ensures Slice([first] + toks, 1 + i, part)
  {
    forall k | 0 <= k < |part| ensures ([first] + toks)[1 + i + k] == part[k] {
      assert ([first] + toks)[1 + (i + k)] == toks[i + k];
    }
  }

  lemma DocumentEntry(cmds: seq<Command>, k: nat)
    requires k < |cmds|
    ensures At(Document(cmds), EntryAt(cmds[..k], 2), Entry(cmds[k]))
    ensures Slice(DocumentToks(cmds), 1 + |EntriesToks(cmds[..k], 2)|, EntryToks(cmds[k], EntryAt(cmds[..k], 2)))
  {
    SplitDocument(cmds);
    hide At, Entries, Entry, EntryToks, EntryAt, Slice, EntriesToks, Document;
    EntryOf(Document(cmds), cmds, k, 2);
    BehindArray(DocumentToks(cmds)[0], EntriesToks(cmds, 2), |EntriesToks(cmds[..k], 2)|,
                EntryToks(cmds[k], EntryAt(cmds[..k], 2)));
  }

  lemma EntryFollows(cmds: seq<Command>, k: nat)
    requires k < |cmds|
    ensures Follows(DocumentToks(cmds), 1 + |EntriesToks(cmds[..k], 2)| + 7 + |cmds[k].args|,
                    EntryAt(cmds[..k], 2) + |Entry(cmds[k])|)
  {
    hide At, Entries, Entry, EntryToks, EntryAt, Slice, EntriesToks, Document;
    NextEntryStart(cmds, k, 2);
    if k + 1 < |cmds| {
      var p := EntryAt(cmds[..k + 1], 2);
      DocumentEntry(cmds, k + 1);
      EntrySlices(DocumentToks(cmds), 1 + |EntriesToks(cmds[..k + 1], 2)|, cmds[k + 1], p);
      HeadKinds(cmds[k + 1], p);
      hide HeadToks, DocumentToks;
      SliceAt(DocumentToks(cmds), 1 + |EntriesToks(cmds[..k + 1], 2)|, HeadToks(cmds[k + 1], p), 0);
    } else {
      assert cmds[..k + 1] == cmds;
    }
  }

  lemma {:induction false} ReadFrom(cmds: seq<Command>, k: nat)
    requires k <= |cmds| && TokensIn(Document(cmds), DocumentToks(cmds))
    ensures 1 + |EntriesToks(cmds[..k], 2)| <= |DocumentToks(cmds)|
    ensures ReadCommands(Document(cmds), DocumentToks(cmds), true, 1 + |EntriesToks(cmds[..k], 2)|)
         == Parsed(ExpectedAll(cmds[k..]))
    decreases |cmds| - k
  {
    hide Document, EntriesToks, TokensIn, ReadFields, Expected;
    if k == |cmds| {
      assert cmds[..k] == cmds;
    } else {
      ReadStep(cmds, k);
      ReadFrom(cmds, k + 1);
      assert cmds[k..][1..] == cmds[k + 1..];
    }
  }

  lemma ReadStep(cmds: seq<Command>, k: nat)
    requires k < |cmds| && TokensIn(Document(cmds), DocumentToks(cmds))
    ensures 1 + |EntriesToks(cmds[..k], 2)| < 1 + |EntriesToks(cmds[..k + 1], 2)| <= |DocumentToks(cmds)|
    ensures ReadCommands(Document(cmds), DocumentToks(cmds), true, 1 + |EntriesToks(cmds[..k], 2)|)
         == Prepend([Expected(cmds[k])],
                    ReadCommands(Document(cmds), DocumentToks(cmds), true, 1 + |EntriesToks(cmds[..k + 1], 2)|))
  {
    hide *;
    NextEntryStart(cmds, k, 2);
    DocumentEntry(cmds, k);
    EntryFollows(cmds, k);
    var i, next := 1 + |EntriesToks(cmds[..k], 2)|, 1 + |EntriesToks(cmds[..k + 1], 2)|;
    ReadEntry(Document(cmds), DocumentToks(cmds), i, cmds[k], EntryAt(cmds[..k], 2));
    ReadObject(Document(cmds), DocumentToks(cmds), i, Expected(cmds[k]), next);
  }

  lemma ReadObject(js: string, toks: seq<Token>, i: nat, cmd: Read, next: nat)
    requires TokensIn(js, toks) && i < |toks| && toks[i].kind == Object
    requires ReadFields(js, toks, i + 1, toks[i].size, Blank) == Fields(cmd, next)
    ensures next <= |toks| && ReadCommands(js, toks, true, i) == Prepend([cmd], ReadCommands(js, toks, true, next))
  {
    hide ReadFields;
  }

  /** The round trip: any list of commands without NULs, written and read, is the same list, with the arguments
      packed. */
  lemma WrittenIsRead(cmds: seq<Command>)
    requires forall c: Command | c in cmds :: NulFree(c)
    ensures ReadDocument(Document(cmds)) == Parsed(ExpectedAll(cmds))
  {
    DocumentIsCounted(cmds);
    DocumentParses(cmds);
    ReadFromStart(cmds);
    hide Parse, ParseEnd, CountPass, Document, DocumentToks, ReadCommands, NulFree, TokensIn, ExpectedAll;
  }

  lemma DocumentIsCounted(cmds: seq<Command>)
    requires forall c: Command | c in cmds :: NulFree(c)
    ensures CountPass(Document(cmds), 0, 0) == |DocumentToks(cmds)| >= 1
    ensures TokensIn(Document(cmds), DocumentToks(cmds))
    ensures ParseEnd(Document(cmds), Start, |DocumentToks(cmds)|).toks == DocumentToks(cmds)
    ensures DocumentToks(cmds)[0].kind == Array
  {
    var js, n := Document(cmds), |DocumentToks(cmds)|;
    DocumentParses(cmds);
    hide Parse, ParseEnd, CountPass, Document, EntriesToks, NulFree, TokensIn;
    ParseCounts(js, Start, n);
    EndTokensIn(js, n);
  }

  lemma ReadFromStart(cmds: seq<Command>)
    requires TokensIn(Document(cmds), DocumentToks(cmds)) && |DocumentToks(cmds)| >= 1
    ensures ReadCommands(Document(cmds), DocumentToks(cmds), true, 1) == Parsed(ExpectedAll(cmds))
  {
    hide *;
    assert cmds[..0] == [] && cmds[0..] == cmds;
    NoEntries();
    ReadFrom(cmds, 0);
  }

  lemma NoEntries()
    ensures EntriesToks([], 2) == []
  {
  }
}
