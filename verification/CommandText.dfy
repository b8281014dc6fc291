/** The text of a compile-commands file, and the writer that produces it a command at a time. */
module CommandText {

  /** Arguments are C strings: `NoNul` says so. */
  datatype Command = Command(directory: string, file: string, args: seq<string>)

  predicate NoNul(s: string) { '\0' !in s }

  ghost predicate NulFree(c: Command) {
    NoNul(c.directory) && NoNul(c.file) && forall a: string | a in c.args :: NoNul(a)
  }

  /** Arguments as they are handed over: one after the other, each ended by a NUL. */
  function Pack(args: seq<string>): string {
    if args == [] then "" else args[0] + "\0" + Pack(args[1..])
  }

  // ---- Escaping ----

  function EscapeChar(c: char): (r: string)
    ensures 1 <= |r| <= 2
  {
    if c == '"' then "\\\"" else if c == '\\' then "\\\\"
    else if c == '\n' then "\\n" else if c == '\r' then "\\r" else if c == '\t' then "\\t"
    else [c]
  }

  function Escape(s: string): (r: string)
    ensures |s| <= |r|
  {
    if s == "" then "" else EscapeChar(s[0]) + Escape(s[1..])
  }

  function Quoted(s: string): string { "\"" + Escape(s) + "\"" }

  /** What the reader of a character after a backslash writes. */
  function AfterBackslash(c: char): char {
    if c == 'n' then '\n' else if c == 'r' then '\r' else if c == 't' then '\t' else c
  }

  /** `unescape_string_into`, on the text between the quotes. */
  function Unescape(s: string): (r: string)
    ensures |r| <= |s|
  {
    if s == "" then ""
    else if s[0] == '\\' && |s| > 1 then [AfterBackslash(s[1])] + Unescape(s[2..])
    else [s[0]] + Unescape(s[1..])
  }

  /** The configuration reader of the command line knows two escapes more. */
  function ConfigAfterBackslash(c: char): char {
    if c == 'b' then '\U{8}' else if c == 'f' then '\U{c}' else AfterBackslash(c)
  }

  function ConfigUnescape(s: string): (r: string)
    ensures |r| <= |s|
  {
    if s == "" then ""
    else if s[0] == '\\' && |s| > 1 then [ConfigAfterBackslash(s[1])] + ConfigUnescape(s[2..])
    else [s[0]] + ConfigUnescape(s[1..])
  }

  /** What the readers make of one character or one escape, whatever follows: the reader of compile commands knows three
      escapes, the configuration reader five, and any other escaped character stands for itself. */
  lemma OneEscape(c: char, rest: string)
    ensures Unescape(['\\', c] + rest) ==
      [match c case 'n' => '\n' case 'r' => '\r' case 't' => '\t' case _ => c] + Unescape(rest)
    ensures c != '\\' ==> Unescape([c] + rest) == [c] + Unescape(rest)
    ensures Unescape(['\\']) == ['\\']
  {
    assert (['\\', c] + rest)[2..] == rest;
    assert ([c] + rest)[1..] == rest;
    assert ['\\'][1..] == "";
  }

  lemma OneConfigEscape(c: char, rest: string)
    ensures ConfigUnescape(['\\', c] + rest) ==
      [match c
       case 'n' => '\n' case 'r' => '\r' case 't' => '\t' case 'b' => '\U{8}' case 'f' => '\U{c}' case _ => c]
      + ConfigUnescape(rest)
    ensures c != '\\' ==> ConfigUnescape([c] + rest) == [c] + ConfigUnescape(rest)
    ensures ConfigUnescape(['\\']) == ['\\']
  {
    assert (['\\', c] + rest)[2..] == rest;
    assert ([c] + rest)[1..] == rest;
    assert ['\\'][1..] == "";
  }

  lemma UnescapeChar(c: char, rest: string)
    ensures Unescape(EscapeChar(c) + rest) == [c] + Unescape(rest)
    ensures ConfigUnescape(EscapeChar(c) + rest) == [c] + ConfigUnescape(rest)
  {
    var s := EscapeChar(c) + rest;
    assert s[|EscapeChar(c)|..] == rest;
  }

  /** Both readers undo the writer, on every string. */
  lemma {:induction false} UnescapeEscape(s: string)
    ensures Unescape(Escape(s)) == s && ConfigUnescape(Escape(s)) == s
  {
    hide EscapeChar, Unescape, ConfigUnescape;
    if s == "" {
      NothingToUnescape();
    } else {
      UnescapeEscape(s[1..]);
      UnescapeChar(s[0], Escape(s[1..]));
      assert s == [s[0]] + s[1..];
    }
  }

  lemma NothingToUnescape()
    ensures Unescape("") == "" && ConfigUnescape("") == ""
  {
  }

  /** A written string stays on its line and holds no raw tab; and a string without the five special characters is
      written as it is. */
  lemma {:induction false} EscapeIsOneLine(s: string)
    ensures '\n' !in Escape(s) && '\r' !in Escape(s) && '\t' !in Escape(s)
    ensures '"' !in s && '\\' !in s && '\n' !in s && '\r' !in s && '\t' !in s ==> Escape(s) == s
  {
    if s != "" {
      EscapeIsOneLine(s[1..]);
      assert s == [s[0]] + s[1..];
    }
  }

  // ---- The text ----

  function DirectoryHead(): string { "    {\n        \"directory\": " }

  function FileHead(): string { ",\n        \"file\": " }

  function ArgumentsHead(): string { ",\n        \"arguments\": [\n" }

  function EntryTail(): string { "        ]\n    }" }

  function Pad(): string { "            " }

  function LineEnd(last: bool): string { if last then "\n" else ",\n" }

  /** The lines of the arguments: a comma after all but the last. */
  function Lines(args: seq<string>): string {
    if args == [] then "" else Pad() + Quoted(args[0]) + LineEnd(|args| == 1) + Lines(args[1..])
  }

  lemma LinesUnfold(args: seq<string>)
    requires args != []
    ensures Lines(args) == Pad() + Quoted(args[0]) + LineEnd(|args| == 1) + Lines(args[1..])
  {
    hide Pad, Quoted, LineEnd;
  }

  lemma NoLines(args: seq<string>)
    requires args == []
    ensures Lines(args) == ""
  {
  }

  function Entry(c: Command): string {
    DirectoryHead() + Quoted(c.directory) + FileHead() + Quoted(c.file) + ArgumentsHead() + Lines(c.args) + EntryTail()
  }

  function Separator(k: nat): string { if k > 0 then ",\n" else "" }

  function Entries(cmds: seq<Command>): string {
    if cmds == [] then ""
    else
      var n := |cmds| - 1;
      Entries(cmds[..n]) + Separator(n) + Entry(cmds[n])
  }

  function DocumentHead(): string { "[\n" }

  function DocumentTail(): string { "\n]\n" }

  function Document(cmds: seq<Command>): string {
    DocumentHead() + Entries(cmds) + DocumentTail()
  }

  lemma EntriesGrow(cmds: seq<Command>, c: Command)
    ensures DocumentHead() + Entries(cmds + [c]) == DocumentHead() + Entries(cmds) + (Separator(|cmds|) + Entry(c))
  {
    hide *;
    EntriesEnd(cmds, c);
    Regrouped(DocumentHead(), Entries(cmds), Separator(|cmds|), Entry(c));
  }

  lemma EntriesEnd(cmds: seq<Command>, c: Command)
    ensures Entries(cmds + [c]) == Entries(cmds) + Separator(|cmds|) + Entry(c)
  {
    hide Entry, Separator;
    assert (cmds + [c])[..|cmds|] == cmds;
  }

  lemma Regrouped(a: string, b: string, c: string, d: string)
    ensures a + (b + c + d) == a + b + (c + d)
  {
  }

  // ---- The writer ----

  lemma Joined4(a: string, b: string, c: string, d: string, e: string)
    ensures a + (b + c + d + e) == a + b + c + d + e
  {
  }

  lemma Joined7(a: string, b: string, c: string, d: string, e: string, f: string, g: string, h: string)
    ensures a + (b + c + d + e + f + g + h) == a + b + c + d + e + f + g + h
  {
  }

  class Writer {
    /** Bytes in the file, and bytes waiting to be written to it. */
    var file: string
    var buf: string
    var count: nat
    var isOpen: bool
    ghost var cmds: seq<Command>

    ghost predicate Valid()
      reads this
    {
      isOpen && buf == "" && count == |cmds| && file == DocumentHead() + Entries(cmds)
    }

    constructor ()
      ensures Valid() && cmds == []
    {
      file, buf, count, isOpen, cmds := "", "", 0, true, [];
      new;
      Puts(DocumentHead());
      Flush();
    }

    method Flush()
      modifies this`file, this`buf
      ensures file == old(file + buf) && buf == ""
    {
      if |buf| > 0 {
        file := file + buf;
        buf := "";
      }
    }

    method Puts(s: string)
      modifies this`buf
      ensures buf == old(buf) + s
    {
      buf := buf + s;
    }

    method WriteEscapedChar(c: char)
      modifies this`buf
      ensures buf == old(buf) + EscapeChar(c)
    {
      if c == '"' { Puts("\\\""); }
      else if c == '\\' { Puts("\\\\"); }
      else if c == '\n' { Puts("\\n"); }
      else if c == '\r' { Puts("\\r"); }
      else if c == '\t' { Puts("\\t"); }
      else { Puts([c]); }
    }

    method WriteEscaped(s: string)
      modifies this`buf
      ensures buf == old(buf) + Quoted(s)
    {
      hide EscapeChar;
      Puts("\"");
      assert s[0..] == s;
      for i := 0 to |s|
        invariant buf + Escape(s[i..]) == old(buf) + "\"" + Escape(s)
      {
        ghost var before := buf;
        assert s[i..][1..] == s[i + 1..];
        WriteEscapedChar(s[i]);
        assert before + Escape(s[i..]) == buf + Escape(s[i + 1..]);
      }
      assert buf == buf + Escape(s[|s|..]);
      Puts("\"");
    }

    /** The length of the C string that starts at `at`. */
    method StrLen(packed: string, at: nat, ghost s: string) returns (len: nat)
      requires NoNul(s) && at <= |packed| && s + "\0" <= packed[at..]
      ensures len == |s|
    {
      len := 0;
      assert forall k: nat | k <= |s| :: packed[at + k] == packed[at..][k] == (s + "\0")[k];
      while packed[at + len] != '\0'
        invariant len <= |s|
        decreases |s| - len
      {
        len := len + 1;
      }
    }

    /** One line: the argument at `cur`, and the place of the next. */
    method WriteArg(packed: string, cur: nat, last: bool, ghost args: seq<string>) returns (next: nat)
      requires args != [] && (last <==> |args| == 1) && NoNul(args[0])
      requires cur <= |packed| && Pack(args) <= packed[cur..]
      modifies this`buf
      ensures buf == old(buf) + Pad() + Quoted(args[0]) + LineEnd(last)
      ensures next <= |packed| && Pack(args[1..]) <= packed[next..]
    {
      hide Quoted, Pad;
      assert args[0] + "\0" <= Pack(args);
      var slen := StrLen(packed, cur, args[0]);
      Puts(Pad());
      assert packed[cur..cur + slen] == packed[cur..][..slen] == args[0];
      WriteEscaped(packed[cur..cur + slen]);
      if !last { Puts(","); }
      Puts("\n");
      next := cur + slen + 1;
      assert packed[next..] == packed[cur..][slen + 1..];
      assert Pack(args)[slen + 1..] == Pack(args[1..]);
    }

    /** The lines of the arguments, read off the packed form. */
    method WriteArgs(packed: string, numArgs: nat, ghost args: seq<string>)
      requires |args| == numArgs && Pack(args) <= packed && forall a: string | a in args :: NoNul(a)
      modifies this`buf
      ensures buf == old(buf) + Lines(args)
    {
      hide Quoted, Pad, LineEnd, Pack, Lines;
      var cur: nat := 0;
      assert args[0..] == args && packed[0..] == packed;
      for a := 0 to numArgs
        invariant cur <= |packed| && Pack(args[a..]) <= packed[cur..]
        invariant buf + Lines(args[a..]) == old(buf) + Lines(args)
      {
        ghost var rest := args[a..];
        ghost var before := buf;
        assert rest[1..] == args[a + 1..] && rest[0] == args[a];
        cur := WriteArg(packed, cur, a == numArgs - 1, rest);
        LinesUnfold(rest);
        Joined4(before, Pad(), Quoted(args[a]), LineEnd(|rest| == 1), Lines(args[a + 1..]));
      }
      NoLines(args[numArgs..]);
    }

    method WriteEntry(dir: string, file_: string, packed: string, numArgs: nat, ghost args: seq<string>)
      requires |args| == numArgs && Pack(args) <= packed && forall a: string | a in args :: NoNul(a)
      modifies this`buf
      ensures buf == old(buf) + Entry(Command(dir, file_, args))
    {
      hide Quoted, Lines, DirectoryHead, FileHead, ArgumentsHead, EntryTail, Pack;
      Puts(DirectoryHead());
      WriteEscaped(dir);
      Puts(FileHead());
      WriteEscaped(file_);
      Puts(ArgumentsHead());
      WriteArgs(packed, numArgs, args);
      Puts(EntryTail());
      Joined7(old(buf), DirectoryHead(), Quoted(dir), FileHead(), Quoted(file_), ArgumentsHead(), Lines(args),
          EntryTail());
    }

    method Append(dir: string, file_: string, packed: string, numArgs: nat, ghost args: seq<string>)
      requires Valid()
      requires |args| == numArgs && Pack(args) <= packed && forall a: string | a in args :: NoNul(a)
      modifies this
      ensures Valid() && cmds == old(cmds) + [Command(dir, file_, args)]
    {
      hide Entry, Entries, DocumentHead, Pack, NoNul;
      ghost var c := Command(dir, file_, args);
      if count > 0 { Puts(",\n"); }
      assert buf == Separator(|cmds|);
      WriteEntry(dir, file_, packed, numArgs, args);
      count := count + 1;
      Flush();
      EntriesGrow(cmds, c);
      cmds := cmds + [c];
    }

    method Finish()
      requires Valid()
      modifies this
      ensures file == Document(cmds) && cmds == old(cmds) && !isOpen
    {
      hide DocumentHead, DocumentTail, Entries;
      Puts(DocumentTail());
      Flush();
      isOpen := false;
    }
  }
}
