/** The files the compile-commands writer leaves behind are JSON: the document of any list of commands is the text of an
    array in the grammar of RFC 8259; and it is settled exactly when it is so in the strict sense of its section 7. */
module WrittenJson {
  import opened CommandText
  import opened Lexing
  import opened JsonTexts

  // ---- The tree of a document ----

  function PieceOf(c: char): Piece {
    if c == '"' || c == '\\' then Short(c)
    else if c == '\n' then Short('n')
    else if c == '\r' then Short('r')
    else if c == '\t' then Short('t')
    else Plain(c)
  }

  function PiecesOf(s: string): seq<Piece> {
    if s == "" then [] else [PieceOf(s[0])] + PiecesOf(s[1..])
  }

  function ArgItems(args: seq<string>): Items {
    if args == [] then NoItems("\n        ")
    else Item("\n            ", Quote(PiecesOf(args[0])), "", ArgItems(args[1..]))
  }

  function ArgumentsMember(c: Command): Members {
    Member("\n        ", PiecesOf("arguments"), "", " ", List(ArgItems(c.args)), "\n    ", NoMembers(""))
  }

  function FileMember(c: Command): Members {
    Member("\n        ", PiecesOf("file"), "", " ", Quote(PiecesOf(c.file)), "", ArgumentsMember(c))
  }

  function DirectoryMember(c: Command): Members {
    Member("\n        ", PiecesOf("directory"), "", " ", Quote(PiecesOf(c.directory)), "", FileMember(c))
  }

  function CommandItems(cmds: seq<Command>): Items {
    if cmds == [] then NoItems("\n")
    else Item("\n    ", Dict(DirectoryMember(cmds[0])), "", CommandItems(cmds[1..]))
  }

  function DocumentItems(cmds: seq<Command>): Items {
    if cmds == [] then NoItems("\n\n") else CommandItems(cmds)
  }

  // ---- Its text ----

  lemma {:induction false} PiecesOfText(s: string)
    ensures PiecesText(PiecesOf(s)) == Escape(s)
  {
    if s != "" {
      PiecesOfText(s[1..]);
      assert PiecesOf(s)[1..] == PiecesOf(s[1..]);
      assert PieceText(PieceOf(s[0])) == EscapeChar(s[0]);
      hide PieceOf, PieceText, EscapeChar;
    }
  }

  lemma QuoteIsQuoted(s: string)
    ensures QuoteText(PiecesOf(s)) == Quoted(s)
  {
    PiecesOfText(s);
  }

  lemma KeyIsKey(s: string)
    requires '"' !in s && '\\' !in s && '\n' !in s && '\r' !in s && '\t' !in s
    ensures QuoteText(PiecesOf(s)) == "\"" + s + "\""
  {
    PiecesOfText(s);
    EscapeIsOneLine(s);
    hide Escape, PiecesText;
  }

  lemma {:induction false} ArgText(args: seq<string>)
    ensures ItemsText(ArgItems(args)) == "\n" + Lines(args) + "        "
    decreases |args|
  {
    if args == [] {
      assert "\n" + "" + "        " == "\n        ";
    } else {
      var rest := ArgItems(args[1..]);
      ArgText(args[1..]);
      QuoteIsQuoted(args[0]);
      LinesUnfold(args);
      assert ItemsText(ArgItems(args)) == "\n            " + (Quoted(args[0]) + ("" +
        ((if rest.Item? then "," else "") + ItemsText(rest)))) by { hide PiecesOf, QuoteText, Quoted, Lines; }
      hide ArgItems, Lines, Quoted, ItemsText;
      OneMoreLine(Quoted(args[0]), |args| == 1, Lines(args[1..]));
      assert rest.Item? <==> |args| != 1 by { ArgItemsItem(args[1..]); }
    }
  }

  lemma ArgItemsItem(args: seq<string>)
    ensures ArgItems(args).Item? <==> args != []
  {
  }

  lemma OneMoreLine(q: string, last: bool, lines: string)
    ensures "\n            " + (q + ("" + ((if last then "" else ",") + ("\n" + lines + "        ")))) ==
      "\n" + (Pad() + q + LineEnd(last) + lines) + "        "
  {
    assert "\n            " == "\n" + Pad();
    assert LineEnd(last) == (if last then "" else ",") + "\n";
  }

  function Label(key: string): string { "\n        \"" + key + "\": " }

  /** A member with its colon. */
  lemma MemberText(ms: Members, key: string, v: string, tail: string)
    requires ms.Member? && ms.before == "\n        " && ms.key == PiecesOf(key) && ms.mid == "" && ms.space == " "
    requires '"' !in key && '\\' !in key && '\n' !in key && '\r' !in key && '\t' !in key
    requires ValueText(ms.v) == v && MembersText(ms.rest) == tail
    ensures MembersText(ms) == Label(key) + v + ms.after + (if ms.rest.Member? then "," else "") + tail
  {
    KeyIsKey(key);
    hide ValueText, QuoteText, PiecesOf;
    Chained(key, v, ms.after, (if ms.rest.Member? then "," else ""), tail);
  }

  lemma Chained(key: string, v: string, after: string, sep: string, tail: string)
    ensures "\n        " + (("\"" + key + "\"") + ("" + (":" + (" " + (v + (after + (sep + tail))))))) ==
      Label(key) + v + after + sep + tail
  {
    assert "\n        " + "\"" == "\n        \"" && "\"" + "" + ":" + " " == "\": ";
    Regroup("\n        ", "\"", key, v, after, sep, tail);
  }

  lemma Regroup(a: string, q: string, key: string, v: string, after: string, sep: string, tail: string)
    ensures a + ((q + key + q) + ("" + (":" + (" " + (v + (after + (sep + tail))))))) ==
      (a + q) + key + (q + "" + ":" + " ") + v + after + sep + tail
  {
  }

  /** The object of a command. */
  lemma EntryText(c: Command)
    ensures "    " + ValueText(Dict(DirectoryMember(c))) == Entry(c)
  {
    hide *;
    ArgumentsText(c);
    FileText(c);
    DirectoryText(c);
    EntryParts(c);
    Joined(DirectoryHead(), Quoted(c.directory), FileHead(), Quoted(c.file), ArgumentsHead(), Lines(c.args));
  }

  lemma EntryParts(c: Command)
    ensures ValueText(Dict(DirectoryMember(c))) == "{" + MembersText(DirectoryMember(c)) + "}"
    ensures Entry(c) == DirectoryHead() + Quoted(c.directory) + FileHead() + Quoted(c.file) + ArgumentsHead()
      + Lines(c.args) + EntryTail()
  {
    hide MembersText, DirectoryHead, FileHead, ArgumentsHead, EntryTail, Quoted, Lines;
  }

  lemma ArgumentsText(c: Command)
    ensures "," + MembersText(ArgumentsMember(c)) == ArgumentsHead() + Lines(c.args) + "        ]\n    "
  {
    hide *;
    ArgumentsLabel(c);
    ArgumentsHeadIs();
    JoinArguments(",", Label("arguments"), "[", "\n", Lines(c.args), "        ", "]", "\n    ");
  }

  lemma ArgumentsLabel(c: Command)
    ensures MembersText(ArgumentsMember(c)) ==
      Label("arguments") + ("[" + ("\n" + Lines(c.args) + "        ") + "]") + "\n    " + "" + ""
  {
    hide Label, Lines, ArgItems, ItemsText, PiecesOf;
    ArgText(c.args);
    MemberText(ArgumentsMember(c), "arguments", "[" + ItemsText(ArgItems(c.args)) + "]", "");
  }

  lemma ArgumentsHeadIs()
    ensures "," + Label("arguments") + "[" + "\n" == ArgumentsHead()
    ensures "        " + "]" + "\n    " + "" + "" == "        ]\n    "
  {
  }

  lemma JoinArguments(a: string, b: string, c: string, d: string, lines: string, e: string, f: string, g: string)
    ensures a + (b + (c + (d + lines + e) + f) + g + "" + "") == (a + b + c + d) + lines + (e + f + g + "" + "")
  {
  }

  lemma FileText(c: Command)
    ensures "," + MembersText(FileMember(c)) == FileHead() + Quoted(c.file) + ("," + MembersText(ArgumentsMember(c)))
  {
    hide *;
    FileLabel(c);
    FileHeadIs();
    JoinField(",", Label("file"), Quoted(c.file), MembersText(ArgumentsMember(c)));
  }

  lemma FileLabel(c: Command)
    ensures MembersText(FileMember(c)) ==
      Label("file") + Quoted(c.file) + "" + "," + MembersText(ArgumentsMember(c))
  {
    hide Label, Quoted, PiecesOf, MembersText, ValueText;
    FieldText(c.file);
    MemberText(FileMember(c), "file", Quoted(c.file), MembersText(ArgumentsMember(c)));
  }

  lemma FileHeadIs()
    ensures "," + Label("file") == FileHead()
  {
  }

  lemma DirectoryText(c: Command)
    ensures "    " + ("{" + MembersText(DirectoryMember(c)) + "}") ==
      DirectoryHead() + Quoted(c.directory) + ("," + MembersText(FileMember(c))) + "}"
  {
    hide *;
    DirectoryLabel(c);
    DirectoryHeadIs();
    JoinFirst("    ", "{", Label("directory"), Quoted(c.directory), MembersText(FileMember(c)));
  }

  lemma DirectoryLabel(c: Command)
    ensures MembersText(DirectoryMember(c)) ==
      Label("directory") + Quoted(c.directory) + "" + "," + MembersText(FileMember(c))
  {
    hide Label, Quoted, PiecesOf, MembersText, ValueText;
    FieldText(c.directory);
    MemberText(DirectoryMember(c), "directory", Quoted(c.directory), MembersText(FileMember(c)));
  }

  lemma DirectoryHeadIs()
    ensures "    " + "{" + Label("directory") == DirectoryHead()
  {
  }

  lemma JoinField(a: string, b: string, v: string, rest: string)
    ensures a + (b + v + "" + "," + rest) == (a + b) + v + ("," + rest)
  {
  }

  lemma JoinFirst(a: string, b: string, c: string, v: string, rest: string)
    ensures a + (b + (c + v + "" + "," + rest) + "}") == (a + b + c) + v + ("," + rest) + "}"
  {
  }

  lemma Joined(dh: string, dir: string, fh: string, file: string, ah: string, lines: string)
    ensures dh + dir + (fh + file + (ah + lines + "        ]\n    ")) + "}" ==
      dh + dir + fh + file + ah + lines + EntryTail()
  {
    assert "        ]\n    " + "}" == EntryTail();
  }

  lemma FieldText(s: string)
    ensures ValueText(Quote(PiecesOf(s))) == Quoted(s)
  {
    QuoteIsQuoted(s);
  }

  lemma {:induction false} EntriesFirst(c: Command, rest: seq<Command>)
    ensures Entries([c] + rest) == Entry(c) + (if rest != [] then ",\n" else "") + Entries(rest)
    decreases |rest|
  {
    hide Entry;
    if rest == [] {
      assert ([c] + rest)[..0] == [];
    } else {
      var n := |rest| - 1;
      assert ([c] + rest)[..n + 1] == [c] + rest[..n];
      EntriesFirst(c, rest[..n]);
    }
  }

  lemma {:induction false} CommandsText(cmds: seq<Command>)
    requires cmds != []
    ensures ItemsText(CommandItems(cmds)) == "\n" + Entries(cmds) + "\n"
    decreases |cmds|
  {
    var rest := cmds[1..];
    assert cmds == [cmds[0]] + rest;
    EntriesFirst(cmds[0], rest);
    EntryText(cmds[0]);
    var v := ValueText(Dict(DirectoryMember(cmds[0])));
    assert ItemsText(CommandItems(cmds)) == "\n    " + (v + ("" +
      ((if CommandItems(rest).Item? then "," else "") + ItemsText(CommandItems(rest))))) by { hide ValueText; }
    if rest != [] { CommandsText(rest); }
    hide ValueText, Entry, Entries, DirectoryMember;
    if rest == [] {
      LastEntry(v);
    } else {
      FirstEntry(v, Entries(rest));
    }
  }

  lemma LastEntry(v: string)
    ensures "\n    " + (v + ("" + ("" + "\n"))) == "\n" + (("    " + v) + "" + "") + "\n"
  {
    assert "\n    " == "\n" + "    ";
  }

  lemma FirstEntry(v: string, more: string)
    ensures "\n    " + (v + ("" + ("," + ("\n" + more + "\n")))) == "\n" + (("    " + v) + ",\n" + more) + "\n"
  {
    assert "\n    " == "\n" + "    " && ",\n" == "," + "\n";
  }

  /** The text of a document is that of its tree. */
  lemma DocumentText(cmds: seq<Command>)
    ensures JsonText("", List(DocumentItems(cmds)), "\n") == Document(cmds)
  {
    hide *;
    var t := ItemsText(DocumentItems(cmds));
    assert t == "\n" + Entries(cmds) + "\n" by {
      if cmds == [] { NoCommands(); } else { CommandsText(cmds); SomeCommands(cmds); }
    }
    DocumentParts(cmds);
    Framed(Entries(cmds));
  }

  lemma NoCommands()
    ensures ItemsText(DocumentItems([])) == "\n" + Entries([]) + "\n"
  {
  }

  lemma SomeCommands(cmds: seq<Command>)
    requires cmds != []
    ensures DocumentItems(cmds) == CommandItems(cmds)
  {
  }

  lemma DocumentParts(cmds: seq<Command>)
    ensures JsonText("", List(DocumentItems(cmds)), "\n") == "" + (("[" + ItemsText(DocumentItems(cmds)) + "]") + "\n")
    ensures Document(cmds) == DocumentHead() + Entries(cmds) + DocumentTail()
  {
    hide ItemsText, DocumentItems, DocumentHead, DocumentTail, Entries;
  }

  lemma Framed(t: string)
    ensures "" + (("[" + ("\n" + t + "\n") + "]") + "\n") == DocumentHead() + t + DocumentTail()
  {
    assert "[" + "\n" == DocumentHead() && "\n" + "]" + "\n" == DocumentTail();
  }

  // ---- It is a JSON text ----

  lemma {:induction false} PiecesOfOk(s: string)
    requires NoNul(s)
    ensures PiecesOk(PiecesOf(s))
  {
    if s != "" {
      assert s[0] in s && forall c | c in s[1..] :: c in s;
      PiecesOfOk(s[1..]);
    }
  }

  lemma KeysOk()
    ensures PiecesOk(PiecesOf("directory")) && PiecesOk(PiecesOf("file")) && PiecesOk(PiecesOf("arguments"))
  {
    hide PiecesOf, PiecesOk;
    PiecesOfOk("directory");
    PiecesOfOk("file");
    PiecesOfOk("arguments");
  }

  lemma {:induction false} ArgItemsOk(args: seq<string>)
    requires forall a: string | a in args :: NoNul(a)
    ensures ItemsOk(ArgItems(args))
  {
    hide PiecesOf, PiecesOk, NoNul;
    if args != [] {
      PiecesOfOk(args[0]);
      ArgItemsOk(args[1..]);
    }
  }

  lemma CommandOk(c: Command)
    requires NulFree(c)
    ensures MembersOk(DirectoryMember(c))
  {
    hide PiecesOf, PiecesOk, ArgItems, NoNul;
    KeysOk();
    PiecesOfOk(c.directory);
    PiecesOfOk(c.file);
    ArgItemsOk(c.args);
    assert MembersOk(ArgumentsMember(c)) by { assert ValueOk(List(ArgItems(c.args))); }
    assert MembersOk(FileMember(c)) by { hide ArgumentsMember; }
    hide FileMember;
  }

  lemma {:induction false} CommandItemsOk(cmds: seq<Command>)
    requires forall c | c in cmds :: NulFree(c)
    ensures ItemsOk(CommandItems(cmds)) && ItemCount(CommandItems(cmds)) == |cmds|
  {
    hide NulFree, DirectoryMember, MembersOk;
    if cmds != [] {
      CommandOk(cmds[0]);
      CommandItemsOk(cmds[1..]);
    }
  }

  /** Every file the writer leaves behind is the text of a JSON array with one item for each command. */
  lemma WrittenIsJson(cmds: seq<Command>) returns (items: Items)
    requires forall c | c in cmds :: NulFree(c)
    ensures ItemsOk(items) && ItemCount(items) == |cmds|
    ensures Document(cmds) == JsonText("", List(items), "\n")
  {
    hide NulFree, CommandItems, Document, JsonText;
    items := DocumentItems(cmds);
    DocumentText(cmds);
    CommandItemsOk(cmds);
  }

  // ---- In the strict sense ----

  /** A string may hold no raw control character. */
  ghost predicate StrictPieces(ps: seq<Piece>) {
    forall k | 0 <= k < |ps| :: ps[k].Plain? ==> ps[k].c >= ' '
  }

  ghost predicate StrictValue(v: Value)
    decreases v
  {
    match v
    case Quote(ps) => StrictPieces(ps)
    case Word(_) => true
    case List(items) => StrictItems(items)
    case Dict(members) => StrictMembers(members)
  }

  ghost predicate StrictItems(items: Items)
    decreases items
  {
    items.Item? ==> StrictValue(items.v) && StrictItems(items.rest)
  }

  ghost predicate StrictMembers(ms: Members)
    decreases ms
  {
    ms.Member? ==> StrictPieces(ms.key) && StrictValue(ms.v) && StrictMembers(ms.rest)
  }

  ghost predicate StrictJson(js: string) {
    exists before, v, after ::
      BlankOk(before) && ValueOk(v) && StrictValue(v) && BlankOk(after) && js == JsonText(before, v, after)
  }

  /** A control character that the writer does not escape. */
  predicate Raw(c: char) {
    c < ' ' && c != '\t' && c != '\n' && c != '\r'
  }

  ghost predicate Tame(s: string) {
    forall c | c in s :: !Raw(c)
  }

  ghost predicate TameCommand(c: Command) {
    Tame(c.directory) && Tame(c.file) && forall a: string | a in c.args :: Tame(a)
  }

  lemma TameAppend(a: string, b: string)
    ensures Tame(a + b) <==> Tame(a) && Tame(b)
  {
    assert forall c | c in a :: c in a + b;
    assert forall c | c in b :: c in a + b;
  }

  lemma {:induction false} StrictPiecesTame(ps: seq<Piece>)
    requires PiecesOk(ps) && StrictPieces(ps)
    ensures Tame(PiecesText(ps))
  {
    if ps != [] {
      StrictPiecesTame(ps[1..]);
      assert PieceOk(ps[0]);
      TameAppend(PieceText(ps[0]), PiecesText(ps[1..]));
    }
  }

  lemma BlankTame(ws: string)
    requires BlankOk(ws)
    ensures Tame(ws)
  {
  }

  lemma QuoteTame(ps: seq<Piece>)
    requires PiecesOk(ps) && StrictPieces(ps)
    ensures Tame(QuoteText(ps))
  {
    StrictPiecesTame(ps);
    assert Tame("\"");
    hide Tame, PiecesText;
    TameAppend("\"", PiecesText(ps));
    TameAppend("\"" + PiecesText(ps), "\"");
  }

  lemma {:induction false} ValueTame(v: Value)
    requires ValueOk(v) && StrictValue(v)
    ensures Tame(ValueText(v))
    decreases v
  {
    match v
    case Quote(ps) => QuoteTame(ps);
    case Word(_) =>
    case List(items) =>
      ItemsTame(items);
      BracketTame("[", ItemsText(items), "]");
    case Dict(members) =>
      MembersTame(members);
      BracketTame("{", MembersText(members), "}");
  }

  lemma BracketTame(a: string, t: string, b: string)
    requires Tame(t) && ((a == "[" && b == "]") || (a == "{" && b == "}"))
    ensures Tame(a + t + b)
  {
    assert Tame(a) && Tame(b);
    hide Tame;
    TameAppend(a, t);
    TameAppend(a + t, b);
  }

  lemma {:induction false} ItemsTame(items: Items)
    requires ItemsOk(items) && StrictItems(items)
    ensures Tame(ItemsText(items))
    decreases items
  {
    hide ValueText, Tame;
    if items.NoItems? {
      BlankTame(items.blank);
    } else {
      BlankTame(items.before);
      ValueTame(items.v);
      BlankTame(items.after);
      ItemsTame(items.rest);
      TailTame(items.after, items.rest.Item?, ItemsText(items.rest));
      var tail := items.after + ((if items.rest.Item? then "," else "") + ItemsText(items.rest));
      TameAppend(ValueText(items.v), tail);
      TameAppend(items.before, ValueText(items.v) + tail);
    }
  }

  lemma TailTame(after: string, more: bool, rest: string)
    requires Tame(after) && Tame(rest)
    ensures Tame(after + ((if more then "," else "") + rest))
  {
    var sep := if more then "," else "";
    assert Tame(sep);
    hide Tame;
    TameAppend(sep, rest);
    TameAppend(after, sep + rest);
  }

  lemma {:induction false} MembersTame(ms: Members)
    requires MembersOk(ms) && StrictMembers(ms)
    ensures Tame(MembersText(ms))
    decreases ms
  {
    hide ValueText, QuoteText, Tame;
    if ms.NoMembers? {
      BlankTame(ms.blank);
    } else {
      BlankTame(ms.before);
      QuoteTame(ms.key);
      BlankTame(ms.mid);
      BlankTame(ms.space);
      ValueTame(ms.v);
      BlankTame(ms.after);
      MembersTame(ms.rest);
      TailTame(ms.after, ms.rest.Member?, MembersText(ms.rest));
      var tail := ms.after + ((if ms.rest.Member? then "," else "") + MembersText(ms.rest));
      ColonTame(ms.before, QuoteText(ms.key), ms.mid, ms.space, ValueText(ms.v), tail);
    }
  }

  lemma ColonTame(a: string, b: string, c: string, d: string, e: string, f: string)
    requires Tame(a) && Tame(b) && Tame(c) && Tame(d) && Tame(e) && Tame(f)
    ensures Tame(a + (b + (c + (":" + (d + (e + f))))))
  {
    assert Tame(":");
    hide Tame;
    TameAppend(e, f);
    TameAppend(d, e + f);
    TameAppend(":", d + (e + f));
    TameAppend(c, ":" + (d + (e + f)));
    TameAppend(b, c + (":" + (d + (e + f))));
    TameAppend(a, b + (c + (":" + (d + (e + f)))));
  }

  lemma StrictIsTame(js: string)
    requires StrictJson(js)
    ensures Tame(js)
  {
    hide ValueOk, StrictValue, ValueText, Tame;
    var before, v, after :|
      BlankOk(before) && ValueOk(v) && StrictValue(v) && BlankOk(after) && js == JsonText(before, v, after);
    BlankTame(before);
    BlankTame(after);
    ValueTame(v);
    TameAppend(ValueText(v), after);
    TameAppend(before, ValueText(v) + after);
  }

  // ---- The condition is needed ----

  lemma {:induction false} EscapeTame(s: string)
    ensures Tame(Escape(s)) <==> Tame(s)
  {
    if s != "" {
      EscapeTame(s[1..]);
      assert s == [s[0]] + s[1..];
      TameAppend([s[0]], s[1..]);
      TameAppend(EscapeChar(s[0]), Escape(s[1..]));
      EscapeCharTame(s[0]);
      hide Tame, EscapeChar;
    }
  }

  lemma EscapeCharTame(c: char)
    ensures Tame(EscapeChar(c)) <==> Tame([c])
  {
    assert c in [c];
    if Raw(c) { assert c in EscapeChar(c); }
  }

  lemma QuotedTame(s: string)
    requires Tame(Quoted(s))
    ensures Tame(s)
  {
    EscapeTame(s);
    hide Tame, Escape;
    TameAppend("\"", Escape(s));
    TameAppend("\"" + Escape(s), "\"");
  }

  lemma {:induction false} LinesTame(args: seq<string>)
    requires Tame(Lines(args))
    ensures forall a: string | a in args :: Tame(a)
  {
    hide Tame, Quoted, Pad, LineEnd;
    if args != [] {
      var q, e := Quoted(args[0]), LineEnd(|args| == 1);
      TameAppend(Pad() + q + e, Lines(args[1..]));
      TameAppend(Pad() + q, e);
      TameAppend(Pad(), q);
      QuotedTame(args[0]);
      LinesTame(args[1..]);
    }
  }

  lemma EntryTame(c: Command)
    requires Tame(Entry(c))
    ensures TameCommand(c)
  {
    hide Tame, Quoted, Lines;
    var t1 := DirectoryHead() + Quoted(c.directory);
    var t2 := t1 + FileHead() + Quoted(c.file);
    var t3 := t2 + ArgumentsHead() + Lines(c.args);
    TameAppend(t3, EntryTail());
    TameAppend(t2 + ArgumentsHead(), Lines(c.args));
    TameAppend(t2, ArgumentsHead());
    TameAppend(t1 + FileHead(), Quoted(c.file));
    TameAppend(t1, FileHead());
    TameAppend(DirectoryHead(), Quoted(c.directory));
    QuotedTame(c.directory);
    QuotedTame(c.file);
    LinesTame(c.args);
  }

  lemma {:induction false} EntriesTame(cmds: seq<Command>)
    requires Tame(Entries(cmds))
    ensures forall c | c in cmds :: TameCommand(c)
    decreases |cmds|
  {
    hide Tame, TameCommand, Entry, Separator;
    if cmds != [] {
      var n := |cmds| - 1;
      TameAppend(Entries(cmds[..n]) + Separator(n), Entry(cmds[n]));
      TameAppend(Entries(cmds[..n]), Separator(n));
      EntriesTame(cmds[..n]);
      EntryTame(cmds[n]);
      assert cmds == cmds[..n] + [cmds[n]];
    }
  }

  // ---- The condition suffices ----

  lemma {:induction false} PiecesOfStrict(s: string)
    requires Tame(s)
    ensures StrictPieces(PiecesOf(s))
  {
    if s != "" {
      assert s[0] in s && forall c | c in s[1..] :: c in s;
      PiecesOfStrict(s[1..]);
    }
  }

  lemma KeysStrict()
    ensures StrictPieces(PiecesOf("directory")) && StrictPieces(PiecesOf("file")) && StrictPieces(PiecesOf("arguments"))
  {
    hide PiecesOf, StrictPieces;
    PiecesOfStrict("directory");
    PiecesOfStrict("file");
    PiecesOfStrict("arguments");
  }

  lemma {:induction false} ArgItemsStrict(args: seq<string>)
    requires forall a: string | a in args :: Tame(a)
    ensures StrictItems(ArgItems(args))
  {
    hide PiecesOf, StrictPieces, Tame;
    if args != [] {
      PiecesOfStrict(args[0]);
      ArgItemsStrict(args[1..]);
    }
  }

  lemma CommandStrict(c: Command)
    requires TameCommand(c)
    ensures StrictMembers(DirectoryMember(c))
  {
    hide PiecesOf, StrictPieces, ArgItems, Tame;
    KeysStrict();
    PiecesOfStrict(c.directory);
    PiecesOfStrict(c.file);
    ArgItemsStrict(c.args);
    assert StrictMembers(ArgumentsMember(c)) by { assert StrictValue(List(ArgItems(c.args))); }
    assert StrictMembers(FileMember(c)) by { hide ArgumentsMember; }
    hide FileMember;
  }

  lemma {:induction false} CommandItemsStrict(cmds: seq<Command>)
    requires forall c | c in cmds :: TameCommand(c)
    ensures StrictItems(CommandItems(cmds))
  {
    hide TameCommand, DirectoryMember, StrictMembers;
    if cmds != [] {
      CommandStrict(cmds[0]);
      CommandItemsStrict(cmds[1..]);
    }
  }

  /** The written file is JSON in the strict sense exactly if no string in it holds a control character other than a tab
      or a line end: the writer leaves the others as they are. */
  lemma StrictlyJsonIff(cmds: seq<Command>)
    requires forall c | c in cmds :: NulFree(c)
    ensures StrictJson(Document(cmds)) <==> forall c | c in cmds :: TameCommand(c)
  {
    hide *;
    if StrictJson(Document(cmds)) {
      StrictIsTame(Document(cmds));
      EntriesOfTame(cmds);
      EntriesTame(cmds);
    }
    if forall c | c in cmds :: TameCommand(c) {
      CommandItemsStrict(cmds);
      CommandItemsOk(cmds);
      DocumentText(cmds);
      TreeIsStrict(cmds);
    }
  }

  lemma EntriesOfTame(cmds: seq<Command>)
    requires Tame(Document(cmds))
    ensures Tame(Entries(cmds))
  {
    hide Tame, Entries;
    TameAppend(DocumentHead() + Entries(cmds), DocumentTail());
    TameAppend(DocumentHead(), Entries(cmds));
  }

  lemma TreeIsStrict(cmds: seq<Command>)
    requires ItemsOk(CommandItems(cmds)) && StrictItems(CommandItems(cmds))
    requires JsonText("", List(DocumentItems(cmds)), "\n") == Document(cmds)
    ensures StrictJson(Document(cmds))
  {
    hide CommandItems, JsonText, Document;
    assert ItemsOk(DocumentItems(cmds)) && StrictItems(DocumentItems(cmds));
    assert ValueOk(List(DocumentItems(cmds))) && StrictValue(List(DocumentItems(cmds)));
    assert BlankOk("") && BlankOk("\n");
  }

  /** Such a file exists: a string with a bell in it. */
  lemma BellIsNotStrict()
    ensures NulFree(Command("\U{7}", "", [])) && !StrictJson(Document([Command("\U{7}", "", [])]))
  {
    var c := Command("\U{7}", "", []);
    assert '\U{7}' in c.directory && Raw('\U{7}');
    hide Document, StrictJson;
    assert c in [c] && !TameCommand(c);
    StrictlyJsonIff([c]);
  }
}
