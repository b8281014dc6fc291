/** What the compile-commands reader makes of any JSON text: a command for each object in the outermost array. */
module JsonCommands {
  import opened Basics
  import opened Tokens
  import opened Lexing
  import opened JsmnParser
  import opened TokenTree
  import opened CommandText
  import opened CompileCommands
  import opened Definedness
  import opened JsonTexts

  // ---- What is to be read ----

  /** The text between the offsets of the token of a value: a string without its quotes, anything else in full. */
  function Inner(v: Value): string {
    if v.Quote? then PiecesText(v.ps) else ValueText(v)
  }

  /** The value of the last member of that name; a list of arguments must be an array. */
  function LastValue(ms: Members, name: string): (r: Option<Value>)
    ensures name == "arguments" && r.Some? ==> r.value.List?
    decreases ms
  {
    if ms.NoMembers? then None
    else
      var later := LastValue(ms.rest, name);
      if later.Some? then later
      else if PiecesText(ms.key) == name && (name == "arguments" ==> ms.v.List?) then Some(ms.v)
      else None
  }

  function PackedItems(items: Items): string
    decreases items
  {
    if items.NoItems? then "" else Unescape(Inner(items.v)) + "\0" + PackedItems(items.rest)
  }

  function TextOrElse(v: Option<Value>, other: string): string {
    if v.Some? then Unescape(Inner(v.value)) else other
  }

  /** What the members make of a command read so far. */
  function Fill(ms: Members, cmd: Read): Read {
    var args := LastValue(ms, "arguments");
    Read(
      TextOrElse(LastValue(ms, "directory"), cmd.directory),
      TextOrElse(LastValue(ms, "file"), cmd.file),
      if args.Some? then ItemCount(args.value.items) else cmd.numArgs,
      if args.Some? then PackedItems(args.value.items) else cmd.packed)
  }

  function CommandsOf(items: Items): seq<Read>
    decreases items
  {
    if items.NoItems? then []
    else (if items.v.Dict? then [Fill(items.v.members, Blank)] else []) + CommandsOf(items.rest)
  }

  // ---- Tokens in their place ----

  /** The tokens stand at index `i`. */
  ghost predicate Here(toks: seq<Token>, i: nat, part: seq<Token>) {
    i + |part| <= |toks| && forall k | 0 <= k < |part| :: toks[i + k] == part[k]
  }

  /** What stands at index `j`, if anything, begins at position `q` or later. */
  predicate Behind(toks: seq<Token>, j: nat, q: nat) {
    j < |toks| ==> q <= toks[j].start
  }

  lemma HereSplit(toks: seq<Token>, i: nat, a: seq<Token>, b: seq<Token>)
    requires Here(toks, i, a + b)
    ensures Here(toks, i, a) && Here(toks, i + |a|, b)
  {
    forall k | 0 <= k < |a| ensures toks[i + k] == a[k] { assert toks[i + k] == (a + b)[k]; }
    forall k | 0 <= k < |b| ensures toks[i + |a| + k] == b[k] { assert toks[i + (|a| + k)] == (a + b)[|a| + k]; }
  }

  lemma HereFirst(toks: seq<Token>, i: nat, part: seq<Token>)
    requires Here(toks, i, part) && part != []
    ensures i < |toks| && toks[i] == part[0]
  {
    assert toks[i + 0] == part[0];
  }

  /** All tokens of a value begin within its text. */
  lemma {:induction false} ValueStarts(v: Value, p: nat, k: nat)
    requires ValueOk(v) && k < |ValueToks(v, p)|
    ensures p <= ValueToks(v, p)[k].start < p + |ValueText(v)|
    ensures ValueToks(v, p)[0].end <= p + |ValueText(v)| && (k > 0 ==> ValueToks(v, p)[0].end == p + |ValueText(v)|)
    ensures ValueToks(v, p)[0].end != -1
    decreases v, 1
  {
    if v.List? && k > 0 {
      ItemStarts(v.items, p + 1, k - 1);
    } else if v.Dict? && k > 0 {
      MemberStarts(v.members, p + 1, k - 1);
    }
  }

  lemma {:induction false} ItemStarts(items: Items, p: nat, k: nat)
    requires ItemsOk(items) && k < |ItemToks(items, p)|
    ensures p <= ItemToks(items, p)[k].start < p + |ItemsText(items)|
    decreases items, 0
  {
    hide ValueToks, ValueText;
    var n := |ValueToks(items.v, p + |items.before|)|;
    if k < n {
      ValueStarts(items.v, p + |items.before|, k);
    } else {
      ItemStarts(items.rest, BehindItem(items, p), k - n);
    }
  }

  lemma {:induction false} MemberStarts(ms: Members, p: nat, k: nat)
    requires MembersOk(ms) && k < |MemberToks(ms, p)|
    ensures p <= MemberToks(ms, p)[k].start < p + |MembersText(ms)|
    decreases ms, 0
  {
    hide ValueToks, ValueText, PiecesText;
    var n := |ValueToks(ms.v, ValueAt(ms, p))|;
    if k == 0 {
    } else if k < n + 1 {
      ValueStarts(ms.v, ValueAt(ms, p), k - 1);
    } else {
      MemberStarts(ms.rest, BehindMember(ms, p), k - n - 1);
    }
  }

  /** Skipping steps over exactly the tokens of a value. */
  lemma SkipValue(toks: seq<Token>, i: nat, v: Value, p: nat)
    requires ValueOk(v) && Here(toks, i, ValueToks(v, p)) && Behind(toks, i + |ValueToks(v, p)|, p + |ValueText(v)|)
    ensures i < |toks| && Skip(toks, i) == i + |ValueToks(v, p)| && !IsOpen(toks[i])
  {
    hide ValueToks, ValueText, Skip;
    HereFirst(toks, i, ValueToks(v, p));
    var next := i + |ValueToks(v, p)|;
    ValueStarts(v, p, 0);
    forall j | i < j < next
      ensures toks[j].start < toks[i].end
    {
      ValueStarts(v, p, j - i);
      assert toks[i + (j - i)] == ValueToks(v, p)[j - i];
    }
    SkipIs(toks, i, next);
  }

  lemma SkipIs(toks: seq<Token>, i: nat, next: nat)
    requires i < |toks| && SkipsTo(toks, i, next)
    ensures Skip(toks, i) == next
  {
    SkipsToIsSkip(toks, i, i + 1, next);
  }

  /** The first token of what follows an item, or what is behind all items. */
  lemma BehindFirst(toks: seq<Token>, i: nat, items: Items, p: nat)
    requires items.Item? && ItemsOk(items) && Here(toks, i, ItemToks(items, p))
    requires Behind(toks, i + |ItemToks(items, p)|, p + |ItemsText(items)|)
    ensures Here(toks, i, ValueToks(items.v, p + |items.before|))
    ensures var j := i + |ValueToks(items.v, p + |items.before|)|;
            && Here(toks, j, ItemToks(items.rest, BehindItem(items, p)))
            && Behind(toks, j, p + |items.before| + |ValueText(items.v)|)
            && j + |ItemToks(items.rest, BehindItem(items, p))| == i + |ItemToks(items, p)|
    ensures BehindItem(items, p) + |ItemsText(items.rest)| == p + |ItemsText(items)|
  {
    hide ValueToks, ValueText, Here;
    var a, b := ValueToks(items.v, p + |items.before|), ItemToks(items.rest, BehindItem(items, p));
    HereSplit(toks, i, a, b);
    if b != [] {
      HereFirst(toks, i + |a|, b);
      ItemStarts(items.rest, BehindItem(items, p), 0);
    }
  }

  lemma BehindFirstMember(toks: seq<Token>, i: nat, ms: Members, p: nat)
    requires ms.Member? && MembersOk(ms) && Here(toks, i, MemberToks(ms, p))
    requires Behind(toks, i + |MemberToks(ms, p)|, p + |MembersText(ms)|)
    ensures i < |toks| && toks[i] == KeyToken(ms, p) && Here(toks, i + 1, ValueToks(ms.v, ValueAt(ms, p)))
    ensures var j := i + 1 + |ValueToks(ms.v, ValueAt(ms, p))|;
            && Here(toks, j, MemberToks(ms.rest, BehindMember(ms, p)))
            && Behind(toks, j, ValueAt(ms, p) + |ValueText(ms.v)|)
            && j + |MemberToks(ms.rest, BehindMember(ms, p))| == i + |MemberToks(ms, p)|
    ensures BehindMember(ms, p) + |MembersText(ms.rest)| == p + |MembersText(ms)|
  {
    hide ValueToks, ValueText, Here, KeyToken;
    var k, a, b := [KeyToken(ms, p)], ValueToks(ms.v, ValueAt(ms, p)), MemberToks(ms.rest, BehindMember(ms, p));
    HereSplit(toks, i, k + a, b);
    HereSplit(toks, i, k, a);
    HereFirst(toks, i, k);
    if b != [] {
      HereFirst(toks, i + |k + a|, b);
      MemberStarts(ms.rest, BehindMember(ms, p), 0);
    }
  }

  // ---- Texts of tokens ----

  lemma LiesSlice(js: string, p: nat, w: string)
    requires Lies(js, p, w)
    ensures p + |w| <= |js| && js[p..p + |w|] == w
  {
  }

  lemma InnerText(js: string, v: Value, p: nat)
    requires ValueOk(v) && Lies(js, p, ValueText(v))
    ensures var t := ValueToks(v, p)[0]; 0 <= t.start <= t.end <= |js| && js[t.start..t.end] == Inner(v)
  {
    hide Lies;
    LiesSlice(js, p, ValueText(v));
    if v.Quote? {
      LiesSplit(js, p, "\"" + PiecesText(v.ps), "\"");
      LiesSplit(js, p, "\"", PiecesText(v.ps));
      LiesSlice(js, p + 1, PiecesText(v.ps));
    }
  }

  lemma KeyText(js: string, ms: Members, p: nat)
    requires ms.Member? && Lies(js, p + |ms.before|, QuoteText(ms.key))
    ensures var t := KeyToken(ms, p); t.start <= t.end <= |js| && js[t.start..t.end] == PiecesText(ms.key)
  {
    hide Lies;
    var q := p + |ms.before|;
    LiesSplit(js, q, "\"" + PiecesText(ms.key), "\"");
    LiesSplit(js, q, "\"", PiecesText(ms.key));
    LiesSlice(js, q + 1, PiecesText(ms.key));
  }

  // ---- Reading ----

  /** The arguments. */
  lemma {:induction false} ItemsArePacked(js: string, toks: seq<Token>, i: nat, items: Items, p: nat)
    requires TokensIn(js, toks) && ItemsOk(items) && Lies(js, p, ItemsText(items)) && i <= |toks|
    requires Here(toks, i, ItemToks(items, p)) && Behind(toks, i + |ItemToks(items, p)|, p + |ItemsText(items)|)
    ensures ReadArgs(js, toks, i, ItemCount(items)) == Taken(PackedItems(items), i + |ItemToks(items, p)|)
    decreases items
  {
    hide *;
    if items.NoItems? {
      NothingToPack(js, toks, i, items, p);
    } else {
      ItemIsPacked(js, toks, i, items, p);
      BehindFirst(toks, i, items, p);
      ItemsArePacked(js, toks, i + |ValueToks(items.v, p + |items.before|)|, items.rest, BehindItem(items, p));
      PackOne(js, toks, i, items, p);
    }
  }

  lemma NothingToPack(js: string, toks: seq<Token>, i: nat, items: Items, p: nat)
    requires TokensIn(js, toks) && items.NoItems? && i <= |toks|
    ensures ReadArgs(js, toks, i, ItemCount(items)) == Taken(PackedItems(items), i + |ItemToks(items, p)|)
  {
    hide TokenIn;
  }

  /** Its first argument. */
  lemma ItemIsPacked(js: string, toks: seq<Token>, i: nat, items: Items, p: nat)
    requires TokensIn(js, toks) && items.Item? && ItemsOk(items) && Lies(js, p, ItemsText(items)) && i <= |toks|
    requires Here(toks, i, ItemToks(items, p)) && Behind(toks, i + |ItemToks(items, p)|, p + |ItemsText(items)|)
    ensures i < |toks| && !IsOpen(toks[i]) && Text(js, toks[i]) == Inner(items.v)
    ensures Skip(toks, i) == i + |ValueToks(items.v, p + |items.before|)|
    ensures Lies(js, BehindItem(items, p), ItemsText(items.rest)) && ItemsOk(items.rest)
    ensures i + |ValueToks(items.v, p + |items.before|)| <= |toks|
  {
    hide Lies, Here, ValueToks, ValueText, ItemsText, ItemToks, Skip, Inner, Behind;
    SplitItem(js, p, items);
    BehindFirst(toks, i, items, p);
    SkipValue(toks, i, items.v, p + |items.before|);
    HereFirst(toks, i, ValueToks(items.v, p + |items.before|));
    HereBound(toks, i, ValueToks(items.v, p + |items.before|));
    InnerText(js, items.v, p + |items.before|);
  }

  lemma PackOne(js: string, toks: seq<Token>, i: nat, items: Items, p: nat)
    requires TokensIn(js, toks) && items.Item? && i < |toks| && !IsOpen(toks[i]) && Text(js, toks[i]) == Inner(items.v)
    requires Skip(toks, i) <= |toks| && ReadArgs(js, toks, Skip(toks, i), ItemCount(items.rest)).Taken?
    requires ReadArgs(js, toks, Skip(toks, i), ItemCount(items.rest)).packed == PackedItems(items.rest)
    ensures ReadArgs(js, toks, i, ItemCount(items)) ==
      Taken(PackedItems(items), ReadArgs(js, toks, Skip(toks, i), ItemCount(items.rest)).next)
  {
    hide Skip, Unescape, Inner, TokenIn, Text;
  }

  /** One member. */
  function FillOne(key: string, v: Value, cmd: Read): Read {
    if key == "directory" then cmd.(directory := Unescape(Inner(v)))
    else if key == "file" then cmd.(file := Unescape(Inner(v)))
    else if key == "arguments" && v.List? then cmd.(numArgs := ItemCount(v.items), packed := PackedItems(v.items))
    else cmd
  }

  lemma FillUnfolds(ms: Members, cmd: Read)
    requires ms.Member?
    ensures Fill(ms, cmd) == Fill(ms.rest, FillOne(PiecesText(ms.key), ms.v, cmd))
  {
    hide PiecesText, Inner, Unescape, PackedItems;
    assert "directory"[0] == 'd' && "file"[0] == 'f' && "arguments"[0] == 'a';
  }

  lemma MemberIsRead(js: string, toks: seq<Token>, i: nat, ms: Members, p: nat, cmd: Read)
    requires TokensIn(js, toks) && ms.Member? && MembersOk(ms) && Lies(js, p, MembersText(ms))
    requires Here(toks, i, MemberToks(ms, p)) && Behind(toks, i + |MemberToks(ms, p)|, p + |MembersText(ms)|)
    ensures i <= |toks| && ReadField(js, toks, i, cmd) ==
      Fields(FillOne(PiecesText(ms.key), ms.v, cmd), i + 1 + |ValueToks(ms.v, ValueAt(ms, p))|)
  {
    hide Lies, Here, ValueToks, ValueText, MembersText, MemberToks, Skip, Unescape, PackedItems, ReadArgs, ItemCount,
         PiecesText, QuoteText, Behind;
    SplitMember(js, p, ms);
    BehindFirstMember(toks, i, ms, p);
    var q := ValueAt(ms, p);
    SkipValue(toks, i + 1, ms.v, q);
    HereFirst(toks, i + 1, ValueToks(ms.v, q));
    InnerText(js, ms.v, q);
    KeyText(js, ms, p);
    ValueKinds(ms.v, q);
    if ms.v.List? { ListIsPacked(js, toks, i + 1, ms.v, q); }
  }

  lemma ValueKinds(v: Value, p: nat)
    ensures var t := ValueToks(v, p)[0];
            && (t.kind == Array <==> v.List?) && (t.kind == Object <==> v.Dict?)
            && (v.List? ==> t.size == ItemCount(v.items)) && (v.Dict? ==> t.size == MemberCount(v.members))
  {
  }

  lemma ListIsPacked(js: string, toks: seq<Token>, i: nat, v: Value, p: nat)
    requires TokensIn(js, toks) && v.List? && ValueOk(v) && Lies(js, p, ValueText(v))
    requires Here(toks, i, ValueToks(v, p)) && Behind(toks, i + |ValueToks(v, p)|, p + |ValueText(v)|)
    ensures i + 1 <= |toks|
    ensures ReadArgs(js, toks, i + 1, ItemCount(v.items)) == Taken(PackedItems(v.items), i + |ValueToks(v, p)|)
  {
    hide Lies, Here, ItemToks, ItemsText, ReadArgs;
    var a := [ValueToks(v, p)[0]];
    assert ValueToks(v, p) == a + ItemToks(v.items, p + 1);
    HereSplit(toks, i, a, ItemToks(v.items, p + 1));
    LiesSplit(js, p, "[" + ItemsText(v.items), "]");
    LiesSplit(js, p, "[", ItemsText(v.items));
    HereBound(toks, i, ValueToks(v, p));
    ItemsArePacked(js, toks, i + 1, v.items, p + 1);
  }

  lemma HereBound(toks: seq<Token>, i: nat, part: seq<Token>)
    requires Here(toks, i, part)
    ensures i + |part| <= |toks|
  {
  }

  /** The members of an object. */
  lemma {:induction false} MembersAreRead(js: string, toks: seq<Token>, i: nat, ms: Members, p: nat, cmd: Read)
    requires TokensIn(js, toks) && MembersOk(ms) && Lies(js, p, MembersText(ms)) && i <= |toks|
    requires Here(toks, i, MemberToks(ms, p)) && Behind(toks, i + |MemberToks(ms, p)|, p + |MembersText(ms)|)
    ensures ReadFields(js, toks, i, MemberCount(ms), cmd) == Fields(Fill(ms, cmd), i + |MemberToks(ms, p)|)
    decreases ms
  {
    hide *;
    if ms.NoMembers? {
      NothingToFill(js, toks, i, ms, p, cmd);
    } else {
      SplitMember(js, p, ms);
      BehindFirstMember(toks, i, ms, p);
      RestOk(ms);
      MemberIsRead(js, toks, i, ms, p, cmd);
      FillUnfolds(ms, cmd);
      var j := i + 1 + |ValueToks(ms.v, ValueAt(ms, p))|;
      HereBound(toks, i + 1, ValueToks(ms.v, ValueAt(ms, p)));
      MembersAreRead(js, toks, j, ms.rest, BehindMember(ms, p), FillOne(PiecesText(ms.key), ms.v, cmd));
      ReadOne(js, toks, i, ms, cmd);
    }
  }

  lemma NothingToFill(js: string, toks: seq<Token>, i: nat, ms: Members, p: nat, cmd: Read)
    requires TokensIn(js, toks) && ms.NoMembers? && i <= |toks|
    ensures ReadFields(js, toks, i, MemberCount(ms), cmd) == Fields(Fill(ms, cmd), i + |MemberToks(ms, p)|)
  {
    hide TokenIn;
  }

  lemma RestOk(ms: Members)
    requires ms.Member? && MembersOk(ms)
    ensures MembersOk(ms.rest) && ValueOk(ms.v)
  {
  }

  lemma ReadOne(js: string, toks: seq<Token>, i: nat, ms: Members, cmd: Read)
    requires TokensIn(js, toks) && i <= |toks| && ms.Member? && ReadField(js, toks, i, cmd).Fields?
    ensures var f := ReadField(js, toks, i, cmd);
            ReadFields(js, toks, i, MemberCount(ms), cmd) == ReadFields(js, toks, f.next, MemberCount(ms.rest), f.cmd)
  {
    hide ReadField, TokenIn;
  }

  lemma DictIsRead(js: string, toks: seq<Token>, i: nat, v: Value, p: nat)
    requires TokensIn(js, toks) && v.Dict? && ValueOk(v) && Lies(js, p, ValueText(v))
    requires Here(toks, i, ValueToks(v, p)) && Behind(toks, i + |ValueToks(v, p)|, p + |ValueText(v)|)
    ensures i + 1 <= |toks|
    ensures ReadFields(js, toks, i + 1, MemberCount(v.members), Blank) ==
      Fields(Fill(v.members, Blank), i + |ValueToks(v, p)|)
  {
    hide Lies, Here, MemberToks, MembersText, ReadFields, Fill;
    var a := [ValueToks(v, p)[0]];
    assert ValueToks(v, p) == a + MemberToks(v.members, p + 1);
    HereSplit(toks, i, a, MemberToks(v.members, p + 1));
    LiesSplit(js, p, "{" + MembersText(v.members), "}");
    LiesSplit(js, p, "{", MembersText(v.members));
    HereBound(toks, i, ValueToks(v, p));
    MembersAreRead(js, toks, i + 1, v.members, p + 1, Blank);
  }

  /** The elements of the outermost array. */
  lemma {:induction false} ItemsAreRead(js: string, toks: seq<Token>, i: nat, items: Items, p: nat)
    requires TokensIn(js, toks) && ItemsOk(items) && Lies(js, p, ItemsText(items))
    requires Here(toks, i, ItemToks(items, p)) && i + |ItemToks(items, p)| == |toks|
    ensures i <= |toks| && ReadCommands(js, toks, true, i) == Parsed(CommandsOf(items))
    decreases items
  {
    hide *;
    if items.NoItems? {
      NothingIsRead(js, toks, i, items, p);
    } else {
      EndIsBehind(toks, i + |ItemToks(items, p)|, p + |ItemsText(items)|);
      BehindFirst(toks, i, items, p);
      var q := p + |items.before|;
      ElementIsRead(js, toks, i, items, p, q);
      ItemsAreRead(js, toks, i + |ValueToks(items.v, q)|, items.rest, BehindItem(items, p));
      ReadElement(js, toks, i, items, i + |ValueToks(items.v, q)|);
    }
  }

  lemma NothingIsRead(js: string, toks: seq<Token>, i: nat, items: Items, p: nat)
    requires TokensIn(js, toks) && items.NoItems? && i + |ItemToks(items, p)| == |toks|
    ensures i <= |toks| && ReadCommands(js, toks, true, i) == Parsed(CommandsOf(items))
  {
    hide TokenIn;
  }

  lemma EndIsBehind(toks: seq<Token>, j: nat, q: nat)
    requires j == |toks|
    ensures Behind(toks, j, q)
  {
  }

  /** One element. */
  lemma ElementIsRead(js: string, toks: seq<Token>, i: nat, items: Items, p: nat, q: nat)
    requires TokensIn(js, toks) && items.Item? && ItemsOk(items) && Lies(js, p, ItemsText(items))
    requires q == p + |items.before|
    requires Here(toks, i, ValueToks(items.v, q)) && Behind(toks, i + |ValueToks(items.v, q)|, q + |ValueText(items.v)|)
    ensures ItemsOk(items.rest) && Lies(js, BehindItem(items, p), ItemsText(items.rest))
    ensures i < |toks| && (toks[i].kind == Object <==> items.v.Dict?) && Skip(toks, i) == i + |ValueToks(items.v, q)|
    ensures items.v.Dict? ==>
      ReadFields(js, toks, i + 1, toks[i].size, Blank) == Fields(Fill(items.v.members, Blank), Skip(toks, i))
  {
    hide Lies, Here, ValueToks, ValueText, ItemsText, ReadFields, Skip, Fill, Behind;
    SplitItem(js, p, items);
    SkipValue(toks, i, items.v, q);
    HereFirst(toks, i, ValueToks(items.v, q));
    ValueKinds(items.v, q);
    if items.v.Dict? { DictIsRead(js, toks, i, items.v, q); }
  }

  lemma ReadElement(js: string, toks: seq<Token>, i: nat, items: Items, next: nat)
    requires TokensIn(js, toks) && items.Item? && i < |toks| && next <= |toks|
    requires (toks[i].kind == Object <==> items.v.Dict?) && Skip(toks, i) == next
    requires items.v.Dict? ==>
      ReadFields(js, toks, i + 1, toks[i].size, Blank) == Fields(Fill(items.v.members, Blank), next)
    requires ReadCommands(js, toks, true, next) == Parsed(CommandsOf(items.rest))
    ensures ReadCommands(js, toks, true, i) == Parsed(CommandsOf(items))
  {
    hide ReadFields, Fill, Skip, TokenIn;
    assert [] + CommandsOf(items.rest) == CommandsOf(items.rest);
  }

  /** Any JSON array, whatever it holds and however it is laid out, is read to its end: one command for each object in
      it, made of the last members named `directory`, `file` and `arguments`. */
  lemma JsonIsRead(before: string, items: Items, after: string, js: string)
    requires BlankOk(before) && ItemsOk(items) && BlankOk(after) && js == JsonText(before, List(items), after)
    ensures ReadDocument(js) == Parsed(CommandsOf(items))
  {
    var v, p := List(items), |before|;
    TextParses(before, v, after, js);
    TextSplits(before, v, after, js);
    hide Lies, ItemsText, ItemToks, Parse, CountPass, ParseEnd, ReadCommands, TokensIn, CommandsOf;
    var toks := ValueToks(v, p);
    assert Left(js) == toks;
    DocumentIs(js, toks);
    LiesSplit(js, p, "[" + ItemsText(items), "]");
    LiesSplit(js, p, "[", ItemsText(items));
    assert toks == [toks[0]] + ItemToks(items, p + 1);
    WholeIsHere(toks);
    HereSplit(toks, 0, [toks[0]], ItemToks(items, p + 1));
    ItemsAreRead(js, toks, 1, items, p + 1);
  }

  lemma WholeIsHere(toks: seq<Token>)
    ensures Here(toks, 0, toks)
  {
  }

  lemma DocumentIs(js: string, toks: seq<Token>)
    requires Left(js) == toks && toks != [] && toks[0].kind == Array && CountPass(js, 0, 0) == |toks|
    ensures TokensIn(js, toks) && ReadDocument(js) == ReadCommands(js, toks, true, 1)
  {
    LeftIn(js);
    hide CountPass, ParseEnd, ReadCommands, TokensIn;
  }

  /** Any other JSON value is refused. */
  lemma OtherJsonIsRefused(before: string, v: Value, after: string, js: string)
    requires BlankOk(before) && ValueOk(v) && BlankOk(after) && js == JsonText(before, v, after) && !v.List?
    ensures ReadDocument(js) == Failed
  {
    TextParses(before, v, after, js);
    ValueKinds(v, |before|);
    hide ValueToks, Parse, CountPass, ParseEnd, ReadCommands;
    var toks := ValueToks(v, |before|);
    assert Left(js) == toks;
  }
}
