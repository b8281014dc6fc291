/** What the compile-commands reader takes from an object: of each of its three keys the last one counts, whatever other
    keys there are and in whatever order. */
module CommandFields {
  import opened Basics
  import opened Tokens
  import opened JsmnParser
  import opened TokenTree
  import opened Siblings
  import opened CommandText
  import opened CompileCommands
  import opened Definedness

  /** The `j`-th key from token `i` on, where each key is followed by one value. */
  function KeyAt(toks: seq<Token>, i: nat, j: nat): (k: nat)
    requires i <= |toks|
    ensures i <= k <= |toks|
    decreases j
  {
    if j == 0 || i + 1 >= |toks| then i else KeyAt(toks, Skip(toks, i + 1), j - 1)
  }

  /** Token `k` is the string `name`, and has a value behind it. */
  predicate Named(js: string, toks: seq<Token>, k: nat, name: string)
    requires TokensIn(js, toks)
  {
    && k + 1 < |toks| && toks[k].kind == Str
    && toks[k].start <= toks[k].end <= |js| && js[toks[k].start..toks[k].end] == name
  }

  /** It is a key that the reader takes for `name`: a list of arguments must be an array. */
  predicate Chosen(js: string, toks: seq<Token>, k: nat, name: string)
    requires TokensIn(js, toks)
  {
    Named(js, toks, k, name) && (name == "arguments" ==> toks[k + 1].kind == Array)
  }

  /** The last such key among `n` from token `i` on. */
  function Last(js: string, toks: seq<Token>, i: nat, n: nat, name: string): Option<nat>
    requires TokensIn(js, toks) && i <= |toks|
    decreases n
  {
    if n == 0 || i + 1 >= |toks| then None
    else
      var later := Last(js, toks, Skip(toks, i + 1), n - 1, name);
      if later.Some? then later else if Chosen(js, toks, i, name) then Some(i) else None
  }

  lemma KeyAtNext(toks: seq<Token>, i: nat, j: nat)
    requires i + 1 < |toks| && j > 0
    ensures KeyAt(toks, i, j) == KeyAt(toks, Skip(toks, i + 1), j - 1)
  {
  }

  lemma NoKeyAt(js: string, toks: seq<Token>, i: nat, j: nat, name: string)
    requires TokensIn(js, toks) && i <= |toks| && i + 1 >= |toks|
    ensures !Chosen(js, toks, KeyAt(toks, i, j), name)
  {
  }

  /** No key among the `n` is meant. */
  ghost predicate NoneChosen(js: string, toks: seq<Token>, i: nat, n: nat, name: string)
    requires TokensIn(js, toks) && i <= |toks|
  {
    forall j: nat | j < n :: !Chosen(js, toks, KeyAt(toks, i, j), name)
  }

  /** The `j`-th key is meant, and no later one is. */
  ghost predicate LastChosen(js: string, toks: seq<Token>, i: nat, n: nat, name: string, j: nat)
    requires TokensIn(js, toks) && i <= |toks|
  {
    && j < n && Chosen(js, toks, KeyAt(toks, i, j), name)
    && forall l: nat | j < l < n :: !Chosen(js, toks, KeyAt(toks, i, l), name)
  }

  lemma {:induction false} LastOfNone(js: string, toks: seq<Token>, i: nat, n: nat, name: string)
    requires TokensIn(js, toks) && i <= |toks| && NoneChosen(js, toks, i, n, name)
    ensures Last(js, toks, i, n, name) == None
    decreases n
  {
    hide Skip, Chosen, TokenIn;
    if n > 0 && i + 1 < |toks| {
      assert KeyAt(toks, i, 0) == i;
      var next := Skip(toks, i + 1);
      forall j: nat | j < n - 1
        ensures !Chosen(js, toks, KeyAt(toks, next, j), name)
      {
        KeyAtNext(toks, i, j + 1);
      }
      LastOfNone(js, toks, next, n - 1, name);
    }
  }

  lemma {:induction false} LastIsLast(js: string, toks: seq<Token>, i: nat, n: nat, name: string, j: nat)
    requires TokensIn(js, toks) && i <= |toks| && LastChosen(js, toks, i, n, name, j)
    ensures Last(js, toks, i, n, name) == Some(KeyAt(toks, i, j))
    decreases n
  {
    hide Skip, Chosen, TokenIn;
    if i + 1 >= |toks| {
      NoKeyAt(js, toks, i, j, name);
    } else {
      forall l: nat | j <= l < n && l > 0
        ensures KeyAt(toks, i, l) == KeyAt(toks, Skip(toks, i + 1), l - 1)
      {
        KeyAtNext(toks, i, l);
      }
      LaterKeys(js, toks, i, n, name, j);
      if j == 0 {
        LastOfNone(js, toks, Skip(toks, i + 1), n - 1, name);
      } else {
        LastIsLast(js, toks, Skip(toks, i + 1), n - 1, name, j - 1);
      }
    }
  }

  lemma LaterKeys(js: string, toks: seq<Token>, i: nat, n: nat, name: string, j: nat)
    requires TokensIn(js, toks) && i + 1 < |toks| && LastChosen(js, toks, i, n, name, j)
    requires forall l: nat | j <= l < n && l > 0 :: KeyAt(toks, i, l) == KeyAt(toks, Skip(toks, i + 1), l - 1)
    ensures j == 0 ==> NoneChosen(js, toks, Skip(toks, i + 1), n - 1, name)
    ensures j > 0 ==> LastChosen(js, toks, Skip(toks, i + 1), n - 1, name, j - 1)
  {
    hide Skip, Chosen, TokenIn, KeyAt;
    var next := Skip(toks, i + 1);
    forall l: nat | j <= l < n - 1
      ensures !Chosen(js, toks, KeyAt(toks, next, l), name)
    {
      assert KeyAt(toks, i, l + 1) == KeyAt(toks, next, l);
    }
  }

  // ---- What is read ----

  /** The unescaped text of a token that is there. */
  function ValueText(js: string, toks: seq<Token>, k: nat): string
    requires TokensIn(js, toks)
  {
    if k < |toks| && toks[k].start <= toks[k].end then Unescape(js[toks[k].start..toks[k].end]) else ""
  }

  /** `n` values from token `i` on, each unescaped and ended by a NUL. */
  function PackedFrom(js: string, toks: seq<Token>, i: nat, n: nat): string
    requires TokensIn(js, toks) && i <= |toks|
    decreases n
  {
    if n == 0 || i == |toks| then "" else ValueText(js, toks, i) + "\0" + PackedFrom(js, toks, Skip(toks, i), n - 1)
  }

  function TextOr(js: string, toks: seq<Token>, key: Option<nat>, other: string): string
    requires TokensIn(js, toks)
  {
    if key.Some? then ValueText(js, toks, key.value + 1) else other
  }

  /** The fields that keys `directory`, `file` and `arguments`, if there are any, leave of `cmd`. */
  function Taking(js: string, toks: seq<Token>, d: Option<nat>, f: Option<nat>, a: Option<nat>, cmd: Read): Read
    requires TokensIn(js, toks) && (a.Some? ==> a.value + 2 <= |toks|)
  {
    Read(
      TextOr(js, toks, d, cmd.directory),
      TextOr(js, toks, f, cmd.file),
      if a.Some? then toks[a.value + 1].size else cmd.numArgs,
      if a.Some? then PackedFrom(js, toks, a.value + 2, toks[a.value + 1].size) else cmd.packed)
  }

  lemma {:induction false} ArgsArePacked(js: string, toks: seq<Token>, i: nat, n: nat)
    requires TokensIn(js, toks) && i <= |toks| && ReadArgs(js, toks, i, n).Taken?
    ensures ReadArgs(js, toks, i, n).packed == PackedFrom(js, toks, i, n)
    decreases n
  {
    hide Skip, Unescape;
    if n > 0 { ArgsArePacked(js, toks, Skip(toks, i), n - 1); }
  }

  ghost function KeyHere(js: string, toks: seq<Token>, i: nat, name: string): Option<nat>
    requires TokensIn(js, toks)
  {
    if Chosen(js, toks, i, name) then Some(i) else None
  }

  /** One pair. */
  lemma FieldTakes(js: string, toks: seq<Token>, i: nat, cmd: Read)
    requires TokensIn(js, toks) && JsonShaped(toks) && i + 1 < |toks| && ReadField(js, toks, i, cmd).Fields?
    ensures KeyHere(js, toks, i, "arguments").Some? ==> KeyHere(js, toks, i, "arguments").value + 2 <= |toks|
    ensures ReadField(js, toks, i, cmd).cmd ==
      Taking(js, toks, KeyHere(js, toks, i, "directory"), KeyHere(js, toks, i, "file"),
             KeyHere(js, toks, i, "arguments"), cmd)
  {
    hide Skip, Unescape, ReadArgs, PackedFrom, Splits, Items;
    DistinctNames();
    var args := ReadArgs(js, toks, i + 2, toks[i + 1].size);
    if IsKey(js, toks[i], "arguments") && toks[i + 1].kind == Array && args.Taken? {
      ArgsArePacked(js, toks, i + 2, toks[i + 1].size);
    }
  }

  lemma DistinctNames()
    ensures "directory" != "file" && "directory" != "arguments" && "file" != "arguments"
  {
    assert "directory"[0] == 'd' && "file"[0] == 'f' && "arguments"[0] == 'a';
  }

  lemma LastBound(js: string, toks: seq<Token>, i: nat, n: nat, name: string)
    requires TokensIn(js, toks) && i <= |toks|
    ensures Last(js, toks, i, n, name).Some? ==> Last(js, toks, i, n, name).value + 2 <= |toks|
    decreases n
  {
    hide Skip, TokenIn;
    if n > 0 && i + 1 < |toks| { LastBound(js, toks, Skip(toks, i + 1), n - 1, name); }
  }

  /** All pairs of an object. */
  lemma {:induction false} FieldsTake(js: string, toks: seq<Token>, i: nat, stop: nat, n: nat, cmd: Read)
    requires TokensIn(js, toks) && JsonShaped(toks) && i <= |toks| && stop <= |toks| && Splits(toks, i, stop, n)
    ensures ReadFields(js, toks, i, n, cmd).Fields?
    ensures Last(js, toks, i, n, "arguments").Some? ==> Last(js, toks, i, n, "arguments").value + 2 <= |toks|
    ensures ReadFields(js, toks, i, n, cmd).cmd ==
      Taking(js, toks, Last(js, toks, i, n, "directory"), Last(js, toks, i, n, "file"),
             Last(js, toks, i, n, "arguments"), cmd)
    decreases n
  {
    hide TokenIn, Skip, ReadField, Pairs, JsonShaped, KeyHere, Taking, Or, Last, Splits;
    SplitsPairs(js, toks, i, stop, n);
    FieldsReadIff(js, toks, i, n, cmd);
    LastBound(js, toks, i, n, "arguments");
    if n == 0 {
      NoKeys(js, toks, i);
      NothingTaken(js, toks, cmd);
    } else {
      PairStep(js, toks, i, stop, n, cmd);
      var f := ReadField(js, toks, i, cmd);
      FieldTakes(js, toks, i, cmd);
      FieldsTake(js, toks, Skip(toks, i + 1), stop, n - 1, f.cmd);
      LastStep(js, toks, i, n, "directory");
      LastStep(js, toks, i, n, "file");
      LastStep(js, toks, i, n, "arguments");
      LastBound(js, toks, Skip(toks, i + 1), n - 1, "arguments");
      TakingTwice(js, toks, KeyHere(js, toks, i, "directory"), KeyHere(js, toks, i, "file"),
                  KeyHere(js, toks, i, "arguments"), Last(js, toks, Skip(toks, i + 1), n - 1, "directory"),
                  Last(js, toks, Skip(toks, i + 1), n - 1, "file"),
                  Last(js, toks, Skip(toks, i + 1), n - 1, "arguments"), cmd);
    }
  }

  function Or(later: Option<nat>, here: Option<nat>): Option<nat> { if later.Some? then later else here }

  lemma LastStep(js: string, toks: seq<Token>, i: nat, n: nat, name: string)
    requires TokensIn(js, toks) && n > 0 && i + 1 < |toks|
    ensures Last(js, toks, i, n, name) == Or(Last(js, toks, Skip(toks, i + 1), n - 1, name), KeyHere(js, toks, i, name))
  {
    hide TokenIn, Skip, Chosen;
  }

  lemma NoKeys(js: string, toks: seq<Token>, i: nat)
    requires TokensIn(js, toks) && i <= |toks|
    ensures forall name: string :: Last(js, toks, i, 0, name) == None
  {
  }

  lemma NothingTaken(js: string, toks: seq<Token>, cmd: Read)
    requires TokensIn(js, toks)
    ensures Taking(js, toks, None, None, None, cmd) == cmd
  {
  }

  lemma TakingTwice(js: string, toks: seq<Token>, d: Option<nat>, f: Option<nat>, a: Option<nat>,
                    d': Option<nat>, f': Option<nat>, a': Option<nat>, cmd: Read)
    requires TokensIn(js, toks) && (a.Some? ==> a.value + 2 <= |toks|) && (a'.Some? ==> a'.value + 2 <= |toks|)
    ensures Taking(js, toks, d', f', a', Taking(js, toks, d, f, a, cmd)) ==
      Taking(js, toks, Or(d', d), Or(f', f), Or(a', a), cmd)
  {
    hide TokenIn, ValueText, PackedFrom;
  }

  /** In a document of that shape the reader steps over exactly the value. */
  lemma PairStep(js: string, toks: seq<Token>, i: nat, stop: nat, n: nat, cmd: Read)
    requires TokensIn(js, toks) && JsonShaped(toks) && i <= |toks| && stop <= |toks| && n > 0
    requires Splits(toks, i, stop, n)
    ensures i + 1 < |toks| && ReadField(js, toks, i, cmd).Fields?
    ensures ReadField(js, toks, i, cmd).next == Skip(toks, i + 1)
    ensures Splits(toks, Skip(toks, i + 1), stop, n - 1)
  {
    hide Skip, ClosedRun, TokenIn, IsKey, ReadField, Hop;
    if toks[i + 1].kind == Array { ItemsHop(toks, i + 2, Skip(toks, i + 1), toks[i + 1].size); }
    FieldReadIff(js, toks, i, cmd);
  }

  // ---- The objects of a document ----

  /** The `c`-th object among the elements from `i` on. */
  function ObjectAt(toks: seq<Token>, i: nat, c: nat): (o: nat)
    requires i <= |toks| && c < Objects(toks, i)
    ensures o < |toks| && toks[o].kind == Object
    decreases |toks| - i
  {
    if toks[i].kind != Object then ObjectAt(toks, Skip(toks, i), c)
    else if c == 0 then i
    else ObjectAt(toks, Skip(toks, i), c - 1)
  }

  lemma {:induction false} CommandTakes(js: string, toks: seq<Token>, i: nat, c: nat)
    requires TokensIn(js, toks) && JsonShaped(toks) && i <= |toks| && c < Objects(toks, i)
    ensures var r := ReadCommands(js, toks, true, i); r.Parsed? && |r.cmds| == Objects(toks, i)
    ensures ReadFields(js, toks, ObjectAt(toks, i, c) + 1, toks[ObjectAt(toks, i, c)].size, Blank).Fields?
    ensures ReadCommands(js, toks, true, i).cmds[c] ==
      ReadFields(js, toks, ObjectAt(toks, i, c) + 1, toks[ObjectAt(toks, i, c)].size, Blank).cmd
    decreases |toks| - i
  {
    hide Skip, ReadFields, TokenIn, Pairs, BehindPairs, Splits, Items;
    ShapedCommands(js, toks, i);
    if toks[i].kind != Object {
      CommandTakes(js, toks, Skip(toks, i), c);
    } else {
      SplitsPairs(js, toks, i + 1, Skip(toks, i), toks[i].size);
      FieldsReadIff(js, toks, i + 1, toks[i].size, Blank);
      if c > 0 { CommandTakes(js, toks, Skip(toks, i), c - 1); }
    }
  }

  /** What a command holds that was read from `n` pairs from token `i` on. */
  ghost predicate TakenFrom(js: string, toks: seq<Token>, i: nat, n: nat, cmd: Read)
    requires TokensIn(js, toks) && i <= |toks|
  {
    && (NoneChosen(js, toks, i, n, "directory") ==> cmd.directory == "")
    && (NoneChosen(js, toks, i, n, "file") ==> cmd.file == "")
    && (NoneChosen(js, toks, i, n, "arguments") ==> cmd.numArgs == 0 && cmd.packed == "")
    && forall j: nat | j < n ::
         && (LastChosen(js, toks, i, n, "directory", j) ==>
               cmd.directory == ValueText(js, toks, KeyAt(toks, i, j) + 1))
         && (LastChosen(js, toks, i, n, "file", j) ==>
               cmd.file == ValueText(js, toks, KeyAt(toks, i, j) + 1))
         && (LastChosen(js, toks, i, n, "arguments", j) ==>
               && KeyAt(toks, i, j) + 1 < |toks| && cmd.numArgs == toks[KeyAt(toks, i, j) + 1].size
               && cmd.packed == PackedFrom(js, toks, KeyAt(toks, i, j) + 2, cmd.numArgs))
  }

  lemma NamesTaken(js: string, toks: seq<Token>, i: nat, n: nat, cmd: Read)
    requires TokensIn(js, toks) && i <= |toks|
    requires Last(js, toks, i, n, "arguments").Some? ==> Last(js, toks, i, n, "arguments").value + 2 <= |toks|
    requires cmd == Taking(js, toks, Last(js, toks, i, n, "directory"), Last(js, toks, i, n, "file"),
                           Last(js, toks, i, n, "arguments"), Blank)
    ensures TakenFrom(js, toks, i, n, cmd)
  {
    hide Last, NoneChosen, LastChosen, ValueText, PackedFrom, TokenIn, KeyAt;
    NoneTaken(js, toks, i, n, "directory");
    NoneTaken(js, toks, i, n, "file");
    NoneTaken(js, toks, i, n, "arguments");
    forall j: nat | j < n
      ensures var k := Some(KeyAt(toks, i, j));
              && (LastChosen(js, toks, i, n, "directory", j) ==> Last(js, toks, i, n, "directory") == k)
              && (LastChosen(js, toks, i, n, "file", j) ==> Last(js, toks, i, n, "file") == k)
              && (LastChosen(js, toks, i, n, "arguments", j) ==> Last(js, toks, i, n, "arguments") == k)
    {
      OneTaken(js, toks, i, n, "directory", j);
      OneTaken(js, toks, i, n, "file", j);
      OneTaken(js, toks, i, n, "arguments", j);
    }
  }

  lemma NoneTaken(js: string, toks: seq<Token>, i: nat, n: nat, name: string)
    requires TokensIn(js, toks) && i <= |toks|
    ensures NoneChosen(js, toks, i, n, name) ==> Last(js, toks, i, n, name) == None
  {
    hide *;
    if NoneChosen(js, toks, i, n, name) { LastOfNone(js, toks, i, n, name); }
  }

  lemma OneTaken(js: string, toks: seq<Token>, i: nat, n: nat, name: string, j: nat)
    requires TokensIn(js, toks) && i <= |toks|
    ensures LastChosen(js, toks, i, n, name, j) ==> Last(js, toks, i, n, name) == Some(KeyAt(toks, i, j))
  {
    hide *;
    if LastChosen(js, toks, i, n, name, j) { LastIsLast(js, toks, i, n, name, j); }
  }

  lemma ObjectSplits(toks: seq<Token>, o: nat)
    requires JsonShaped(toks) && o < |toks| && toks[o].kind == Object
    ensures Splits(toks, o + 1, Skip(toks, o), toks[o].size)
  {
    hide Skip, Splits, Items;
  }

  lemma DocumentCommands(js: string)
    requires CountPass(js, 0, 0) >= 1 && |Left(js)| == CountPass(js, 0, 0) && Left(js)[0].kind == Array
    ensures TokensIn(js, Left(js)) && ReadDocument(js) == ReadCommands(js, Left(js), true, 1)
  {
    LeftIn(js);
    hide CountPass, ParseEnd, ReadCommands, TokensIn;
  }

  lemma AllFilled(js: string)
    requires CountPass(js, 0, 0) >= 1 && Parse(js, Start, CountPass(js, 0, 0)).Next?
    ensures |Left(js)| == CountPass(js, 0, 0)
  {
    SizingIsExact(js, Start, CountPass(js, 0, 0));
    hide CountPass, ParseEnd, Parse;
  }

  /** For every object of a document in the shape of JSON: a key that is missing leaves its field empty, and of a key
      that is there the last one counts; other keys, wherever they stand, change nothing. */
  lemma LastKeyCounts(js: string, c: nat)
    requires CountPass(js, 0, 0) >= 1 && Parse(js, Start, CountPass(js, 0, 0)).Next?
    requires Left(js) != [] && Left(js)[0].kind == Array && JsonShaped(Left(js)) && c < Objects(Left(js), 1)
    ensures TokensIn(js, Left(js))
    ensures ReadDocument(js).Parsed? && |ReadDocument(js).cmds| == Objects(Left(js), 1)
    ensures TakenFrom(js, Left(js), ObjectAt(Left(js), 1, c) + 1, Left(js)[ObjectAt(Left(js), 1, c)].size,
                      ReadDocument(js).cmds[c])
  {
    hide *;
    var toks := Left(js);
    LeftIn(js);
    AllFilled(js);
    DocumentCommands(js);
    CommandTakes(js, toks, 1, c);
    var o := ObjectAt(toks, 1, c);
    ObjectSplits(toks, o);
    FieldsTake(js, toks, o + 1, Skip(toks, o), toks[o].size, Blank);
    NamesTaken(js, toks, o + 1, toks[o].size, ReadDocument(js).cmds[c]);
  }
}
