/** When the compile-commands reader stays within the tokens it has: the exact condition, on all texts. */
module Definedness {
  import opened Tokens
  import opened JsmnParser
  import opened TokenTree
  import opened Siblings
  import opened CommandText
  import opened CompileCommands

  // ---- The condition: counting what can be taken ----

  /** The place behind `n` tokens that are stepped over. */
  function Hop(toks: seq<Token>, i: nat, n: nat): (r: nat)
    requires i <= |toks| && n <= ClosedRun(toks, i)
    ensures i <= r <= |toks|
    decreases n
  {
    if n == 0 then i else Hop(toks, Skip(toks, i), n - 1)
  }

  /** Token `i` is followed by another, and that can be taken as its value: as a string it must be closed, as a list
      of arguments it must count closed tokens only. */
  predicate HasValue(js: string, toks: seq<Token>, i: nat)
    requires TokensIn(js, toks)
  {
    && i + 1 < |toks|
    && (IsKey(js, toks[i], "directory") || IsKey(js, toks[i], "file") ==> !IsOpen(toks[i + 1]))
    && (IsKey(js, toks[i], "arguments") && toks[i + 1].kind == Array ==> toks[i + 1].size <= ClosedRun(toks, i + 2))
  }

  function BehindValue(js: string, toks: seq<Token>, i: nat): (r: nat)
    requires TokensIn(js, toks) && HasValue(js, toks, i)
    ensures i + 1 < r <= |toks|
  {
    if IsKey(js, toks[i], "arguments") && toks[i + 1].kind == Array then Hop(toks, i + 2, toks[i + 1].size)
    else Skip(toks, i + 1)
  }

  /** How many keys with values there are to take from token `i` on. */
  function Pairs(js: string, toks: seq<Token>, i: nat): nat
    requires TokensIn(js, toks) && i <= |toks|
    decreases |toks| - i
  {
    if !HasValue(js, toks, i) then 0 else 1 + Pairs(js, toks, BehindValue(js, toks, i))
  }

  function BehindPairs(js: string, toks: seq<Token>, i: nat, k: nat): (r: nat)
    requires TokensIn(js, toks) && i <= |toks| && k <= Pairs(js, toks, i)
    ensures i <= r <= |toks|
    decreases k
  {
    if k == 0 then i else BehindPairs(js, toks, BehindValue(js, toks, i), k - 1)
  }

  /** From element `i` on, no object counts more keys than there are pairs to take behind it. */
  predicate NoObjectShort(js: string, toks: seq<Token>, i: nat)
    requires TokensIn(js, toks) && i <= |toks|
    decreases |toks| - i
  {
    if i == |toks| then true
    else if toks[i].kind != Object then NoObjectShort(js, toks, Skip(toks, i))
    else
      && toks[i].size <= Pairs(js, toks, i + 1)
      && NoObjectShort(js, toks, BehindPairs(js, toks, i + 1, toks[i].size))
  }

  // ---- The condition is exact ----

  lemma {:induction false} ArgsTakenIff(js: string, toks: seq<Token>, i: nat, n: nat)
    requires TokensIn(js, toks) && i <= |toks|
    ensures ReadArgs(js, toks, i, n).Taken? <==> n <= ClosedRun(toks, i)
    ensures n <= ClosedRun(toks, i) ==> ReadArgs(js, toks, i, n).next == Hop(toks, i, n)
    decreases n
  {
    hide Skip, Unescape, TokenIn;
    if n > 0 && i < |toks| && !IsOpen(toks[i]) { ArgsTakenIff(js, toks, Skip(toks, i), n - 1); }
  }

  lemma FieldReadIff(js: string, toks: seq<Token>, i: nat, cmd: Read)
    requires TokensIn(js, toks) && i <= |toks|
    ensures ReadField(js, toks, i, cmd).Fields? <==> HasValue(js, toks, i)
    ensures HasValue(js, toks, i) ==> ReadField(js, toks, i, cmd).next == BehindValue(js, toks, i)
  {
    hide Skip, Unescape, ReadArgs, ClosedRun, Hop;
    if i + 1 < |toks| { ArgsTakenIff(js, toks, i + 2, toks[i + 1].size); }
    OneKey(js, toks, i);
  }

  lemma OneKey(js: string, toks: seq<Token>, i: nat)
    requires TokensIn(js, toks)
    ensures i < |toks| && IsKey(js, toks[i], "arguments") ==>
        !IsKey(js, toks[i], "directory") && !IsKey(js, toks[i], "file")
  {
    if i < |toks| && IsKey(js, toks[i], "arguments") {
      assert Text(js, toks[i])[0] == 'a';
    }
  }

  lemma {:induction false} FieldsReadIff(js: string, toks: seq<Token>, i: nat, k: nat, cmd: Read)
    requires TokensIn(js, toks) && i <= |toks|
    ensures ReadFields(js, toks, i, k, cmd).Fields? <==> k <= Pairs(js, toks, i)
    ensures k <= Pairs(js, toks, i) ==> ReadFields(js, toks, i, k, cmd).next == BehindPairs(js, toks, i, k)
    decreases k
  {
    hide ReadField, HasValue, BehindValue, TokenIn;
    FieldReadIff(js, toks, i, cmd);
    var f := ReadField(js, toks, i, cmd);
    if k > 0 && f.Fields? { FieldsReadIff(js, toks, f.next, k - 1, f.cmd); }
  }

  lemma {:induction false} CommandsReadIff(js: string, toks: seq<Token>, filled: bool, i: nat)
    requires TokensIn(js, toks) && i <= |toks|
    ensures ReadCommands(js, toks, filled, i) != Undefined <==> filled && NoObjectShort(js, toks, i)
    ensures ReadCommands(js, toks, filled, i) != Failed
    decreases |toks| - i
  {
    hide ReadFields, Pairs, BehindPairs, TokenIn, Skip;
    if i < |toks| {
      if toks[i].kind != Object {
        CommandsReadIff(js, toks, filled, Skip(toks, i));
      } else {
        FieldsReadIff(js, toks, i + 1, toks[i].size, Blank);
        var f := ReadFields(js, toks, i + 1, toks[i].size, Blank);
        if f.Fields? { CommandsReadIff(js, toks, filled, f.next); }
      }
    }
  }

  /** The tokens that both passes leave to the walk. */
  function Left(js: string): seq<Token> {
    var n := CountPass(js, 0, 0);
    if n < 1 then [] else ParseEnd(js, Start, n).toks
  }

  lemma LeftIn(js: string)
    ensures TokensIn(js, Left(js))
  {
    if CountPass(js, 0, 0) >= 1 { EndTokensIn(js, CountPass(js, 0, 0)); }
  }

  /** On every text: the reader stays defined exactly if there is nothing to walk, or the filling pass has filled all
      that was counted and no object is short of pairs. */
  lemma DefinedIff(js: string)
    ensures TokensIn(js, Left(js))
    ensures ReadDocument(js) != Undefined <==>
              || CountPass(js, 0, 0) < 1
              || (Left(js) != [] && Left(js)[0].kind != Array)
              || (Left(js) != [] && |Left(js)| == CountPass(js, 0, 0) && NoObjectShort(js, Left(js), 1))
  {
    LeftIn(js);
    hide CountPass, ParseEnd, NoObjectShort, ReadCommands, TokensIn;
    if CountPass(js, 0, 0) >= 1 && Left(js) != [] {
      CommandsReadIff(js, Left(js), |Left(js)| == CountPass(js, 0, 0), 1);
    }
  }

  // ---- Consequences ----

  /** A bracket that does not match leaves tokens unfilled, and an array is then never read to its end. */
  lemma UnfilledIsUndefined(js: string)
    requires CountPass(js, 0, 0) >= 1 && |Left(js)| < CountPass(js, 0, 0)
    requires Left(js) == [] || Left(js)[0].kind == Array
    ensures ReadDocument(js) == Undefined
  {
    hide CountPass, ParseEnd, NoObjectShort;
    DefinedIff(js);
  }

  /** In a text whose brackets balance everything is closed, so that only the number of tokens matters. */
  lemma BalancedHasValue(js: string, i: nat)
    requires CountPass(js, 0, 0) >= 1 && Parse(js, Start, CountPass(js, 0, 0)).Next? && i < |Left(js)|
    ensures TokensIn(js, Left(js)) && (HasValue(js, Left(js), i) <==> i + 1 < |Left(js)|)
  {
    LeftIn(js);
    var n := CountPass(js, 0, 0);
    StartIsLaid();
    StartFits();
    EndFits(js, Start, [], n);
    EndIsLaid(js, Start, [], n);
    AllClosed(ParseEnd(js, Start, n), Parents(js, Start, [], n));
    hide CountPass, ParseEnd, Parse, TokensIn, Laid;
    var toks := Left(js);
    if i + 1 < |toks| {
      RunAndClosedRun(toks, i + 2);
      assert toks[i + 1].size <= Run(toks, i + 2);
    }
  }

  lemma StartFits()
    ensures Fits(Start)
  {
  }

  lemma AllClosed(m: Machine, parents: seq<int>)
    requires Laid(m, parents) && m.stack == []
    ensures forall j: nat | j < |m.toks| :: !IsOpen(m.toks[j])
  {
  }

  /** On every text, of the tokens that an array counts as its arguments all are there, and all but the last are
      closed. */
  lemma ArgumentsAreThere(js: string, v: nat)
    requires v < |Left(js)|
    ensures Left(js)[v].size <= Run(Left(js), v + 1) <= ClosedRun(Left(js), v + 1) + 1
  {
    var n := CountPass(js, 0, 0);
    if n >= 1 {
      StartIsLaid();
      StartFits();
      EndFits(js, Start, [], n);
    }
    hide CountPass, ParseEnd;
    RunAndClosedRun(Left(js), v + 1);
  }

  lemma SkipIsBehind(toks: seq<Token>, i: nat)
    requires i < |toks| && Skip(toks, i) < |toks|
    ensures toks[i].end <= toks[Skip(toks, i)].start
  {
    SkipFromIsBehind(toks, i + 1, toks[i].end);
  }

  lemma {:induction false} SkipFromIsBehind(toks: seq<Token>, next: nat, end: int)
    requires next <= |toks| && SkipFrom(toks, next, end) < |toks|
    ensures end <= toks[SkipFrom(toks, next, end)].start
    decreases |toks| - next
  {
    if next < |toks| && toks[next].start < end { SkipFromIsBehind(toks, next + 1, end); }
  }

  /** Why an open argument is out of bounds: its length is negative, and takes more from the measured room than the
      earlier arguments can have put into it, so that the second pass writes behind the buffer, or has none. */
  lemma {:induction false} OpenArgumentOverflows(js: string, toks: seq<Token>, i: nat, n: nat)
    requires TokensIn(js, toks) && i < |toks| && ReadArgs(js, toks, i, n).Taken?
    requires var c := ReadArgs(js, toks, i, n).next; c < |toks| && IsOpen(toks[c])
    ensures Room(toks, i, n + 1) + toks[i].start < |ReadArgs(js, toks, i, n).packed| + 1
    decreases n
  {
    hide Skip, Unescape;
    if n > 0 {
      var next := Skip(toks, i);
      assert next < |toks|;
      SkipIsBehind(toks, i);
      OpenArgumentOverflows(js, toks, next, n - 1);
    }
  }

  // ---- Documents in the shape of JSON ----

  /** From `i` to `stop` there are exactly `k` keys, each followed by one value. */
  predicate Splits(toks: seq<Token>, i: nat, stop: nat, k: nat)
    requires i <= |toks| && stop <= |toks|
    decreases k
  {
    if k == 0 then i == stop
    else i + 1 < stop && Skip(toks, i + 1) <= stop && Splits(toks, Skip(toks, i + 1), stop, k - 1)
  }

  /** From `i` to `stop` there are exactly `n` values. */
  predicate Items(toks: seq<Token>, i: nat, stop: nat, n: nat)
    requires i <= |toks| && stop <= |toks|
    decreases n
  {
    if n == 0 then i == stop
    else i < stop && Skip(toks, i) <= stop && Items(toks, Skip(toks, i), stop, n - 1)
  }

  /** Objects count their keys and hold a value for each, arrays count their values. */
  ghost predicate JsonShaped(toks: seq<Token>) {
    forall o: nat | o < |toks| ::
      && !IsOpen(toks[o])
      && (toks[o].kind == Object ==> Splits(toks, o + 1, Skip(toks, o), toks[o].size))
      && (toks[o].kind == Array ==> Items(toks, o + 1, Skip(toks, o), toks[o].size))
  }

  lemma {:induction false} ItemsHop(toks: seq<Token>, i: nat, stop: nat, n: nat)
    requires i <= |toks| && stop <= |toks| && Items(toks, i, stop, n)
    requires forall o: nat | o < |toks| :: !IsOpen(toks[o])
    ensures n <= ClosedRun(toks, i) && Hop(toks, i, n) == stop
    decreases n
  {
    hide Skip;
    if n > 0 { ItemsHop(toks, Skip(toks, i), stop, n - 1); }
  }

  lemma {:induction false} SplitsPairs(js: string, toks: seq<Token>, i: nat, stop: nat, k: nat)
    requires TokensIn(js, toks) && JsonShaped(toks) && i <= |toks| && stop <= |toks| && Splits(toks, i, stop, k)
    ensures k <= Pairs(js, toks, i) && BehindPairs(js, toks, i, k) == stop
    decreases k
  {
    hide Skip, ClosedRun, TokenIn, IsKey;
    if k > 0 {
      if toks[i + 1].kind == Array { ItemsHop(toks, i + 2, Skip(toks, i + 1), toks[i + 1].size); }
      SplitsPairs(js, toks, Skip(toks, i + 1), stop, k - 1);
    }
  }

  /** The objects among the elements from `i` on. */
  function Objects(toks: seq<Token>, i: nat): nat
    requires i <= |toks|
    decreases |toks| - i
  {
    if i == |toks| then 0 else (if toks[i].kind == Object then 1 else 0) + Objects(toks, Skip(toks, i))
  }

  lemma {:induction false} ShapedCommands(js: string, toks: seq<Token>, i: nat)
    requires TokensIn(js, toks) && JsonShaped(toks) && i <= |toks|
    ensures var r := ReadCommands(js, toks, true, i); r.Parsed? && |r.cmds| == Objects(toks, i)
    decreases |toks| - i
  {
    hide Skip, ReadFields, Pairs, BehindPairs, TokenIn, Splits, Items;
    if i < |toks| {
      ShapedCommands(js, toks, Skip(toks, i));
      if toks[i].kind == Object {
        SplitsPairs(js, toks, i + 1, Skip(toks, i), toks[i].size);
        FieldsReadIff(js, toks, i + 1, toks[i].size, Blank);
      }
    }
  }

  /** A document in the shape of JSON is read to its end, one command for each object in the array. */
  lemma ShapedIsRead(js: string)
    requires CountPass(js, 0, 0) >= 1 && Parse(js, Start, CountPass(js, 0, 0)).Next?
    requires Left(js) != [] && Left(js)[0].kind == Array && JsonShaped(Left(js))
    ensures var r := ReadDocument(js); r.Parsed? && |r.cmds| == Objects(Left(js), 1)
  {
    SizingIsExact(js, Start, CountPass(js, 0, 0));
    LeftIn(js);
    hide CountPass, ParseEnd, Parse, JsonShaped, ReadCommands, TokensIn;
    ShapedCommands(js, Left(js), 1);
  }
}
