/** Directory names made from compiler flags: sort, percent-encode, join. */
module Mangle {

  type Byte = b: int | 0 <= b < 256
  type Bytes = seq<Byte>

  // ---- The order of `slice_cmp` ----

  /** `memcmp` on the first `n` bytes. */
  function MemCmp(a: Bytes, b: Bytes, n: nat): int
    requires n <= |a| && n <= |b|
  {
    if n == 0 then 0 else if a[0] != b[0] then a[0] - b[0] else MemCmp(a[1..], b[1..], n - 1)
  }

  function SliceCmp(a: Bytes, b: Bytes): int {
    var minLen := if |a| < |b| then |a| else |b|;
    var res := MemCmp(a, b, minLen);
    if res == 0 then (if |a| > |b| then 1 else 0) - (if |a| < |b| then 1 else 0) else res
  }

  lemma SliceCmpUnfolds(a: Bytes, b: Bytes)
    ensures SliceCmp(a, b) ==
              if a == [] then (if b == [] then 0 else -1) else if b == [] then 1
              else if a[0] != b[0] then a[0] - b[0] else SliceCmp(a[1..], b[1..])
  {
  }

  /** Only equal slices compare equal, and swapping the slices turns the sign. */
  lemma {:induction false} SliceCmpIsAntisymmetric(a: Bytes, b: Bytes)
    ensures SliceCmp(a, b) == 0 <==> a == b
    ensures SliceCmp(a, b) < 0 <==> SliceCmp(b, a) > 0
    decreases |a|
  {
    hide SliceCmp;
    SliceCmpUnfolds(a, b);
    SliceCmpUnfolds(b, a);
    if a != [] && b != [] {
      SliceCmpIsAntisymmetric(a[1..], b[1..]);
      assert a == [a[0]] + a[1..] && b == [b[0]] + b[1..];
    }
  }

  lemma {:induction false} SliceCmpIsTransitive(a: Bytes, b: Bytes, c: Bytes)
    requires SliceCmp(a, b) <= 0 && SliceCmp(b, c) <= 0
    ensures SliceCmp(a, c) <= 0
    decreases |a|
  {
    hide SliceCmp;
    SliceCmpUnfolds(a, b);
    SliceCmpUnfolds(b, c);
    SliceCmpUnfolds(a, c);
    if a != [] && b != [] && c != [] && a[0] == b[0] == c[0] {
      SliceCmpIsTransitive(a[1..], b[1..], c[1..]);
    }
  }

  /** The slices agree up to `k`, and there `a` ends first or has the smaller byte. */
  ghost predicate SmallerAt(a: Bytes, b: Bytes, k: nat) {
    && k <= |a| && k < |b| && (forall i | 0 <= i < k :: a[i] == b[i])
    && (k < |a| ==> a[k] < b[k])
  }

  /** The order is the lexical one on bytes, prefixes first. */
  lemma {:induction false} SliceCmpIsLexical(a: Bytes, b: Bytes)
    ensures SliceCmp(a, b) < 0 <==> exists k: nat :: SmallerAt(a, b, k)
    decreases |a|
  {
    hide SliceCmp;
    SliceCmpUnfolds(a, b);
    if a == [] || b == [] || a[0] != b[0] {
      assert b != [] && (a != [] ==> a[0] < b[0]) ==> SmallerAt(a, b, 0);
    } else {
      SliceCmpIsLexical(a[1..], b[1..]);
      if k: nat :| SmallerAt(a[1..], b[1..], k) { SmallerBehind(a, b, k + 1); }
      if k: nat :| SmallerAt(a, b, k) { SmallerBehind(a, b, k); }
    }
  }

  lemma SmallerBehind(a: Bytes, b: Bytes, k: nat)
    requires a != [] && b != [] && a[0] == b[0]
    ensures SmallerAt(a, b, k) <==> k > 0 && SmallerAt(a[1..], b[1..], k - 1)
  {
    if k > 0 && SmallerAt(a[1..], b[1..], k - 1) {
      forall i | 0 <= i < k ensures a[i] == b[i] {
        if i > 0 { assert a[1..][i - 1] == b[1..][i - 1]; }
      }
    }
  }

  // ---- Sorting ----

  predicate Leq(a: Bytes, b: Bytes) { SliceCmp(a, b) <= 0 }

  ghost predicate Sorted(args: seq<Bytes>) {
    forall i, j | 0 <= i < j < |args| :: Leq(args[i], args[j])
  }

  function Insert(x: Bytes, args: seq<Bytes>): seq<Bytes> {
    if args == [] || Leq(x, args[0]) then [x] + args else [args[0]] + Insert(x, args[1..])
  }

  /** The sorted list; which algorithm makes it does not matter, by `SortedIsUnique`. */
  function Sort(args: seq<Bytes>): seq<Bytes> {
    if args == [] then [] else Insert(args[0], Sort(args[1..]))
  }

  lemma {:induction false} InsertInto(x: Bytes, args: seq<Bytes>)
    requires Sorted(args)
    ensures Sorted(Insert(x, args)) && multiset(Insert(x, args)) == multiset([x]) + multiset(args)
  {
    hide Leq;
    if args != [] {
      assert args == [args[0]] + args[1..];
      if Leq(x, args[0]) {
        forall k | 0 < k < |args| ensures Leq(x, args[k]) { LeqTransitive(x, args[0], args[k]); }
      } else {
        InsertInto(x, args[1..]);
        LeqTotal(x, args[0]);
        var r := Insert(x, args[1..]);
        forall k | 0 <= k < |r| ensures Leq(args[0], r[k]) {
          assert r[k] in multiset(r);
          if r[k] != x { assert r[k] in args[1..]; }
        }
      }
    }
  }

  lemma LeqTransitive(a: Bytes, b: Bytes, c: Bytes)
    requires Leq(a, b) && Leq(b, c)
    ensures Leq(a, c)
  {
    SliceCmpIsTransitive(a, b, c);
  }

  lemma LeqTotal(a: Bytes, b: Bytes)
    ensures Leq(a, b) || Leq(b, a)
    ensures Leq(a, b) && Leq(b, a) ==> a == b
    ensures Leq(a, a)
  {
    SliceCmpIsAntisymmetric(a, b);
    SliceCmpIsAntisymmetric(a, a);
  }

  lemma {:induction false} SortSorts(args: seq<Bytes>)
    ensures Sorted(Sort(args)) && multiset(Sort(args)) == multiset(args)
  {
    if args != [] {
      SortSorts(args[1..]);
      InsertInto(args[0], Sort(args[1..]));
      assert args == [args[0]] + args[1..];
    }
  }

  lemma SortKeepsLength(args: seq<Bytes>)
    ensures |Sort(args)| == |args|
  {
    SortSorts(args);
    assert |multiset(Sort(args))| == |multiset(args)|;
  }

  lemma {:induction false} SortedIsUnique(a: seq<Bytes>, b: seq<Bytes>)
    requires Sorted(a) && Sorted(b) && multiset(a) == multiset(b)
    ensures a == b
    decreases |a|
  {
    assert |a| == |multiset(a)| == |multiset(b)| == |b|;
    if a != [] {
      FirstIsLeast(a, b);
      FirstIsLeast(b, a);
      LeqTotal(a[0], b[0]);
      hide Leq;
      SameTails(a, b);
      SortedIsUnique(a[1..], b[1..]);
      assert a == [a[0]] + a[1..] && b == [b[0]] + b[1..];
    }
  }

  lemma SameTails(a: seq<Bytes>, b: seq<Bytes>)
    requires a != [] && b != [] && a[0] == b[0] && multiset(a) == multiset(b)
    ensures multiset(a[1..]) == multiset(b[1..])
  {
    assert a == [a[0]] + a[1..] && b == [b[0]] + b[1..];
    assert multiset(a[1..]) == multiset(a) - multiset{a[0]};
    assert multiset(b[1..]) == multiset(b) - multiset{b[0]};
  }

  lemma FirstIsLeast(a: seq<Bytes>, b: seq<Bytes>)
    requires Sorted(a) && a != [] && b != [] && multiset(a) == multiset(b)
    ensures Leq(a[0], b[0])
  {
    hide Leq;
    assert b[0] in multiset(b);
    var k :| 0 <= k < |a| && a[k] == b[0];
    LeqTotal(a[0], a[0]);
  }

  // ---- Encoding ----

  const Percent: Byte := 37
  const Underscore: Byte := 95

  predicate Safe(c: Byte) {
    97 <= c <= 122 || 65 <= c <= 90 || 48 <= c <= 57 || c == 46 || c == 45
  }

  function HexChar(v: Byte): (r: Byte)
    requires v < 16
  {
    if v < 10 then 48 + v else 65 + (v - 10)
  }

  /** One byte of a flag in the name. */
  function Unit(c: Byte): (r: Bytes)
    ensures 1 <= |r| <= 3
  {
    if Safe(c) then [c] else [Percent, HexChar(c / 16), HexChar(c % 16)]
  }

  function ByteUnits(a: Bytes): (r: seq<Bytes>)
    ensures |r| == |a|
  {
    if a == [] then [] else [Unit(a[0])] + ByteUnits(a[1..])
  }

  const Default: Bytes := [100, 101, 102, 97, 117, 108, 116]

  /** The pieces of a name that are written whole or not at all. */
  function Units(args: seq<Bytes>): seq<Bytes> {
    if args == [] then [Default] else JoinUnits(args)
  }

  function JoinUnits(args: seq<Bytes>): seq<Bytes> {
    if args == [] then []
    else ByteUnits(args[0]) + (if |args| > 1 then [[Underscore]] + JoinUnits(args[1..]) else [])
  }

  function Flatten(us: seq<Bytes>): Bytes {
    if us == [] then [] else us[0] + Flatten(us[1..])
  }

  /** The whole name, when there is room for it. */
  function FullName(args: seq<Bytes>): Bytes { Flatten(Units(Sort(args))) }

  lemma {:induction false} FlattenAppend(u: seq<Bytes>, v: seq<Bytes>)
    ensures Flatten(u + v) == Flatten(u) + Flatten(v)
  {
    if u == [] {
      assert u + v == v;
    } else {
      assert (u + v)[1..] == u[1..] + v;
      FlattenAppend(u[1..], v);
    }
  }

  // ---- Decoding: the names are unambiguous ----

  function HexValue(c: Byte): Byte {
    if 48 <= c <= 57 then c - 48 else if 65 <= c <= 70 then c - 55 else 0
  }

  /** The flags a name stands for; `current` is the flag being read. */
  function Decode(name: Bytes, current: Bytes): seq<Bytes> {
    if name == [] then [current]
    else if name[0] == Underscore then [current] + Decode(name[1..], [])
    else if name[0] == Percent && |name| >= 3 then
      Decode(name[3..], current + [(HexValue(name[1]) * 16 + HexValue(name[2])) % 256])
    else Decode(name[1..], current + [name[0]])
  }

  lemma DecodeUnit(c: Byte, rest: Bytes, current: Bytes)
    ensures Decode(Unit(c) + rest, current) == Decode(rest, current + [c])
  {
    var name := Unit(c) + rest;
    if Safe(c) {
      assert name[1..] == rest;
    } else {
      assert name[3..] == rest;
      assert HexValue(HexChar(c / 16)) == c / 16 && HexValue(HexChar(c % 16)) == c % 16;
    }
  }

  lemma {:induction false} DecodeFlag(a: Bytes, rest: Bytes, current: Bytes)
    ensures Decode(Flatten(ByteUnits(a)) + rest, current) == Decode(rest, current + a)
    decreases a
  {
    hide Unit, Decode;
    if a == [] {
      assert [] + rest == rest && current + a == current;
    } else {
      var more := Flatten(ByteUnits(a[1..])) + rest;
      assert Flatten(ByteUnits(a)) + rest == Unit(a[0]) + more;
      DecodeUnit(a[0], more, current);
      DecodeFlag(a[1..], rest, current + [a[0]]);
      assert current + [a[0]] + a[1..] == current + a;
    }
  }

  /** A name made from at least one flag can be decoded. */
  lemma {:induction false} DecodeJoined(args: seq<Bytes>)
    requires args != []
    ensures Decode(Flatten(JoinUnits(args)), []) == args
    decreases |args|
  {
    var units := ByteUnits(args[0]);
    var rest := if |args| > 1 then [[Underscore]] + JoinUnits(args[1..]) else [];
    FlattenAppend(units, rest);
    assert [] + args[0] == args[0];
    DecodeFlag(args[0], Flatten(rest), []);
    hide ByteUnits;
    if |args| > 1 {
      DecodeJoined(args[1..]);
      assert rest[1..] == JoinUnits(args[1..]);
      assert args == [args[0]] + args[1..];
      hide JoinUnits;
      DecodeSeparator(Flatten(JoinUnits(args[1..])), args[0]);
    } else {
      assert args == [args[0]];
    }
  }

  lemma DecodeSeparator(more: Bytes, current: Bytes)
    ensures Decode([Underscore] + more, current) == [current] + Decode(more, [])
  {
    assert ([Underscore] + more)[1..] == more;
  }

  lemma DefaultName()
    ensures FullName([]) == Default && FullName([Default]) == Default
    ensures Decode(Default, []) == [Default]
  {
    DefaultFlag();
    assert Sort([Default]) == [Default];
    assert JoinUnits([Default]) == ByteUnits(Default);
    DecodeFlag(Default, [], []);
    assert Default + [] == Default && [] + Default == Default;
    assert Flatten([Default]) == Default;
  }

  lemma {:induction false} SafeFlag(a: Bytes)
    requires forall k | 0 <= k < |a| :: Safe(a[k])
    ensures Flatten(ByteUnits(a)) == a
  {
    if a != [] {
      SafeFlag(a[1..]);
      assert a == [a[0]] + a[1..];
    }
  }

  lemma DefaultFlag()
    ensures Flatten(ByteUnits(Default)) == Default
  {
    SafeFlag(Default);
  }

  /** Two lists of flags have the same name exactly if they are permutations of each other, but for one clash:
      no flags at all, and the one flag `default`. */
  lemma SameNameIff(xs: seq<Bytes>, ys: seq<Bytes>)
    ensures FullName(xs) == FullName(ys) <==>
              multiset(xs) == multiset(ys) || (xs == [] && ys == [Default]) || (xs == [Default] && ys == [])
  {
    SortSorts(xs);
    SortSorts(ys);
    DefaultName();
    hide Sort, Decode, Flatten, JoinUnits, Sorted;
    if multiset(xs) == multiset(ys) { SortedIsUnique(Sort(xs), Sort(ys)); }
    if FullName(xs) == FullName(ys) {
      NameDetermines(xs);
      NameDetermines(ys);
    }
  }

  /** The sorted flags can be read off the name, except that `default` is read off the empty list's. */
  lemma NameDetermines(xs: seq<Bytes>)
    ensures Decode(FullName(xs), []) == if xs == [] then [Default] else Sort(xs)
  {
    SortSorts(xs);
    DefaultName();
    hide Decode, Flatten, JoinUnits;
    if xs != [] {
      assert |multiset(Sort(xs))| == |multiset(xs)|;
      assert Sort(xs) != [];
      DecodeJoined(Sort(xs));
    }
  }

  // ---- Truncation ----

  /** As many of the pieces as fit, in order. */
  function Fit(us: seq<Bytes>, room: nat): (r: Bytes)
    ensures |r| <= room
  {
    if us == [] || |us[0]| > room then [] else us[0] + Fit(us[1..], room - |us[0]|)
  }

  /** What is written into `cap` bytes. */
  function Name(args: seq<Bytes>, cap: nat): (r: Bytes)
    ensures |r| <= cap
  {
    Fit(Units(Sort(args)), cap)
  }

  /** A cut comes between two pieces, and no sooner than it must. */
  lemma {:induction false} FitIsMaximal(us: seq<Bytes>, room: nat) returns (k: nat)
    ensures k <= |us| && Fit(us, room) == Flatten(us[..k])
    ensures k < |us| ==> |Flatten(us[..k + 1])| > room
    decreases |us|
  {
    if us == [] || |us[0]| > room {
      k := 0;
      if us != [] { assert us[..1] == [us[0]]; }
    } else {
      var l := FitIsMaximal(us[1..], room - |us[0]|);
      k := l + 1;
      assert us[..k] == [us[0]] + us[1..][..l];
      if k < |us| { assert us[..k + 1] == [us[0]] + us[1..][..l + 1]; }
    }
  }

  lemma {:induction false} FlattenPrefix(us: seq<Bytes>, k: nat)
    requires k <= |us|
    ensures Flatten(us[..k]) <= Flatten(us)
  {
    assert us == us[..k] + us[k..];
    FlattenAppend(us[..k], us[k..]);
  }

  /** `name` is the first `k` pieces, all of them or so many that the next would not fit. */
  ghost predicate CutBetween(us: seq<Bytes>, k: int, cap: nat, name: Bytes) {
    0 <= k <= |us| && name == Flatten(us[..k]) && (k < |us| ==> |Flatten(us[..k + 1])| > cap)
  }

  /** The name with limited room is the full name if that fits; else it is a prefix of it that ends between two
      pieces, the next of which would not fit. */
  lemma NameIsPrefix(args: seq<Bytes>, cap: nat)
    ensures Name(args, cap) <= FullName(args)
    ensures |FullName(args)| <= cap ==> Name(args, cap) == FullName(args)
    ensures exists k :: CutBetween(Units(Sort(args)), k, cap, Name(args, cap))
  {
    var us := Units(Sort(args));
    var k := FitIsMaximal(us, cap);
    FlattenPrefix(us, k);
    if k < |us| { FlattenPrefix(us, k + 1); } else { assert us[..k] == us; }
    assert CutBetween(us, k, cap, Name(args, cap));
  }

  /** So in a buffer that is large enough, too, the names tell lists of flags apart, but for the one clash. */
  lemma SameNameInBufferIff(xs: seq<Bytes>, ys: seq<Bytes>, cap: nat)
    requires |FullName(xs)| <= cap && |FullName(ys)| <= cap
    ensures Name(xs, cap) == Name(ys, cap) <==>
              multiset(xs) == multiset(ys) || (xs == [] && ys == [Default]) || (xs == [Default] && ys == [])
  {
    hide Name, FullName;
    NameIsPrefix(xs, cap);
    NameIsPrefix(ys, cap);
    SameNameIff(xs, ys);
  }

  // ---- No escape is cut ----

  /** Every percent sign is followed by two upper-case hexadecimal digits. */
  ghost predicate WholeEscapes(name: Bytes) {
    forall i | 0 <= i < |name| && name[i] == Percent ::
        i + 2 < |name| && IsHexDigit(name[i + 1]) && IsHexDigit(name[i + 2])
  }

  predicate IsHexDigit(c: Byte) { 48 <= c <= 57 || 65 <= c <= 70 }

  ghost predicate WholeUnits(us: seq<Bytes>) {
    forall k: nat | k < |us| :: us[k] != [] && WholeEscapes(us[k])
  }

  lemma WholeUnit(c: Byte)
    ensures Unit(c) != [] && WholeEscapes(Unit(c))
  {
  }

  lemma {:induction false} WholeByteUnits(a: Bytes)
    ensures WholeUnits(ByteUnits(a))
  {
    hide Unit, WholeEscapes;
    if a != [] {
      WholeUnit(a[0]);
      WholeByteUnits(a[1..]);
    }
  }

  lemma WholeUnitsAppend(u: seq<Bytes>, v: seq<Bytes>)
    requires WholeUnits(u) && WholeUnits(v)
    ensures WholeUnits(u + v)
  {
    hide WholeEscapes;
    forall k: nat | k < |u + v| ensures (u + v)[k] != [] && WholeEscapes((u + v)[k]) {
      if k < |u| { assert u[k] != []; } else { assert v[k - |u|] != []; }
    }
  }

  lemma {:induction false} WholeJoinUnits(args: seq<Bytes>)
    ensures WholeUnits(JoinUnits(args))
  {
    if args != [] {
      var us, sep := ByteUnits(args[0]), [[Underscore]];
      assert WholeUnits(sep);
      WholeByteUnits(args[0]);
      hide WholeUnits, ByteUnits;
      if |args| > 1 {
        WholeJoinUnits(args[1..]);
        WholeUnitsAppend(sep, JoinUnits(args[1..]));
        WholeUnitsAppend(us, sep + JoinUnits(args[1..]));
      } else {
        assert us + [] == us;
      }
    }
  }

  lemma WholeAppend(a: Bytes, b: Bytes)
    requires WholeEscapes(a) && WholeEscapes(b)
    ensures WholeEscapes(a + b)
  {
    var name := a + b;
    forall i | 0 <= i < |name| && name[i] == Percent
      ensures i + 2 < |name| && IsHexDigit(name[i + 1]) && IsHexDigit(name[i + 2])
    {
      if i < |a| { assert a[i] == Percent; } else { assert b[i - |a|] == Percent; }
    }
  }

  lemma {:induction false} WholeFit(us: seq<Bytes>, room: nat)
    requires WholeUnits(us)
    ensures WholeEscapes(Fit(us, room))
    decreases |us|
  {
    if us != [] && |us[0]| <= room {
      WholeFit(us[1..], room - |us[0]|);
      WholeAppend(us[0], Fit(us[1..], room - |us[0]|));
    }
  }

  /** However little room there is, no name ends inside an escape. */
  lemma NameHasWholeEscapes(args: seq<Bytes>, cap: nat)
    ensures WholeEscapes(Name(args, cap))
  {
    hide Sort;
    WholeJoinUnits(Sort(args));
    assert WholeUnits([Default]);
    WholeFit(Units(Sort(args)), cap);
  }

  // ---- What a name looks like ----

  /** A letter, a digit, a full stop or a hyphen. */
  predicate Ordinary(c: Byte) {
    || 'a' as int <= c <= 'z' as int || 'A' as int <= c <= 'Z' as int || '0' as int <= c <= '9' as int
    || c == '.' as int || c == '-' as int
  }

  /** In particular no slash, so a name is one directory. */
  ghost predicate NameLike(name: Bytes) {
    forall i | 0 <= i < |name| :: Ordinary(name[i]) || name[i] == '_' as int || name[i] == '%' as int
  }

  ghost predicate UnitsNameLike(us: seq<Bytes>) {
    forall k: nat | k < |us| :: NameLike(us[k])
  }

  lemma UnitNameLike(c: Byte)
    ensures NameLike(Unit(c))
    ensures Unit(c) == [c] <==> Ordinary(c)
  {
  }

  lemma {:induction false} ByteUnitsNameLike(a: Bytes)
    ensures UnitsNameLike(ByteUnits(a))
  {
    hide Unit, NameLike;
    if a != [] {
      UnitNameLike(a[0]);
      ByteUnitsNameLike(a[1..]);
    }
  }

  lemma {:induction false} JoinUnitsNameLike(args: seq<Bytes>)
    ensures UnitsNameLike(JoinUnits(args))
  {
    if args != [] {
      assert NameLike([Underscore]);
      hide NameLike, ByteUnits;
      ByteUnitsNameLike(args[0]);
      JoinUnitsNameLike(args[1..]);
    }
  }

  lemma {:induction false} FitNameLike(us: seq<Bytes>, room: nat)
    requires UnitsNameLike(us)
    ensures NameLike(Fit(us, room))
    decreases |us|
  {
    if us != [] && |us[0]| <= room {
      FitNameLike(us[1..], room - |us[0]|);
      NameLikeAppend(us[0], Fit(us[1..], room - |us[0]|));
    }
  }

  lemma NameLikeAppend(a: Bytes, b: Bytes)
    requires NameLike(a) && NameLike(b)
    ensures NameLike(a + b)
  {
  }

  /** The bytes of every name, in a buffer of any size. */
  lemma NameIsNameLike(args: seq<Bytes>, cap: nat)
    ensures NameLike(Name(args, cap))
  {
    hide Sort, NameLike;
    JoinUnitsNameLike(Sort(args));
    DefaultNameLike();
    FitNameLike(Units(Sort(args)), cap);
  }

  lemma DefaultNameLike()
    ensures UnitsNameLike([Default])
  {
  }

  lemma {:induction false} OrdinaryUnits(a: Bytes)
    requires forall i | 0 <= i < |a| :: Ordinary(a[i])
    ensures Flatten(ByteUnits(a)) == a
  {
    hide Unit, Ordinary;
    if a != [] {
      OrdinaryUnits(a[1..]);
      UnitNameLike(a[0]);
      assert a == [a[0]] + a[1..];
    }
  }

  /** A single flag of ordinary bytes is its own name, and no flag at all has the name `default`. */
  lemma OrdinaryFlagIsItsName(flag: Bytes)
    requires forall i | 0 <= i < |flag| :: Ordinary(flag[i])
    ensures FullName([flag]) == flag
    ensures |FullName([])| == |"default"| && forall k | 0 <= k < |"default"| :: FullName([])[k] == "default"[k] as int
  {
    OrdinaryUnits(flag);
    assert Sort([flag]) == [flag] by { assert [flag][1..] == []; }
    assert ByteUnits(flag) + [] == ByteUnits(flag);
    assert FullName([]) == Default by { assert Default + [] == Default && [Default][1..] == []; }
  }

  /** A byte that is not ordinary is spelled as `%` and two upper-case hexadecimal digits, wherever it stands. */
  lemma ByteIsSpelled(before: Bytes, c: Byte, behind: Bytes)
    ensures FullName([before + [c] + behind]) == FullName([before])
      + (if Ordinary(c) then [c]
         else ['%' as int, "0123456789ABCDEF"[c / 16] as int, "0123456789ABCDEF"[c % 16] as int])
      + FullName([behind])
  {
    hide *;
    OneFlag(before);
    OneFlag(behind);
    OneFlag(before + [c] + behind);
    FlatParts(before, c, behind);
    UnitIsSpelled(c);
  }

  lemma FlatParts(before: Bytes, c: Byte, behind: Bytes)
    ensures Flatten(ByteUnits(before + [c] + behind)) ==
      Flatten(ByteUnits(before)) + Unit(c) + Flatten(ByteUnits(behind))
  {
    hide Unit, Flatten, ByteUnits;
    ByteUnitsAppend(before + [c], behind);
    ByteUnitsAppend(before, [c]);
    FlattenAppend(ByteUnits(before + [c]), ByteUnits(behind));
    FlattenAppend(ByteUnits(before), ByteUnits([c]));
    FlattenOne(c);
  }

  lemma UnitIsSpelled(c: Byte)
    ensures Unit(c) == if Ordinary(c) then [c]
      else ['%' as int, "0123456789ABCDEF"[c / 16] as int, "0123456789ABCDEF"[c % 16] as int]
  {
    HexIsSpelled(c / 16);
    HexIsSpelled(c % 16);
    hide HexChar;
  }

  lemma HexIsSpelled(v: Byte)
    requires v < 16
    ensures HexChar(v) == "0123456789ABCDEF"[v] as int
  {
  }

  lemma FlattenOne(c: Byte)
    ensures Flatten(ByteUnits([c])) == Unit(c)
  {
    hide Unit;
    assert ByteUnits([c]) == [Unit(c)] && [Unit(c)][1..] == [];
  }

  lemma OneFlag(flag: Bytes)
    ensures FullName([flag]) == Flatten(ByteUnits(flag))
  {
    assert Sort([flag]) == [flag] by { assert [flag][1..] == []; }
    assert ByteUnits(flag) + [] == ByteUnits(flag);
  }

  lemma {:induction false} ByteUnitsAppend(a: Bytes, b: Bytes)
    ensures ByteUnits(a + b) == ByteUnits(a) + ByteUnits(b)
  {
    hide Unit;
    if a == [] {
      assert a + b == b;
    } else {
      ByteUnitsAppend(a[1..], b);
      assert (a + b)[1..] == a[1..] + b;
    }
  }

  /** Two flags are joined with an underscore, the lesser one first. */
  lemma TwoFlags(a: Bytes, b: Bytes)
    ensures FullName([a, b]) ==
      if SliceCmp(a, b) <= 0 then FullName([a]) + ['_' as int] + FullName([b])
      else FullName([b]) + ['_' as int] + FullName([a])
  {
    hide SliceCmp, Flatten, ByteUnits, JoinUnits, Sort;
    OneFlag(a);
    OneFlag(b);
    SortTwo(a, b);
    JoinTwo(a, b);
    JoinTwo(b, a);
  }

  lemma SortTwo(a: Bytes, b: Bytes)
    ensures Sort([a, b]) == if SliceCmp(a, b) <= 0 then [a, b] else [b, a]
  {
    hide SliceCmp;
    assert [a, b][1..] == [b] && [b][1..] == [];
    assert Sort([b]) == [b];
    assert Insert(a, []) == [a] && Insert(a, [b]) == if SliceCmp(a, b) <= 0 then [a, b] else [b, a];
  }

  lemma JoinTwo(a: Bytes, b: Bytes)
    ensures Flatten(JoinUnits([a, b])) == Flatten(ByteUnits(a)) + [Underscore] + Flatten(ByteUnits(b))
  {
    hide ByteUnits;
    assert [a, b][1..] == [b];
    assert JoinUnits([b]) == ByteUnits(b) by { assert ByteUnits(b) + [] == ByteUnits(b); }
    FlattenAppend(ByteUnits(a), [[Underscore]] + ByteUnits(b));
    assert ([[Underscore]] + ByteUnits(b))[1..] == ByteUnits(b);
  }

  // ---- The code ----

  /** The library's `qsort` with `slice_cmp`, in place. */
  method QSort(args: array<Bytes>)
    modifies args
    ensures args[..] == Sort(old(args[..]))
  {
    hide Sort, Sorted;
    var sorted := Sort(args[..]);
    SortKeepsLength(args[..]);
    for i := 0 to |sorted|
      invariant args[..i] == sorted[..i]
    {
      args[i] := sorted[i];
    }
  }

  /** What is still to come after byte `j` of a flag: the rest of the flag, then the other flags. */
  function Rest(flag: Bytes, j: nat, after: seq<Bytes>): seq<Bytes>
    requires j <= |flag|
  {
    ByteUnits(flag[j..]) + (if after != [] then [[Underscore]] + JoinUnits(after) else [])
  }

  lemma RestUnfolds(flag: Bytes, j: nat, after: seq<Bytes>)
    requires j < |flag|
    ensures Rest(flag, j, after) == [Unit(flag[j])] + Rest(flag, j + 1, after)
  {
    assert flag[j..][1..] == flag[j + 1..];
  }

  lemma NothingFits(us: seq<Bytes>)
    requires WholeUnits(us)
    ensures Fit(us, 0) == []
  {
  }

  /** The bytes of one flag.  `full`: there was no room for the next piece. */
  method WriteFlag(flag: Bytes, outBuf: array<Byte>, outCap: nat, start: nat, ghost after: seq<Bytes>,
          ghost name: Bytes)
    returns (full: bool, pos: nat)
    requires start <= outCap <= outBuf.Length && outBuf[..start] + Fit(Rest(flag, 0, after), outCap - start) == name
    modifies outBuf
    ensures start <= pos <= outCap && outBuf[pos..] == old(outBuf[pos..])
    ensures full ==> outBuf[..pos] == name
    ensures !full ==> outBuf[..pos] + Fit(Rest(flag, |flag|, after), outCap - pos) == name
  {
    hide Rest, Unit, HexChar;
    pos := start;
    for j := 0 to |flag|
      invariant start <= pos <= outCap && outBuf[pos..] == old(outBuf[pos..])
      invariant outBuf[..pos] + Fit(Rest(flag, j, after), outCap - pos) == name
    {
      RestUnfolds(flag, j, after);
      if pos >= outCap { return true, pos; }
      var c := flag[j];
      UnitLength(c);
      if !Safe(c) && pos + 3 > outCap { return true, pos; }
      ghost var rest := Fit(Rest(flag, j + 1, after), outCap - pos - |Unit(c)|);
      pos := WriteUnit(c, outBuf, pos, rest, name);
    }
    full := false;
  }

  lemma UnitLength(c: Byte)
    ensures |Unit(c)| == if Safe(c) then 1 else 3
  {
  }

  method WriteUnit(c: Byte, outBuf: array<Byte>, pos: nat, ghost rest: Bytes, ghost name: Bytes) returns (pos': nat)
    requires pos + |Unit(c)| <= outBuf.Length && outBuf[..pos] + (Unit(c) + rest) == name
    modifies outBuf
    ensures pos' == pos + |Unit(c)| && outBuf[pos'..] == old(outBuf[pos'..]) && outBuf[..pos'] + rest == name
  {
    ghost var before := outBuf[..pos];
    if Safe(c) {
      outBuf[pos] := c;
      pos' := pos + 1;
    } else {
      outBuf[pos] := Percent;
      outBuf[pos + 1] := HexChar(c / 16);
      outBuf[pos + 2] := HexChar(c % 16);
      pos' := pos + 3;
    }
    assert outBuf[..pos'] == before + Unit(c);
    assert before + Unit(c) + rest == before + (Unit(c) + rest);
  }

  lemma Regroup(a: Bytes, b: Bytes, c: Bytes)
    ensures a + (b + c) == a + b + c
  {
  }

  method WriteFlagAndSeparator(flag: Bytes, last: bool, outBuf: array<Byte>, outCap: nat, start: nat,
                               ghost after: seq<Bytes>, ghost name: Bytes)
    returns (full: bool, pos: nat)
    requires start <= outCap <= outBuf.Length && outBuf[..start] + Fit(Rest(flag, 0, after), outCap - start) == name
    requires last <==> after == []
    modifies outBuf
    ensures start <= pos <= outCap && outBuf[pos..] == old(outBuf[pos..])
    ensures full ==> outBuf[..pos] == name
    ensures !full ==> outBuf[..pos] + Fit(JoinUnits(after), outCap - pos) == name
  {
    hide Fit, Rest, JoinUnits;
    full, pos := WriteFlag(flag, outBuf, outCap, start, after, name);
    if full { return; }
    AfterFlag(flag, after, outCap - pos);
    if !last && pos < outCap {
      ghost var before, more := outBuf[..pos], Fit(JoinUnits(after), outCap - pos - 1);
      assert before + ([Underscore] + more) == name;
      outBuf[pos] := Underscore;
      pos := pos + 1;
      assert outBuf[..pos] == before + [Underscore];
      Regroup(before, [Underscore], more);
    }
  }

  /** `mangle_cli_args`: the flags are left sorted, the buffer holds the name and is untouched behind it. */
  method MangleCliArgs(args: array<Bytes>, outBuf: array<Byte>, outCap: nat) returns (pos: nat)
    requires outCap <= outBuf.Length
    modifies args, outBuf
    ensures args[..] == Sort(old(args[..]))
    ensures pos <= outCap && outBuf[..pos] == Name(old(args[..]), outCap) && outBuf[pos..] == old(outBuf[pos..])
  {
    if args.Length == 0 {
      pos := WriteDefault(outBuf, outCap);
      assert args[..] == [];
      return;
    }
    QSort(args);
    hide Sort, JoinUnits;
    pos := WriteSorted(args, outBuf, outCap);
  }

  method WriteSorted(args: array<Bytes>, outBuf: array<Byte>, outCap: nat) returns (pos: nat)
    requires outCap <= outBuf.Length
    modifies outBuf
    ensures pos <= outCap && outBuf[..pos] == Fit(JoinUnits(args[..]), outCap) && outBuf[pos..] == old(outBuf[pos..])
  {
    hide Fit, Rest, JoinUnits;
    ghost var sorted := args[..];
    ghost var name := Fit(JoinUnits(sorted), outCap);
    pos := 0;
    assert sorted[0..] == sorted;
    for i := 0 to args.Length
      invariant pos <= outCap && outBuf[pos..] == old(outBuf[pos..])
      invariant outBuf[..pos] + Fit(JoinUnits(sorted[i..]), outCap - pos) == name
    {
      JoinIsRest(sorted, i);
      var full;
      full, pos := WriteFlagAndSeparator(args[i], i == args.Length - 1, outBuf, outCap, pos, sorted[i + 1..], name);
      if full { return; }
    }
    NothingLeft(outCap - pos);
    assert sorted[args.Length..] == [];
  }

  lemma NothingLeft(room: nat)
    ensures Fit(JoinUnits([]), room) == []
  {
  }

  lemma JoinIsRest(sorted: seq<Bytes>, i: nat)
    requires i < |sorted|
    ensures JoinUnits(sorted[i..]) == Rest(sorted[i], 0, sorted[i + 1..])
  {
    assert sorted[i..][1..] == sorted[i + 1..] && sorted[i][0..] == sorted[i];
  }

  /** Between two flags: the separator is written if there is a byte for it; if not, nothing more fits. */
  lemma AfterFlag(flag: Bytes, after: seq<Bytes>, room: nat)
    ensures after == [] || room == 0 ==> Fit(Rest(flag, |flag|, after), room) == Fit(JoinUnits(after), room)
    ensures after != [] && room > 0 ==>
        Fit(Rest(flag, |flag|, after), room) == [Underscore] + Fit(JoinUnits(after), room - 1)
  {
    hide Fit, Rest, JoinUnits, WholeUnits;
    WholeJoinUnits(after);
    NothingFits(JoinUnits(after));
    RestEnds(flag, after);
    FitFirst([Underscore], JoinUnits(after), room);
  }

  lemma RestEnds(flag: Bytes, after: seq<Bytes>)
    ensures Rest(flag, |flag|, after) == if after != [] then [[Underscore]] + JoinUnits(after) else JoinUnits(after)
  {
    assert ByteUnits(flag[|flag|..]) == [];
  }

  lemma FitFirst(u: Bytes, us: seq<Bytes>, room: nat)
    ensures Fit([u] + us, room) == if |u| > room then [] else u + Fit(us, room - |u|)
  {
    assert ([u] + us)[1..] == us;
  }

  lemma DefaultFits(cap: nat)
    ensures Name([], cap) == if cap >= 7 then Default else []
  {
    assert Default + [] == Default && [Default][1..] == [];
    assert Fit([Default], cap) == if cap >= 7 then Default else [];
  }

  method WriteDefault(outBuf: array<Byte>, outCap: nat) returns (pos: nat)
    requires outCap <= outBuf.Length
    modifies outBuf
    ensures pos <= outCap && outBuf[..pos] == Name([], outCap) && outBuf[pos..] == old(outBuf[pos..])
  {
    pos := 0;
    DefaultFits(outCap);
    if outCap >= 7 {
      while pos < 7
        invariant pos <= 7 && outBuf[..pos] == Default[..pos] && outBuf[pos..] == old(outBuf[pos..])
      {
        outBuf[pos] := Default[pos];
        pos := pos + 1;
      }
    }
  }
}
