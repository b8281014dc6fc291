/** Every JSON text is tokenized as what it says: one token for each value and each key, in order, with the offsets of
    its text and the number of its parts.  The grammar is that of sections 2 to 7 of RFC 8259, with any white space,
    except that a number or a literal name is any word of letters, digits, `+`, `-` and `.`. */
module JsonTexts {
  import opened Tokens
  import opened Lexing
  import opened CommandTokens

  datatype Value =
    | Quote(ps: seq<Piece>)
    | Word(w: string)
    | List(items: Items)
    | Dict(members: Members)

  /** The values of an array, each between white space; `blank` is what stands in front of the closing bracket. */
  datatype Items =
    | NoItems(blank: string)
    | Item(before: string, v: Value, after: string, rest: Items)

  /** The members of an object, with the white space before the key, before and behind the colon, and behind the
      value. */
  datatype Members =
    | NoMembers(blank: string)
    | Member(before: string, key: seq<Piece>, mid: string, space: string, v: Value, after: string, rest: Members)

  // ---- Texts ----

  predicate BlankOk(ws: string) {
    forall c | c in ws :: c == ' ' || c == '\t' || c == '\n' || c == '\r'
  }

  predicate WordOk(w: string) {
    w != "" && forall c | c in w ::
      'a' <= c <= 'z' || 'A' <= c <= 'Z' || '0' <= c <= '9' || c == '+' || c == '-' || c == '.'
  }

  ghost predicate ValueOk(v: Value)
    decreases v
  {
    match v
    case Quote(ps) => PiecesOk(ps)
    case Word(w) => WordOk(w)
    case List(items) => ItemsOk(items)
    case Dict(members) => MembersOk(members)
  }

  ghost predicate ItemsOk(items: Items)
    decreases items
  {
    match items
    case NoItems(blank) => BlankOk(blank)
    case Item(before, v, after, rest) => BlankOk(before) && ValueOk(v) && BlankOk(after) && ItemsOk(rest)
  }

  ghost predicate MembersOk(members: Members)
    decreases members
  {
    match members
    case NoMembers(blank) => BlankOk(blank)
    case Member(before, key, mid, space, v, after, rest) =>
      && BlankOk(before) && PiecesOk(key) && BlankOk(mid) && BlankOk(space) && ValueOk(v) && BlankOk(after)
      && MembersOk(rest)
  }

  function QuoteText(ps: seq<Piece>): string { "\"" + PiecesText(ps) + "\"" }

  function ValueText(v: Value): string
    decreases v
  {
    match v
    case Quote(ps) => QuoteText(ps)
    case Word(w) => w
    case List(items) => "[" + ItemsText(items) + "]"
    case Dict(members) => "{" + MembersText(members) + "}"
  }

  function ItemsText(items: Items): string
    decreases items
  {
    match items
    case NoItems(blank) => blank
    case Item(before, v, after, rest) =>
      before + (ValueText(v) + (after + ((if rest.Item? then "," else "") + ItemsText(rest))))
  }

  function MembersText(members: Members): string
    decreases members
  {
    match members
    case NoMembers(blank) => blank
    case Member(before, key, mid, space, v, after, rest) =>
      before + (QuoteText(key) + (mid + (":" + (space + (ValueText(v) + (after
      + ((if rest.Member? then "," else "") + MembersText(rest))))))))
  }

  // ---- Their tokens ----

  function ItemCount(items: Items): nat
    decreases items
  {
    if items.NoItems? then 0 else 1 + ItemCount(items.rest)
  }

  function MemberCount(members: Members): nat
    decreases members
  {
    if members.NoMembers? then 0 else 1 + MemberCount(members.rest)
  }

  /** The tokens of a value whose text begins at `p`. */
  function ValueToks(v: Value, p: nat): (r: seq<Token>)
    ensures |r| > 0
    decreases v
  {
    var end := p + |ValueText(v)|;
    match v
    case Quote(ps) => [Token(Str, p + 1, end - 1, 0)]
    case Word(w) => [Token(Primitive, p, end, 0)]
    case List(items) => [Token(Array, p, end, ItemCount(items))] + ItemToks(items, p + 1)
    case Dict(members) => [Token(Object, p, end, MemberCount(members))] + MemberToks(members, p + 1)
  }

  function ItemToks(items: Items, p: nat): seq<Token>
    decreases items
  {
    match items
    case NoItems(_) => []
    case Item(before, v, after, rest) => ValueToks(v, p + |before|) + ItemToks(rest, BehindItem(items, p))
  }

  /** Where the next item begins. */
  function BehindItem(items: Items, p: nat): nat
    requires items.Item?
  {
    p + |items.before| + |ValueText(items.v)| + |items.after| + if items.rest.Item? then 1 else 0
  }

  function MemberToks(members: Members, p: nat): seq<Token>
    decreases members
  {
    match members
    case NoMembers(_) => []
    case Member(before, key, mid, space, v, after, rest) =>
      [KeyToken(members, p)] + ValueToks(v, ValueAt(members, p)) + MemberToks(rest, BehindMember(members, p))
  }

  function KeyToken(members: Members, p: nat): Token
    requires members.Member?
  {
    Token(Str, p + |members.before| + 1, p + |members.before| + 1 + |PiecesText(members.key)|, 1)
  }

  function ValueAt(members: Members, p: nat): nat
    requires members.Member?
  {
    p + |members.before| + |QuoteText(members.key)| + |members.mid| + 1 + |members.space|
  }

  function BehindMember(members: Members, p: nat): nat
    requires members.Member?
  {
    ValueAt(members, p) + |ValueText(members.v)| + |members.after| + if members.rest.Member? then 1 else 0
  }

  // ---- Single turns of the tokenizer ----

  /** A primitive ends here. */
  predicate Stopped(js: string, q: nat) {
    q == |js| || (q < |js| && (
      js[q] == ' ' || js[q] == '\t' || js[q] == '\n' || js[q] == '\r' || js[q] == ',' || js[q] == ']' || js[q] == '}'))
  }

  lemma BlankLeads(js: string, m: Machine, ws: string, cap: nat)
    requires InRange(m) && BlankOk(ws) && Lies(js, m.pos, ws)
    ensures Leads(js, m, m.(pos := m.pos + |ws|), cap)
  {
    hide Leads;
    forall i | m.pos <= i < m.pos + |ws| ensures White(js[i]) {
      assert js[m.pos + (i - m.pos)] == ws[i - m.pos] && ws[i - m.pos] in ws;
    }
    LeadsBlank(js, m, |ws|, cap);
  }

  lemma LiesChar(js: string, p: nat, c: char)
    requires Lies(js, p, [c])
    ensures p < |js| && js[p] == c
  {
    assert js[p + 0] == [c][0];
  }

  lemma ColonLeads(js: string, m: Machine, cap: nat)
    requires InRange(m) && m.pos < |js| && js[m.pos] == ':' && m.toks != []
    ensures Leads(js, m, m.(pos := m.pos + 1, super := |m.toks| - 1), cap)
  {
    LeadsStep(js, m, cap);
  }

  lemma StringLeads(js: string, m: Machine, ps: seq<Piece>, cap: nat)
    requires InRange(m) && PiecesOk(ps) && Lies(js, m.pos, QuoteText(ps)) && |m.toks| < cap
    ensures Leads(js, m, AddString(m, |PiecesText(ps)|), cap)
  {
    hide Leads, ScanString, PiecesOk, PiecesText;
    var t := PiecesText(ps);
    assert QuoteText(ps) == "\"" + (t + "\"");
    LiesSplit(js, m.pos, "\"", t + "\"");
    LiesSplit(js, m.pos + 1, t, "\"");
    LiesChar(js, m.pos, '"');
    LiesChar(js, m.pos + 1 + |t|, '"');
    StringIsRead(js, m.pos + 1, ps);
    LeadsString(js, m, |t|, cap);
  }

  function AddWord(m: Machine, len: nat): Machine
    requires InRange(m)
  {
    m.(pos := m.pos + len, toks := Bump(m.toks, m.super) + [Token(Primitive, m.pos, m.pos + len, 0)])
  }

  lemma WordLeads(js: string, m: Machine, w: string, cap: nat)
    requires InRange(m) && WordOk(w) && Lies(js, m.pos, w) && |m.toks| < cap && Stopped(js, m.pos + |w|)
    ensures Leads(js, m, AddWord(m, |w|), cap)
  {
    WordScans(js, m.pos, w);
    assert js[m.pos + 0] == w[0] && w[0] in w;
    hide ScanPrimitive;
    LeadsStep(js, m, cap);
  }

  lemma WordScans(js: string, p: nat, w: string)
    requires WordOk(w) && Lies(js, p, w) && Stopped(js, p + |w|)
    ensures ScanPrimitive(js, p) == End(p + |w|)
  {
    forall k | p <= k < p + |w| ensures '!' <= js[k] <= '~' && js[k] !in [':', ',', ']', '}'] {
      assert js[p + (k - p)] == w[k - p] && w[k - p] in w;
    }
    PrimitiveScansIff(js, p, p + |w|);
  }

  // ---- Values ----

  /** Where the tokenizer is behind a value: behind a container it counts for the enclosing one. */
  function AfterValue(m: Machine, v: Value): Machine
    requires InRange(m)
  {
    Machine(m.pos + |ValueText(v)|, Bump(m.toks, m.super) + ValueToks(v, m.pos),
            if v.Quote? || v.Word? then m.super else Top(m.stack), m.stack)
  }

  function Grow(toks: seq<Token>, o: nat, n: nat): (r: seq<Token>)
    requires o < |toks|
    ensures |r| == |toks|
  {
    toks[o := toks[o].(size := toks[o].size + n)]
  }

  /** Inside a container whose token is the innermost open one. */
  ghost predicate Inside(m: Machine, o: nat) {
    && InRange(m) && m.stack != [] && Top(m.stack) == o && o < |m.toks| && IsContainer(m.toks[o].kind)
  }

  function AfterItems(m: Machine, items: Items, o: nat): Machine
    requires o < |m.toks|
  {
    Machine(m.pos + |ItemsText(items)|, Grow(m.toks, o, ItemCount(items)) + ItemToks(items, m.pos), o, m.stack)
  }

  function AfterMembers(m: Machine, members: Members, o: nat, super: int): Machine
    requires o < |m.toks|
  {
    Machine(m.pos + |MembersText(members)|, Grow(m.toks, o, MemberCount(members)) + MemberToks(members, m.pos), super,
            m.stack)
  }

  // ---- Taking texts apart ----

  lemma SplitItem(js: string, p: nat, items: Items)
    requires items.Item? && Lies(js, p, ItemsText(items))
    ensures Lies(js, p, items.before) && Lies(js, p + |items.before|, ValueText(items.v))
    ensures var q := p + |items.before| + |ValueText(items.v)|;
            && Lies(js, q, items.after)
            && (items.rest.Item? ==> q + |items.after| < |js| && js[q + |items.after|] == ',')
            && Lies(js, BehindItem(items, p), ItemsText(items.rest))
    ensures BehindItem(items, p) + |ItemsText(items.rest)| == p + |ItemsText(items)|
  {
    hide Lies, ValueText;
    var sep := if items.rest.Item? then "," else "";
    var t := ItemsText(items.rest);
    var q := p + |items.before|;
    LiesSplit(js, p, items.before, ValueText(items.v) + (items.after + (sep + t)));
    LiesSplit(js, q, ValueText(items.v), items.after + (sep + t));
    q := q + |ValueText(items.v)|;
    LiesSplit(js, q, items.after, sep + t);
    q := q + |items.after|;
    LiesSplit(js, q, sep, t);
    if items.rest.Item? { LiesChar(js, q, ','); }
  }

  lemma SplitMember(js: string, p: nat, ms: Members)
    requires ms.Member? && Lies(js, p, MembersText(ms))
    ensures Lies(js, p, ms.before) && Lies(js, p + |ms.before|, QuoteText(ms.key))
    ensures var q := p + |ms.before| + |QuoteText(ms.key)|;
            && Lies(js, q, ms.mid) && q + |ms.mid| < |js| && js[q + |ms.mid|] == ':'
            && Lies(js, q + |ms.mid| + 1, ms.space)
    ensures Lies(js, ValueAt(ms, p), ValueText(ms.v))
    ensures var q := ValueAt(ms, p) + |ValueText(ms.v)|;
            && Lies(js, q, ms.after)
            && (ms.rest.Member? ==> q + |ms.after| < |js| && js[q + |ms.after|] == ',')
            && Lies(js, BehindMember(ms, p), MembersText(ms.rest))
    ensures BehindMember(ms, p) + |MembersText(ms.rest)| == p + |MembersText(ms)|
  {
    hide Lies, ValueText, QuoteText;
    var sep := if ms.rest.Member? then "," else "";
    var t1 := sep + MembersText(ms.rest);
    var t2 := ms.after + t1;
    var t3 := ValueText(ms.v) + t2;
    var t4 := ms.space + t3;
    var t5 := ":" + t4;
    var t6 := ms.mid + t5;
    var t7 := QuoteText(ms.key) + t6;
    LiesSplit(js, p, ms.before, t7);
    var q := p + |ms.before|;
    LiesSplit(js, q, QuoteText(ms.key), t6);
    q := q + |QuoteText(ms.key)|;
    LiesSplit(js, q, ms.mid, t5);
    q := q + |ms.mid|;
    LiesSplit(js, q, ":", t4);
    LiesChar(js, q, ':');
    q := q + 1;
    LiesSplit(js, q, ms.space, t3);
    q := q + |ms.space|;
    LiesSplit(js, q, ValueText(ms.v), t2);
    q := q + |ValueText(ms.v)|;
    LiesSplit(js, q, ms.after, t1);
    q := q + |ms.after|;
    LiesSplit(js, q, sep, MembersText(ms.rest));
    if ms.rest.Member? { LiesChar(js, q, ','); }
  }

  lemma BlankStops(js: string, q: nat, ws: string)
    requires BlankOk(ws) && Lies(js, q, ws) && ws != ""
    ensures Stopped(js, q)
  {
    assert js[q + 0] == ws[0] && ws[0] in ws;
  }

  /** A value is followed by white space, a comma or what closes the container. */
  lemma StoppedBehindItem(js: string, p: nat, items: Items)
    requires items.Item? && ItemsOk(items) && Lies(js, p, ItemsText(items)) && Stopped(js, p + |ItemsText(items)|)
    ensures Stopped(js, p + |items.before| + |ValueText(items.v)|)
  {
    hide Lies, BlankOk, ValueText;
    SplitItem(js, p, items);
    if items.after != "" {
      BlankStops(js, p + |items.before| + |ValueText(items.v)|, items.after);
    } else if items.rest.NoItems? && items.rest.blank != "" {
      BlankStops(js, p + |items.before| + |ValueText(items.v)|, items.rest.blank);
    }
  }

  lemma StoppedBehindMember(js: string, p: nat, ms: Members)
    requires ms.Member? && MembersOk(ms) && Lies(js, p, MembersText(ms)) && Stopped(js, p + |MembersText(ms)|)
    ensures Stopped(js, ValueAt(ms, p) + |ValueText(ms.v)|)
  {
    hide Lies, BlankOk, ValueText, QuoteText;
    SplitMember(js, p, ms);
    if ms.after != "" {
      BlankStops(js, ValueAt(ms, p) + |ValueText(ms.v)|, ms.after);
    } else if ms.rest.NoMembers? && ms.rest.blank != "" {
      BlankStops(js, ValueAt(ms, p) + |ValueText(ms.v)|, ms.rest.blank);
    }
  }

  // ---- The tokens of a container, put together ----

  lemma GrowNone(toks: seq<Token>, o: nat)
    requires o < |toks|
    ensures Grow(toks, o, 0) + [] == toks
  {
  }

  /** One more part, then `n` more. */
  lemma GrowMore(toks: seq<Token>, o: nat, n: nat, a: seq<Token>, b: seq<Token>)
    requires o < |toks|
    ensures o < |Bump(toks, o) + a|
    ensures Grow(Bump(toks, o) + a, o, n) + b == Grow(toks, o, n + 1) + (a + b)
    ensures (Bump(toks, o) + a)[o].kind == toks[o].kind
  {
  }

  lemma CloseContainer(toks: seq<Token>, t: Token, n: nat, parts: seq<Token>, end: int)
    ensures var all := Grow(toks + [t], |toks|, n) + parts;
            all[|toks| := all[|toks|].(end := end)] == toks + ([Token(t.kind, t.start, end, t.size + n)] + parts)
  {
  }

  /** A key gets its value: its size goes from 0 to 1. */
  lemma KeyCounts(toks: seq<Token>, key: Token, v: seq<Token>)
    requires key.size == 0
    ensures Bump(toks + [key], |toks|) + v == toks + ([key.(size := 1)] + v)
  {
  }

  // ---- The tokenizer follows the grammar ----

  lemma {:induction false} ValueLeads(js: string, m: Machine, v: Value, cap: nat)
    requires InRange(m) && ValueOk(v) && Lies(js, m.pos, ValueText(v)) && Stopped(js, m.pos + |ValueText(v)|)
    requires |m.toks| + |ValueToks(v, m.pos)| <= cap
    ensures Leads(js, m, AfterValue(m, v), cap)
    decreases v, 1
  {
    match v
    case Quote(ps) => StringLeads(js, m, ps, cap);
    case Word(w) => WordLeads(js, m, w, cap);
    case List(items) => ListLeads(js, m, v, cap);
    case Dict(members) => DictLeads(js, m, v, cap);
  }

  lemma {:induction false} ListLeads(js: string, m: Machine, v: Value, cap: nat)
    requires v.List? && InRange(m) && ValueOk(v) && Lies(js, m.pos, ValueText(v))
    requires |m.toks| + |ValueToks(v, m.pos)| <= cap
    ensures Leads(js, m, AfterValue(m, v), cap)
    decreases v, 0
  {
    hide Leads, Lies, ItemsText, ItemToks, ItemCount, ItemsOk;
    var t := ItemsText(v.items);
    var end := m.pos + 1 + |t|;
    assert ValueText(v) == "[" + (t + "]");
    LiesSplit(js, m.pos, "[", t + "]");
    LiesSplit(js, m.pos + 1, t, "]");
    LiesChar(js, m.pos, '[');
    LiesChar(js, end, ']');
    LeadsOpen(js, m, Array, cap);
    var o, a := |m.toks|, Token(Array, m.pos, -1, 0);
    var m1 := Machine(m.pos + 1, Bump(m.toks, m.super) + [a], o, m.stack + [o]);
    ItemsLead(js, m1, v.items, o, cap);
    var m2 := AfterItems(m1, v.items, o);
    LeadsOn(js, m, m1, m2, cap);
    AfterOpen(m, m2, o);
    LeadsClose(js, m2, Array, cap);
    var m3 := Machine(end + 1, m2.toks[o := m2.toks[o].(end := end + 1)], Top(m.stack), m.stack);
    LeadsOn(js, m, m2, m3, cap);
    CloseContainer(Bump(m.toks, m.super), a, ItemCount(v.items), ItemToks(v.items, m.pos + 1), end + 1);
  }

  lemma AfterOpen(m: Machine, m2: Machine, o: nat)
    requires m2.stack == m.stack + [o]
    ensures m2.stack != [] && m2.stack[|m2.stack| - 1] == o && m2.stack[..|m2.stack| - 1] == m.stack
  {
  }

  lemma {:induction false} DictLeads(js: string, m: Machine, v: Value, cap: nat)
    requires v.Dict? && InRange(m) && ValueOk(v) && Lies(js, m.pos, ValueText(v))
    requires |m.toks| + |ValueToks(v, m.pos)| <= cap
    ensures Leads(js, m, AfterValue(m, v), cap)
    decreases v, 0
  {
    hide Leads, Lies, MembersText, MemberToks, MemberCount, MembersOk;
    var t := MembersText(v.members);
    var end := m.pos + 1 + |t|;
    assert ValueText(v) == "{" + (t + "}");
    LiesSplit(js, m.pos, "{", t + "}");
    LiesSplit(js, m.pos + 1, t, "}");
    LiesChar(js, m.pos, '{');
    LiesChar(js, end, '}');
    LeadsOpen(js, m, Object, cap);
    var o, a := |m.toks|, Token(Object, m.pos, -1, 0);
    var m1 := Machine(m.pos + 1, Bump(m.toks, m.super) + [a], o, m.stack + [o]);
    var sup := MembersLead(js, m1, v.members, o, cap);
    var m2 := AfterMembers(m1, v.members, o, sup);
    LeadsOn(js, m, m1, m2, cap);
    AfterOpen(m, m2, o);
    LeadsClose(js, m2, Object, cap);
    var m3 := Machine(end + 1, m2.toks[o := m2.toks[o].(end := end + 1)], Top(m.stack), m.stack);
    LeadsOn(js, m, m2, m3, cap);
    CloseContainer(Bump(m.toks, m.super), a, MemberCount(v.members), MemberToks(v.members, m.pos + 1), end + 1);
  }

  lemma {:induction false} ItemsLead(js: string, m: Machine, items: Items, o: nat, cap: nat)
    requires Inside(m, o) && m.super == o
    requires ItemsOk(items) && Lies(js, m.pos, ItemsText(items)) && Stopped(js, m.pos + |ItemsText(items)|)
    requires |m.toks| + |ItemToks(items, m.pos)| <= cap
    ensures Leads(js, m, AfterItems(m, items, o), cap)
    decreases items, 2
  {
    if items.NoItems? {
      GrowNone(m.toks, o);
      BlankLeads(js, m, items.blank, cap);
    } else {
      hide *;
      ItemLists(js, m, items, o, cap);
    }
  }

  lemma {:induction false} ItemLists(js: string, m: Machine, items: Items, o: nat, cap: nat)
    requires Inside(m, o) && m.super == o && items.Item?
    requires ItemsOk(items) && Lies(js, m.pos, ItemsText(items)) && Stopped(js, m.pos + |ItemsText(items)|)
    requires |m.toks| + |ItemToks(items, m.pos)| <= cap
    ensures Leads(js, m, AfterItems(m, items, o), cap)
    decreases items, 1
  {
    hide Leads, Lies, ValueText, ValueToks, ItemsText, Stopped, BlankOk, ValueOk, AfterItems, Grow;
    SplitItem(js, m.pos, items);
    var m3 := ItemLeads(js, m, items, o, cap);
    var m4 := m3;
    if items.rest.Item? {
      LeadsComma(js, m3, cap);
      m4 := m3.(pos := m3.pos + 1, super := o);
      LeadsOn(js, m, m3, m4, cap);
    }
    ItemsLead(js, m4, items.rest, o, cap);
    LeadsOn(js, m, m4, AfterItems(m4, items.rest, o), cap);
    MoreItems(m, m4, items, o);
  }

  lemma MoreItems(m: Machine, m4: Machine, items: Items, o: nat)
    requires items.Item? && o < |m.toks| && o < |m4.toks| && m4.stack == m.stack && m4.pos == BehindItem(items, m.pos)
    requires m4.toks == Bump(m.toks, o) + ValueToks(items.v, m.pos + |items.before|)
    requires m4.pos + |ItemsText(items.rest)| == m.pos + |ItemsText(items)|
    ensures AfterItems(m4, items.rest, o) == AfterItems(m, items, o)
  {
    hide ValueToks, ItemsText, Grow;
    GrowMore(m.toks, o, ItemCount(items.rest), ValueToks(items.v, m.pos + |items.before|),
             ItemToks(items.rest, BehindItem(items, m.pos)));
  }

  /** One item, up to the comma behind it. */
  lemma {:induction false} ItemLeads(js: string, m: Machine, items: Items, o: nat, cap: nat) returns (r: Machine)
    requires Inside(m, o) && m.super == o && items.Item?
    requires ItemsOk(items) && Lies(js, m.pos, ItemsText(items)) && Stopped(js, m.pos + |ItemsText(items)|)
    requires |m.toks| + |ItemToks(items, m.pos)| <= cap
    ensures Leads(js, m, r, cap) && r.stack == m.stack && r.super == o
    ensures r.pos == m.pos + |items.before| + |ValueText(items.v)| + |items.after|
    ensures r.toks == Bump(m.toks, o) + ValueToks(items.v, m.pos + |items.before|)
    ensures Inside(r, o) && |r.toks| + |ItemToks(items.rest, BehindItem(items, m.pos))| <= cap
    decreases items, 0
  {
    hide Leads, Lies, ValueText, ValueToks, ItemsText, Stopped, BlankOk, ValueOk;
    SplitItem(js, m.pos, items);
    StoppedBehindItem(js, m.pos, items);
    BlankLeads(js, m, items.before, cap);
    var m1 := m.(pos := m.pos + |items.before|);
    ValueLeads(js, m1, items.v, cap);
    var m2 := AfterValue(m1, items.v);
    LeadsOn(js, m, m1, m2, cap);
    GrowMore(m.toks, o, 0, ValueToks(items.v, m1.pos), []);
    BlankLeads(js, m2, items.after, cap);
    r := m2.(pos := m2.pos + |items.after|);
    LeadsOn(js, m, m2, r, cap);
  }

  lemma {:induction false} MembersLead(js: string, m: Machine, ms: Members, o: nat, cap: nat) returns (sup: int)
    requires Inside(m, o) && m.super == o
    requires MembersOk(ms) && Lies(js, m.pos, MembersText(ms)) && Stopped(js, m.pos + |MembersText(ms)|)
    requires |m.toks| + |MemberToks(ms, m.pos)| <= cap
    ensures Leads(js, m, AfterMembers(m, ms, o, sup), cap)
    decreases ms, 2
  {
    if ms.NoMembers? {
      GrowNone(m.toks, o);
      BlankLeads(js, m, ms.blank, cap);
      sup := o;
    } else {
      hide *;
      sup := MemberLists(js, m, ms, o, cap);
    }
  }

  lemma {:induction false} MemberLists(js: string, m: Machine, ms: Members, o: nat, cap: nat) returns (sup: int)
    requires Inside(m, o) && m.super == o && ms.Member?
    requires MembersOk(ms) && Lies(js, m.pos, MembersText(ms)) && Stopped(js, m.pos + |MembersText(ms)|)
    requires |m.toks| + |MemberToks(ms, m.pos)| <= cap
    ensures Leads(js, m, AfterMembers(m, ms, o, sup), cap)
    decreases ms, 1
  {
    hide Leads, Lies, ValueText, ValueToks, MembersText, Stopped, BlankOk, ValueOk, QuoteText, PiecesText, PiecesOk,
         AfterMembers, Grow;
    SplitMember(js, m.pos, ms);
    var m3 := MemberLeads(js, m, ms, o, cap);
    var m4 := m3;
    if ms.rest.Member? {
      LeadsComma(js, m3, cap);
      m4 := m3.(pos := m3.pos + 1, super := o);
      LeadsOn(js, m, m3, m4, cap);
      sup := MembersLead(js, m4, ms.rest, o, cap);
    } else {
      sup := m3.super;
      LastBlank(js, m3, ms.rest, o, cap);
    }
    LeadsOn(js, m, m4, AfterMembers(m4, ms.rest, o, sup), cap);
    MoreMembers(m, m4, ms, o, sup);
  }

  lemma MoreMembers(m: Machine, m4: Machine, ms: Members, o: nat, sup: int)
    requires ms.Member? && o < |m.toks| && o < |m4.toks| && m4.stack == m.stack && m4.pos == BehindMember(ms, m.pos)
    requires m4.toks == Bump(m.toks, o) + ([KeyToken(ms, m.pos)] + ValueToks(ms.v, ValueAt(ms, m.pos)))
    requires m4.pos + |MembersText(ms.rest)| == m.pos + |MembersText(ms)|
    ensures AfterMembers(m4, ms.rest, o, sup) == AfterMembers(m, ms, o, sup)
  {
    hide ValueToks, MembersText, Grow, KeyToken, QuoteText;
    GrowMore(m.toks, o, MemberCount(ms.rest), [KeyToken(ms, m.pos)] + ValueToks(ms.v, ValueAt(ms, m.pos)),
             MemberToks(ms.rest, BehindMember(ms, m.pos)));
  }

  lemma LastBlank(js: string, m: Machine, ms: Members, o: nat, cap: nat)
    requires InRange(m) && o < |m.toks| && ms.NoMembers? && MembersOk(ms) && Lies(js, m.pos, MembersText(ms))
    ensures Leads(js, m, AfterMembers(m, ms, o, m.super), cap)
  {
    GrowNone(m.toks, o);
    BlankLeads(js, m, ms.blank, cap);
  }

  /** One member, up to the comma behind it. */
  lemma {:induction false} MemberLeads(js: string, m: Machine, ms: Members, o: nat, cap: nat) returns (r: Machine)
    requires Inside(m, o) && m.super == o && ms.Member?
    requires MembersOk(ms) && Lies(js, m.pos, MembersText(ms)) && Stopped(js, m.pos + |MembersText(ms)|)
    requires |m.toks| + |MemberToks(ms, m.pos)| <= cap
    ensures Leads(js, m, r, cap) && r.stack == m.stack
    ensures r.pos == ValueAt(ms, m.pos) + |ValueText(ms.v)| + |ms.after|
    ensures r.toks == Bump(m.toks, o) + ([KeyToken(ms, m.pos)] + ValueToks(ms.v, ValueAt(ms, m.pos)))
    ensures 0 <= r.super < |r.toks| && (r.super == o || r.toks[r.super].kind == Str)
    ensures Inside(r, o) && |r.toks| + |MemberToks(ms.rest, BehindMember(ms, m.pos))| <= cap
    decreases ms, 0
  {
    hide Leads, Lies, ValueText, ValueToks, MembersText, Stopped, BlankOk, ValueOk, QuoteText, PiecesText, PiecesOk;
    SplitMember(js, m.pos, ms);
    StoppedBehindMember(js, m.pos, ms);
    QuoteLength(ms.key);
    BlankLeads(js, m, ms.before, cap);
    var m1 := m.(pos := m.pos + |ms.before|);
    StringLeads(js, m1, ms.key, cap);
    var m2 := AddString(m1, |PiecesText(ms.key)|);
    LeadsOn(js, m, m1, m2, cap);
    BlankLeads(js, m2, ms.mid, cap);
    var m3 := m2.(pos := m2.pos + |ms.mid|);
    LeadsOn(js, m, m2, m3, cap);
    ColonLeads(js, m3, cap);
    var m4 := m3.(pos := m3.pos + 1, super := |m3.toks| - 1);
    LeadsOn(js, m, m3, m4, cap);
    BlankLeads(js, m4, ms.space, cap);
    var m5 := m4.(pos := m4.pos + |ms.space|);
    LeadsOn(js, m, m4, m5, cap);
    ValueLeads(js, m5, ms.v, cap);
    r := AfterValue(m5, ms.v);
    LeadsOn(js, m, m5, r, cap);
    GrowMore(m.toks, o, 0, [KeyToken(ms, m.pos)] + ValueToks(ms.v, ValueAt(ms, m.pos)), []);
    KeyCounts(Bump(m.toks, o), Token(Str, m1.pos + 1, m1.pos + 1 + |PiecesText(ms.key)|, 0), ValueToks(ms.v, m5.pos));
    BlankLeads(js, r, ms.after, cap);
    var r' := r.(pos := r.pos + |ms.after|);
    LeadsOn(js, m, r, r', cap);
    r := r';
  }

  lemma QuoteLength(ps: seq<Piece>)
    ensures |QuoteText(ps)| == |PiecesText(ps)| + 2
  {
  }

  // ---- Whole texts ----

  /** A value between white space. */
  function JsonText(before: string, v: Value, after: string): string {
    before + (ValueText(v) + after)
  }

  lemma LiesWhole(a: string, b: string)
    ensures Lies(a + b, |a|, b) && Lies(a + b, 0, a)
  {
  }

  lemma StoppedAtEnd(js: string, q: nat, ws: string)
    requires BlankOk(ws) && Lies(js, q, ws) && q + |ws| == |js|
    ensures Stopped(js, q)
  {
    hide Lies, BlankOk;
    if ws != "" { BlankStops(js, q, ws); }
  }

  lemma EndParses(js: string, m: Machine, cap: nat)
    requires InRange(m) && m.pos == |js| && m.stack == []
    ensures Parse(js, m, cap) == Next(m)
  {
  }

  lemma AtStart(v: Value, p: nat)
    ensures Start == Machine(0, [], -1, []) && InRange(Start.(pos := p))
    ensures AfterValue(Start.(pos := p), v) == Machine(p + |ValueText(v)|, ValueToks(v, p), -1, [])
  {
    hide ValueText, ValueToks;
    assert [] + ValueToks(v, p) == ValueToks(v, p);
  }

  lemma LeadsParse(js: string, m: Machine, m': Machine, cap: nat)
    requires Leads(js, m, m', cap)
    ensures InRange(m) && m.pos <= |js| && InRange(m') && m'.pos <= |js| && Parse(js, m, cap) == Parse(js, m', cap)
  {
  }

  /** The filling pass gives exactly the tokens of the value, and the counting pass their number. */
  lemma TextParses(before: string, v: Value, after: string, js: string)
    requires BlankOk(before) && ValueOk(v) && BlankOk(after) && js == JsonText(before, v, after)
    ensures Parse(js, Start, |ValueToks(v, |before|)|) == Next(Machine(|js|, ValueToks(v, |before|), -1, []))
    ensures CountPass(js, 0, 0) == |ValueToks(v, |before|)|
  {
    hide *;
    var p := |before|;
    var cap := |ValueToks(v, p)|;
    TextSplits(before, v, after, js);
    AtStart(v, 0);
    AtStart(v, p);
    StoppedAtEnd(js, p + |ValueText(v)|, after);
    BlankLeads(js, Start.(pos := 0), before, cap);
    var m1 := Start.(pos := p);
    ValueLeads(js, m1, v, cap);
    var m2 := AfterValue(m1, v);
    LeadsOn(js, Start, m1, m2, cap);
    LeadsParse(js, m1, m2, cap);
    BlankLeads(js, m2, after, cap);
    var m3 := m2.(pos := m2.pos + |after|);
    LeadsOn(js, Start, m2, m3, cap);
    LeadsParse(js, Start, m3, cap);
    EndParses(js, m3, cap);
    ParseCounts(js, Start, cap);
  }

  lemma TextSplits(before: string, v: Value, after: string, js: string)
    requires js == JsonText(before, v, after)
    ensures Lies(js, 0, before) && Lies(js, |before|, ValueText(v)) && Lies(js, |before| + |ValueText(v)|, after)
    ensures |js| == |before| + |ValueText(v)| + |after|
  {
    hide ValueText, Lies;
    LiesWhole(before, ValueText(v) + after);
    LiesSplit(js, |before|, ValueText(v), after);
  }
}
