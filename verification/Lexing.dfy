/** The lexical rules of the tokenizer, on characters: what a string is, and what ends a primitive. */
module Lexing {
  import opened Tokens

  /** A piece of a string: a character, a short escape, or a character in four hexadecimal digits. */
  datatype Piece = Plain(c: char) | Short(c: char) | Long(c0: char, c1: char, c2: char, c3: char)

  predicate Digit16(c: char) {
    48 <= c as int <= 57 || 65 <= c as int <= 70 || 97 <= c as int <= 102
  }

  predicate PieceOk(u: Piece) {
    match u
    case Plain(c) => c != '"' && c != '\\' && c != '\0'
    case Short(c) =>
      c == '"' || c == '\\' || c == '/' || c == 'b' || c == 'f' || c == 'n' || c == 'r' || c == 't'
    case Long(c0, c1, c2, c3) => Digit16(c0) && Digit16(c1) && Digit16(c2) && Digit16(c3)
  }

  ghost predicate PiecesOk(us: seq<Piece>) {
    forall k | 0 <= k < |us| :: PieceOk(us[k])
  }

  function PieceText(u: Piece): string {
    match u
    case Plain(c) => [c]
    case Short(c) => ['\\', c]
    case Long(c0, c1, c2, c3) => ['\\', 'u', c0, c1, c2, c3]
  }

  function PiecesText(us: seq<Piece>): string {
    if us == [] then "" else PieceText(us[0]) + PiecesText(us[1..])
  }

  /** The text lies at position `p`. */
  ghost predicate Lies(js: string, p: nat, w: string) {
    p + |w| <= |js| && forall k | 0 <= k < |w| :: js[p + k] == w[k]
  }

  lemma LiesSplit(js: string, p: nat, u: string, v: string)
    ensures Lies(js, p, u + v) <==> Lies(js, p, u) && Lies(js, p + |u|, v)
  {
    if Lies(js, p, u) && Lies(js, p + |u|, v) {
      forall k | 0 <= k < |u + v| ensures js[p + k] == (u + v)[k] {
        if k >= |u| { assert js[p + |u| + (k - |u|)] == v[k - |u|]; }
      }
    }
    if Lies(js, p, u + v) {
      forall k | 0 <= k < |u| ensures js[p + k] == u[k] { assert (u + v)[k] == u[k]; }
      forall k | 0 <= k < |v| ensures js[p + |u| + k] == v[k] { assert js[p + (|u| + k)] == (u + v)[|u| + k]; }
    }
  }

  // ---- Strings ----

  lemma HexDigits(c: char)
    ensures IsHex(c) <==> Digit16(c)
  {
  }

  /** One acceptable piece is passed over. */
  lemma PiecePassed(js: string, p: nat, u: Piece)
    requires PieceOk(u) && Lies(js, p, PieceText(u))
    ensures ScanString(js, p) == ScanString(js, p + |PieceText(u)|)
  {
    var w := PieceText(u);
    assert js[p + 0] == w[0];
    if !u.Plain? { assert js[p + 1] == w[1]; }
    if u.Long? {
      assert js[p + 2] == w[2] && js[p + 3] == w[3] && js[p + 4] == w[4] && js[p + 5] == w[5];
      HexPassed(js, p + 2);
    }
  }

  lemma HexPassed(js: string, p: nat)
    requires p + 4 <= |js| && Digit16(js[p]) && Digit16(js[p + 1]) && Digit16(js[p + 2]) && Digit16(js[p + 3])
    ensures ScanHex(js, p, 4) == End(p + 4)
  {
    HexOne(js, p, 4);
    HexOne(js, p + 1, 3);
    HexOne(js, p + 2, 2);
    HexOne(js, p + 3, 1);
    hide IsHex, Digit16;
    assert ScanHex(js, p + 4, 0) == End(p + 4);
  }

  lemma HexOne(js: string, p: nat, n: nat)
    requires n > 0 && p < |js| && Digit16(js[p])
    ensures ScanHex(js, p, n) == ScanHex(js, p + 1, n - 1)
  {
  }

  /** A string of acceptable pieces is read to its closing quote. */
  lemma {:induction false} StringIsRead(js: string, p: nat, us: seq<Piece>)
    requires PiecesOk(us) && Lies(js, p, PiecesText(us)) && p + |PiecesText(us)| < |js|
    requires js[p + |PiecesText(us)|] == '"'
    ensures ScanString(js, p) == End(p + |PiecesText(us)|)
    decreases |us|
  {
    if us != [] {
      hide ScanString, PieceOk, PieceText;
      LiesSplit(js, p, PieceText(us[0]), PiecesText(us[1..]));
      PiecePassed(js, p, us[0]);
      StringIsRead(js, p + |PieceText(us[0])|, us[1..]);
    }
  }

  /** Four hexadecimal digits, or the text ends before. */
  lemma HexEnds(js: string, p: nat)
    requires p <= |js| && ScanHex(js, p, 4).End?
    ensures var q := ScanHex(js, p, 4).p;
            || q == |js| || js[q] == '\0'
            || (q == p + 4 && Digit16(js[p]) && Digit16(js[p + 1]) && Digit16(js[p + 2]) && Digit16(js[p + 3]))
  {
    HexRun(js, p, 4);
    var q := ScanHex(js, p, 4).p;
    if q == p + 4 {
      HexDigits(js[p]);
      HexDigits(js[p + 1]);
      HexDigits(js[p + 2]);
      HexDigits(js[p + 3]);
    }
  }

  lemma {:induction false} HexRun(js: string, p: nat, n: nat)
    requires p <= |js| && ScanHex(js, p, n).End?
    ensures var q := ScanHex(js, p, n).p;
            p <= q <= |js| && q <= p + n && (forall k | p <= k < q :: IsHex(js[k]))
            && (q == p + n || q == |js| || js[q] == '\0')
    decreases n
  {
    if n > 0 && p < |js| && js[p] != Nul { HexRun(js, p + 1, n - 1); }
  }

  /** The first piece of a string that is read. */
  lemma FirstPiece(js: string, p: nat) returns (u: Piece)
    requires p <= |js| && ScanString(js, p).End? && js[p] != '"'
    ensures PieceOk(u) && Lies(js, p, PieceText(u))
    ensures ScanString(js, p) == ScanString(js, p + |PieceText(u)|)
  {
    if js[p] != '\\' {
      u := Plain(js[p]);
    } else {
      EscapeGoesOn(js, p);
      if js[p + 1] == 'u' {
        u := FirstLong(js, p);
      } else {
        u := Short(js[p + 1]);
        hide ScanString;
        PiecePassed(js, p, u);
      }
    }
  }

  /** A string that is read does not end with a lone backslash, and only these characters are escaped. */
  lemma EscapeGoesOn(js: string, p: nat)
    requires p < |js| && ScanString(js, p).End? && js[p] == '\\'
    ensures p + 1 < |js|
    ensures js[p + 1] == 'u' || PieceOk(Short(js[p + 1]))
    ensures js[p + 1] == 'u' ==>
      ScanHex(js, p + 2, 4).End? && ScanString(js, p) == ScanString(js, ScanHex(js, p + 2, 4).p)
  {
    hide ScanHex;
    assert ScanString(js, |js|) == Bad(Part);
  }

  lemma FirstLong(js: string, p: nat) returns (u: Piece)
    requires p + 1 < |js| && js[p] == '\\' && js[p + 1] == 'u' && ScanHex(js, p + 2, 4).End?
    requires ScanString(js, ScanHex(js, p + 2, 4).p).End?
    requires ScanString(js, p) == ScanString(js, ScanHex(js, p + 2, 4).p)
    ensures PieceOk(u) && Lies(js, p, PieceText(u))
    ensures ScanString(js, p) == ScanString(js, p + |PieceText(u)|)
  {
    HexEnds(js, p + 2);
    hide ScanHex, Digit16;
    var q := ScanHex(js, p + 2, 4).p;
    EndsNowhere(js, q);
    u := Long(js[p + 2], js[p + 3], js[p + 4], js[p + 5]);
  }

  lemma EndsNowhere(js: string, q: nat)
    requires q <= |js| && ScanString(js, q).End?
    ensures q < |js| && js[q] != '\0'
  {
  }

  /** And only such strings are. */
  lemma {:induction false} ReadIsString(js: string, p: nat) returns (us: seq<Piece>)
    requires p <= |js| && ScanString(js, p).End?
    ensures PiecesOk(us) && js[p..ScanString(js, p).p] == PiecesText(us)
    decreases |js| - p
  {
    if js[p] == '"' {
      us := [];
    } else {
      var u := FirstPiece(js, p);
      hide ScanString, PieceOk;
      var rest := ReadIsString(js, p + |PieceText(u)|);
      us := [u] + rest;
      var q, r := ScanString(js, p).p, p + |PieceText(u)|;
      assert us[0] == u && us[1..] == rest;
      assert js[p..r] == PieceText(u);
      assert js[p..q] == js[p..r] + js[r..q];
    }
  }

  /** The strings that are accepted, exactly: pieces as above up to an unescaped quote. */
  lemma StringScansIff(js: string, p: nat, q: nat)
    requires p <= q <= |js|
    ensures ScanString(js, p) == End(q) <==>
      q < |js| && js[q] == '"' && exists us: seq<Piece> :: PiecesOk(us) && js[p..q] == PiecesText(us)
  {
    if ScanString(js, p) == End(q) {
      var us := ReadIsString(js, p);
    }
    hide ScanString, PiecesOk, PiecesText;
    if us: seq<Piece> :| q < |js| && js[q] == '"' && PiecesOk(us) && js[p..q] == PiecesText(us) {
      assert Lies(js, p, PiecesText(us)) by {
        forall k | 0 <= k < q - p ensures js[p + k] == PiecesText(us)[k] { assert js[p..q][k] == js[p + k]; }
      }
      StringIsRead(js, p, us);
    }
  }

  // ---- Why a string is refused ----

  /** A string that is still open where the text ends is incomplete, code -3: more text might complete it. */
  lemma {:induction false} OpenStringIsPartial(js: string, p: nat, us: seq<Piece>)
    requires PiecesOk(us) && Lies(js, p, PiecesText(us))
    requires p + |PiecesText(us)| == |js| || js[p + |PiecesText(us)|] == '\0'
    ensures ScanString(js, p) == Bad(-3)
    decreases |us|
  {
    if us != [] {
      hide ScanString, PieceOk, PieceText;
      LiesSplit(js, p, PieceText(us[0]), PiecesText(us[1..]));
      PiecePassed(js, p, us[0]);
      OpenStringIsPartial(js, p + |PieceText(us[0])|, us[1..]);
    }
  }

  /** A backslash before any other character is an error, code -2. */
  lemma {:induction false} OtherEscapeIsInvalid(js: string, p: nat, us: seq<Piece>)
    requires PiecesOk(us) && Lies(js, p, PiecesText(us))
    requires var q := p + |PiecesText(us)|;
             q + 1 < |js| && js[q] == '\\' && js[q + 1] != 'u' && !PieceOk(Short(js[q + 1]))
    ensures ScanString(js, p) == Bad(-2)
    decreases |us|
  {
    if us != [] {
      hide ScanString, PieceOk, PieceText;
      LiesSplit(js, p, PieceText(us[0]), PiecesText(us[1..]));
      PiecePassed(js, p, us[0]);
      OtherEscapeIsInvalid(js, p + |PieceText(us[0])|, us[1..]);
    }
  }

  // ---- Primitives ----

  /** A primitive goes exactly as far as its characters are visible ASCII other than `:`, `,`, `]` and `}`, and must end
      there at one of these, at white space or at the end of the text. */
  lemma {:induction false} PrimitiveScansIff(js: string, p: nat, q: nat)
    requires p <= q <= |js|
    ensures ScanPrimitive(js, p) == End(q) <==>
      && (forall k | p <= k < q :: '!' <= js[k] <= '~' && js[k] !in [':', ',', ']', '}'])
      && (q == |js| || js[q] in [':', ',', ']', '}', ' ', '\t', '\n', '\r', '\0'])
    decreases |js| - p
  {
    if p < |js| && p < q && js[p] != Nul && !EndsPrimitive(js[p]) { PrimitiveScansIff(js, p + 1, q); }
  }
}
