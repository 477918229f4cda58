/** String literals piece by piece: how each byte can be spelled, with every code written out
    (section 2.1 of the Lua 5.1 Reference Manual), and that the lexer reads it so. */
module StringText {
  import opened Common
  import opened LLex

  datatype Piece =
    | Itself(c: char)
    | Letter(l: char)
    | Decimal(ds: string)
    | LineBreak(nl: string)
    | Other(c: char)

  function PieceText(p: Piece): string {
    match p
    case Itself(c) => [c]
    case Letter(l) => ['\\', l]
    case Decimal(ds) => ['\\'] + ds
    case LineBreak(nl) => ['\\'] + nl
    case Other(c) => ['\\', c]
  }

  /** What may be written before the rest of the literal. */
  predicate PieceOk(p: Piece, rest: string, del: char) {
    match p
    case Itself(c) => c !in ['\\', '\n', '\r', del]
    case Letter(l) => l in ['a', 'b', 'f', 'n', 'r', 't', 'v']
    case Decimal(ds) =>
      && 1 <= |ds| <= 3 && (forall i :: 0 <= i < |ds| ==> '0' <= ds[i] <= '9')
      && (|ds| < 3 && rest != [] ==> !('0' <= rest[0] <= '9'))
    case LineBreak(nl) =>
      nl == "\r\n" || nl == "\n\r" || (nl == "\n" && (rest != [] ==> rest[0] != '\r'))
      || (nl == "\r" && (rest != [] ==> rest[0] != '\n'))
    case Other(c) => !('0' <= c <= '9') && c !in ['a', 'b', 'f', 'n', 'r', 't', 'v', '\n', '\r']
  }

  /** The number of a decimal escape. */
  function Code(ds: string): nat
    requires 1 <= |ds| <= 3 && forall i :: 0 <= i < |ds| ==> '0' <= ds[i] <= '9'
  {
    var d := ds[0] as int - 48;
    if |ds| == 1 then d
    else if |ds| == 2 then 10 * d + (ds[1] as int - 48)
    else 100 * d + 10 * (ds[1] as int - 48) + (ds[2] as int - 48)
  }

  /** The byte that a piece stands for. */
  function ByteOf(p: Piece, rest: string, del: char): int
    requires PieceOk(p, rest, del)
  {
    match p
    case Itself(c) => c as int
    case Letter(l) =>
      if l == 'a' then 7 else if l == 'b' then 8 else if l == 't' then 9 else if l == 'n' then 10
      else if l == 'v' then 11 else if l == 'f' then 12 else 13
    case Decimal(ds) => Code(ds)
    case LineBreak(_) => 10
    case Other(c) => c as int
  }

  lemma NumberIs(ds: string)
    requires 1 <= |ds| <= 3 && forall i :: 0 <= i < |ds| ==> '0' <= ds[i] <= '9'
    ensures Number(ds) == Code(ds)
  {
    assert ds[..0] == [];
    if |ds| == 1 {
    } else if |ds| == 2 {
      assert ds[..1][..0] == [] && Number(ds[..1]) == ds[0] as int - 48;
    } else {
      assert ds[..2][..1] == ds[..1] && ds[..1][..0] == [];
      assert Number(ds[..1]) == ds[0] as int - 48;
      assert Number(ds[..2]) == 10 * (ds[0] as int - 48) + (ds[1] as int - 48);
    }
  }

  lemma {:induction false} DigitsAre(ds: string, rest: string, n: nat)
    requires |ds| <= n && forall i :: 0 <= i < |ds| ==> '0' <= ds[i] <= '9'
    requires |ds| < n && rest != [] ==> !('0' <= rest[0] <= '9')
    ensures Digits(ds + rest, n) == |ds|
    decreases |ds|
  {
    if ds == [] {
      assert ds + rest == rest;
    } else {
      assert (ds + rest)[1..] == ds[1..] + rest;
      DigitsAre(ds[1..], rest, n - 1);
    }
  }

  lemma DecimalRead(ds: string, rest: string, del: char, line: nat)
    requires PieceOk(Decimal(ds), rest, del) && del != '\\'
    ensures Scan(['\\'] + ds + rest, del, line) ==
            if Code(ds) > 255 then TooLarge else Prepend([Code(ds) as char], 1 + |ds|, Scan(rest, del, line))
  {
    hide Code, Number, Digits;
    var t := ['\\'] + ds + rest;
    assert t[1..] == ds + rest;
    DigitsAre(ds, rest, 3);
    NumberIs(ds);
    assert t[1..1 + |ds|] == ds && t[1 + |ds|..] == rest && t[1] == ds[0];
  }

  lemma BreakRead(nl: string, rest: string, del: char, line: nat)
    requires PieceOk(LineBreak(nl), rest, del) && del != '\\'
    ensures Scan(['\\'] + nl + rest, del, line) ==
            if line + 1 >= 0x7fff_fffd then TooManyLines else Prepend("\n", 1 + |nl|, Scan(rest, del, line + 1))
  {
    var t := ['\\'] + nl + rest;
    assert t[1..] == nl + rest && t[1 + |nl|..] == rest;
    assert t[1] == nl[0] && (nl + rest)[0] == nl[0];
    if |nl| == 2 { assert (nl + rest)[1] == nl[1]; } else if rest != [] { assert (nl + rest)[1] == rest[0]; }
    assert LineEnd(t[1..]) == |nl|;
  }

  /** One piece is read as its byte and takes its characters; only a decimal escape above 255 and
      a line break at the limit of the line counter are errors. */
  lemma PieceRead(p: Piece, rest: string, del: char, line: nat)
    requires PieceOk(p, rest, del) && del != '\\'
    ensures Scan(PieceText(p) + rest, del, line) ==
            if p.Decimal? && ByteOf(p, rest, del) > 255 then TooLarge
            else if p.LineBreak? && line + 1 >= 0x7fff_fffd then TooManyLines
            else
              Prepend([ByteOf(p, rest, del) as char], |PieceText(p)|,
                  Scan(rest, del, line + if p.LineBreak? then 1 else 0))
  {
    var t := PieceText(p) + rest;
    match p
    case Itself(c) => assert t[1..] == rest;
    case Letter(l) => assert t[2..] == rest && t[1] == l;
    case Decimal(ds) => DecimalRead(ds, rest, del, line);
    case LineBreak(nl) => BreakRead(nl, rest, del, line);
    case Other(c) => assert t[2..] == rest && t[1] == c;
  }

  // ----- whole literals -----

  function Text(ps: seq<Piece>): string {
    if ps == [] then "" else PieceText(ps[0]) + Text(ps[1..])
  }

  predicate Proper(ps: seq<Piece>, rest: string, del: char) {
    ps != [] ==> PieceOk(ps[0], Text(ps[1..]) + rest, del) && Proper(ps[1..], rest, del)
  }

  /** What a literal means, or its first error. */
  function Meaning(ps: seq<Piece>, rest: string, del: char, line: nat): Scanned
    requires Proper(ps, rest, del)
    decreases |ps|
  {
    if ps == [] then Scanned("", 1, line)
    else
      var tail := Text(ps[1..]) + rest;
      var b := ByteOf(ps[0], tail, del);
      if ps[0].Decimal? && b > 255 then TooLarge
      else if ps[0].LineBreak? && line + 1 >= 0x7fff_fffd then TooManyLines
      else
        match Meaning(ps[1..], rest, del, line + if ps[0].LineBreak? then 1 else 0)
        case Scanned(text, used, last) => Scanned([b as char] + text, |PieceText(ps[0])| + used, last)
        case e => e
  }

  /** A literal is read as its pieces say, whatever follows its closing delimiter. */
  lemma {:induction false} LiteralRead(ps: seq<Piece>, rest: string, del: char, line: nat)
    requires Proper(ps, [del] + rest, del) && del != '\\'
    ensures Scan(Text(ps) + ([del] + rest), del, line) == Meaning(ps, [del] + rest, del, line)
    decreases |ps|
  {
    hide PieceText, PieceOk, ByteOf;
    var more := [del] + rest;
    if ps == [] {
      assert Text(ps) + more == more && more[0] == del;
    } else {
      var tail := Text(ps[1..]) + more;
      assert Text(ps) + more == PieceText(ps[0]) + tail;
      hide Scan;
      PieceRead(ps[0], tail, del, line);
      LiteralRead(ps[1..], rest, del, line + if ps[0].LineBreak? then 1 else 0);
    }
  }

  /** Nothing but a line end or the end of the input leaves a literal unfinished. */
  lemma {:induction false} UnfinishedRead(ps: seq<Piece>, rest: string, del: char, line: nat)
    requires Proper(ps, rest, del) && del != '\\' && (rest == [] || rest[0] == '\n' || rest[0] == '\r' || rest == "\\")
    requires rest != [] ==> rest[0] != del
    ensures Meaning(ps, rest, del, line).Scanned? ==> Scan(Text(ps) + rest, del, line) == Unfinished
    ensures !Meaning(ps, rest, del, line).Scanned? ==> Scan(Text(ps) + rest, del, line) == Meaning(ps, rest, del, line)
    decreases |ps|
  {
    hide PieceText, PieceOk, ByteOf;
    if ps == [] {
      assert Text(ps) + rest == rest;
    } else {
      var tail := Text(ps[1..]) + rest;
      assert Text(ps) + rest == PieceText(ps[0]) + tail;
      hide Scan;
      PieceRead(ps[0], tail, del, line);
      UnfinishedRead(ps[1..], rest, del, line + if ps[0].LineBreak? then 1 else 0);
    }
  }

  lemma {:induction false} DigitsEnd(t: string, n: nat)
    ensures var k := Digits(t, n); k < n && k < |t| ==> !('0' <= t[k] <= '9')
    decreases n
  {
    if n > 0 && t != [] && IsDigit(t[0]) { DigitsEnd(t[1..], n - 1); }
  }

  /** The piece that a literal starts with, before its closing delimiter. */
  lemma FirstPiece(t: string, del: char, line: nat) returns (p: Piece, tail: string, next: nat)
    requires Scan(t, del, line).Scanned? && del != '\\' && t[0] != del
    ensures t == PieceText(p) + tail && PieceOk(p, tail, del) && |tail| < |t| && Scan(tail, del, next).Scanned?
  {
    next := line;
    if t[0] != '\\' {
      p, tail := Itself(t[0]), t[1..];
    } else if IsEscape(t[1]) {
      p, tail := Letter(t[1]), t[2..];
    } else if IsNewline(t[1]) {
      p, tail := BreakPiece(t, del, line);
      next := line + 1;
    } else if IsDigit(t[1]) {
      p, tail := DigitPiece(t, del, line);
    } else {
      p, tail := Other(t[1]), t[2..];
    }
  }

  lemma BreakPiece(t: string, del: char, line: nat) returns (p: Piece, tail: string)
    requires Scan(t, del, line).Scanned? && del != '\\' && t[0] == '\\' && |t| > 1 && IsNewline(t[1])
    ensures t == PieceText(p) + tail && PieceOk(p, tail, del) && |tail| < |t| && Scan(tail, del, line + 1).Scanned?
  {
    var n := LineEnd(t[1..]);
    p, tail := LineBreak(t[1..1 + n]), t[1 + n..];
    assert Scan(tail, del, line + 1).Scanned?;
    hide Scan;
    assert n == 1 ==> p.nl == [t[1]] && (tail != [] ==> t[1..][1] == tail[0]);
    assert n == 2 ==> p.nl == [t[1], t[2]] && t[1..][1] == t[2];
  }

  lemma DigitPiece(t: string, del: char, line: nat) returns (p: Piece, tail: string)
    requires Scan(t, del, line).Scanned? && del != '\\' && t[0] == '\\' && |t| > 1 && IsDigit(t[1])
    ensures t == PieceText(p) + tail && PieceOk(p, tail, del) && |tail| < |t| && Scan(tail, del, line).Scanned?
  {
    var k := Digits(t[1..], 3);
    p, tail := Decimal(t[1..1 + k]), t[1 + k..];
    assert Scan(tail, del, line).Scanned? by { hide Number, Digits; }
    hide Scan;
    DigitsEnd(t[1..], 3);
    assert k >= 1;
    var ds := p.ds;
    forall i | 0 <= i < |ds| ensures '0' <= ds[i] <= '9' { assert ds[i] == t[1..][i]; }
    assert tail != [] ==> tail[0] == t[1..][k];
  }

  /** Every literal that the lexer accepts is spelled in pieces. */
  lemma {:induction false} EveryLiteral(t: string, del: char, line: nat) returns (ps: seq<Piece>, rest: string)
    requires Scan(t, del, line).Scanned? && del != '\\'
    ensures t == Text(ps) + ([del] + rest) && Proper(ps, [del] + rest, del)
    decreases |t|
  {
    hide PieceText, PieceOk;
    if t[0] == del {
      ps, rest := [], t[1..];
      assert Text(ps) + ([del] + rest) == t;
    } else {
      var p, tail, next := FirstPiece(t, del, line);
      hide Scan;
      var more;
      more, rest := EveryLiteral(tail, del, next);
      ps := [p] + more;
      assert ps[1..] == more;
      assert Text(ps) + ([del] + rest) == PieceText(p) + (Text(more) + ([del] + rest));
    }
  }
}
