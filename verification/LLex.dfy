/** Quoted strings: what string.format writes for %q, and how the lexer reads it back
    (lstrlib.c, llex.c). Strings are sequences of bytes. */
module LLex {
  import opened Common

  const UCHAR_MAX: nat := 255

  // ----- what a quoted string means -----

  datatype Scanned = Scanned(text: string, used: nat, line: nat) | Unfinished | TooLarge | TooManyLines

  function Prepend(text: string, n: nat, r: Scanned): Scanned {
    if r.Scanned? then Scanned(text + r.text, n + r.used, r.line) else r
  }

  predicate IsNewline(c: char) {
    c == '\n' || c == '\r'
  }

  /** The letters with a meaning of their own after a backslash. */
  function Escape(c: char): char {
    match c
    case 'a' => '\U{7}'
    case 'b' => '\U{8}'
    case 'f' => '\U{c}'
    case 'n' => '\n'
    case 'r' => '\r'
    case 't' => '\t'
    case 'v' => '\U{b}'
    case _ => c
  }

  predicate IsEscape(c: char) {
    c in "abfnrtv"
  }

  /** A line end of one or two characters: inclinenumber skips a pair of different ones. */
  function LineEnd(t: string): (n: nat)
    requires t != []
    ensures 1 <= n <= |t|
  {
    if |t| > 1 && IsNewline(t[1]) && t[1] != t[0] then 2 else 1
  }

  /** How many digits a decimal escape has, at most n. */
  function Digits(t: string, n: nat): (k: nat)
    ensures k <= n && k <= |t| && forall i :: 0 <= i < k ==> IsDigit(t[i])
  {
    if n == 0 || t == [] || !IsDigit(t[0]) then 0 else 1 + Digits(t[1..], n - 1)
  }

  function Number(t: string): nat
    requires forall i :: 0 <= i < |t| ==> IsDigit(t[i])
  {
    if t == [] then 0
    else
      assert IsDigit(t[|t| - 1]);
      10 * Number(t[..|t| - 1]) + (t[|t| - 1] - '0') as nat
  }

  /** The rest of a string after its opening delimiter: its bytes, how many characters they took,
      and the line then. */
  function Scan(t: string, del: char, line: nat): Scanned
    decreases |t|
  {
    if t == [] then Unfinished
    else if t[0] == del then Scanned("", 1, line)
    else if IsNewline(t[0]) then Unfinished
    else if t[0] != '\\' then Prepend([t[0]], 1, Scan(t[1..], del, line))
    else if |t| == 1 then Unfinished
    else if IsEscape(t[1]) then Prepend([Escape(t[1])], 2, Scan(t[2..], del, line))
    else if IsNewline(t[1]) then
      var n := 1 + LineEnd(t[1..]);
      if line + 1 >= MAX_INT then TooManyLines else Prepend("\n", n, Scan(t[n..], del, line + 1))
    else if !IsDigit(t[1]) then Prepend([t[1]], 2, Scan(t[2..], del, line))
    else
      var k := Digits(t[1..], 3);
      var c := Number(t[1..1 + k]);
      if c > UCHAR_MAX then TooLarge else Prepend([c as char], 1 + k, Scan(t[1 + k..], del, line))
  }

  // ----- writing -----

  function QuoteChar(c: char): string {
    if c == '"' || c == '\\' || c == '\n' then ['\\', c]
    else if c == '\r' then "\\r"
    else if c == '\0' then "\\000"
    else [c]
  }

  function Body(s: string): string {
    if s == [] then [] else QuoteChar(s[0]) + Body(s[1..])
  }

  function Newlines(s: string): nat {
    if s == [] then 0 else (if s[0] == '\n' then 1 else 0) + Newlines(s[1..])
  }

  lemma {:induction false} BodyAppend(s: string, c: char)
    ensures Body(s + [c]) == Body(s) + QuoteChar(c)
    decreases |s|
  {
    if s == [] {
      assert [c][1..] == [];
    } else {
      assert (s + [c])[1..] == s[1..] + [c];
      BodyAppend(s[1..], c);
    }
  }

  /** addquoted. */
  method AddQuoted(s: string) returns (b: string)
    ensures b == "\"" + Body(s) + "\""
  {
    b := "\"";
    var i := 0;
    while i < |s|
      invariant 0 <= i <= |s| && b == "\"" + Body(s[..i])
    {
      assert s[..i + 1] == s[..i] + [s[i]];
      BodyAppend(s[..i], s[i]);
      var q;
      match s[i] {
        case '"' => q := ['\\', s[i]];
        case '\\' => q := ['\\', s[i]];
        case '\n' => q := ['\\', s[i]];
        case '\r' => q := "\\r";
        case '\0' => q := "\\000";
        case _ => q := [s[i]];
      }
      assert q == QuoteChar(s[i]);
      assert "\"" + Body(s[..i]) + q == "\"" + (Body(s[..i]) + q);
      b := b + q;
      i := i + 1;
    }
    assert s[..i] == s;
    b := b + "\"";
  }

  // ----- reading -----

  /** LexState, as far as read_string uses it. */
  class Lexer {
    const input: string
    var pos: nat            // ls->current is the character here; past the end it is EOZ
    var linenumber: nat
    var buff: string

    constructor (input: string, pos: nat, linenumber: nat)
      requires pos <= |input|
      ensures this.input == input && this.pos == pos && this.linenumber == linenumber && buff == []
    {
      this.input := input;
      this.pos := pos;
      this.linenumber := linenumber;
      buff := [];
    }

    predicate Is(c: char)
      reads this
    {
      pos < |input| && input[pos] == c
    }

    /** save_and_next. */
    method SaveAndNext()
      requires pos < |input|
      modifies this
      ensures buff == old(buff) + [input[old(pos)]] && pos == old(pos) + 1 && linenumber == old(linenumber)
    {
      buff := buff + [input[pos]];
      pos := pos + 1;
    }

    /** inclinenumber. */
    method IncLineNumber() returns (ok: bool)
      requires pos < |input| && IsNewline(input[pos])
      modifies this`pos, this`linenumber
      ensures pos == old(pos) + LineEnd(input[old(pos)..]) && linenumber == old(linenumber) + 1
      ensures ok <==> linenumber < MAX_INT
    {
      var prior := input[pos];
      pos := pos + 1;
      if pos < |input| && IsNewline(input[pos]) && input[pos] != prior { pos := pos + 1; }
      linenumber := linenumber + 1;
      ok := linenumber < MAX_INT;
    }

    /** The decimal escape: up to three digits. */
    method ReadDigits() returns (c: nat)
      requires pos < |input| && IsDigit(input[pos])
      modifies this`pos
      ensures var k := Digits(input[old(pos)..], 3); pos == old(pos) + k && c == Number(input[old(pos)..][..k])
    {
      ghost var start := pos;
      c := 0;
      var i := 0;
      assert input[start..][..0] == [];
      while i < 3 && pos < |input| && IsDigit(input[pos])
        invariant 0 <= i <= 3 && pos == start + i <= |input|
            && Digits(input[start..], 3) == i + Digits(input[pos..], 3 - i)
        invariant (forall j :: start <= j < pos ==> IsDigit(input[j])) && c == Number(input[start..pos])
      {
        assert input[pos..][1..] == input[pos + 1..];
        assert input[start..pos + 1][..pos - start] == input[start..pos];
        c := 10 * c + (input[pos] - '0') as nat;
        pos := pos + 1;
        i := i + 1;
      }
      assert input[start..][..i] == input[start..pos];
    }

    /** The escape at a backslash: one more byte, or the error that ends the string. */
    method ReadEscape(ghost del: char) returns (error: Scanned, ok: bool)
      requires Is('\\') && del != '\\'
      modifies this
      ensures old(pos) < pos <= |input|
      ensures !ok ==> !error.Scanned? && error == Scan(input[old(pos)..], del, old(linenumber))
      ensures ok ==> |buff| == |old(buff)| + 1 && buff[..|old(buff)|] == old(buff)
      ensures ok ==>
          Scan(input[old(pos)..], del, old(linenumber)) ==
          Prepend([buff[|old(buff)|]], pos - old(pos), Scan(input[pos..], del, linenumber))
    {
      hide Scan, LineEnd, Digits, Number, Escape;
      ScanStep(input, pos, del, linenumber);
      error, ok := Unfinished, true;
      pos := pos + 1;
      if pos == |input| { return Unfinished, false; }  // the next turn of the loop meets EOZ
      var e := input[pos];
      if IsEscape(e) {
        buff := buff + [Escape(e)];
        pos := pos + 1;
      } else if IsNewline(e) {
        buff := buff + "\n";
        var more := IncLineNumber();
        if !more { return TooManyLines, false; }
      } else if !IsDigit(e) {
        SaveAndNext();
      } else {
        var c := ReadDigits();
        if c > UCHAR_MAX { return TooLarge, false; }
        buff := buff + [c as char];
      }
    }

    /** read_string: the string that starts at the delimiter. */
    method ReadString(del: char) returns (r: Scanned)
      requires Is(del) && buff == [] && !IsNewline(del) && del != '\\'
      modifies this
      ensures r == Scan(input[old(pos) + 1..], del, old(linenumber))
      ensures r.Scanned? ==> pos == old(pos) + 1 + r.used && linenumber == r.line
    {
      hide Scan;
      var start := pos + 1;
      ghost var line := linenumber;
      SaveAndNext();
      SkipNothing(Scan(input[start..], del, line));
      while !Is(del)
        invariant start <= pos <= |input| && |buff| >= 1
        invariant Scan(input[start..], del, line) ==
            Prepend(buff[1..], pos - start, Scan(input[pos..], del, linenumber))
        decreases |input| - pos
      {
        ghost var p, b := pos, buff;
        ScanStep(input, pos, del, linenumber);
        if pos == |input| || IsNewline(input[pos]) { return Unfinished; }
        if input[pos] == '\\' {
          var error, ok := ReadEscape(del);
          if !ok { return error; }
        } else {
          SaveAndNext();
        }
        Joined(b[1..], [buff[|b|]], p - start, pos - p, Scan(input[pos..], del, linenumber));
        assert buff[1..] == b[1..] + [buff[|b|]];
      }
      ScanStep(input, pos, del, linenumber);
      SaveAndNext();
      assert buff[1..|buff| - 1] + "" == buff[1..|buff| - 1];
      r := Scanned(buff[1..|buff| - 1], pos - start, linenumber);
    }
  }

  lemma SkipNothing(r: Scanned)
    ensures Prepend([], 0, r) == r
  {
    if r.Scanned? { assert [] + r.text == r.text; }
  }

  lemma Joined(a: string, b: string, m: nat, n: nat, r: Scanned)
    ensures Prepend(a, m, Prepend(b, n, r)) == Prepend(a + b, m + n, r)
  {
    if r.Scanned? { assert a + (b + r.text) == a + b + r.text; }
  }

  /** Scan at position pos of the input, case by case. */
  lemma ScanStep(input: string, pos: nat, del: char, line: nat)
    requires pos <= |input| && del != '\\'
    ensures var t := input[pos..]; var r := Scan(t, del, line);
            if t == [] then r == Unfinished
            else if t[0] == del then r == Scanned("", 1, line)
            else if IsNewline(t[0]) then r == Unfinished
            else if t[0] != '\\' then r == Prepend([t[0]], 1, Scan(input[pos + 1..], del, line))
            else if |t| == 1 then r == Unfinished
            else if IsEscape(t[1]) then r == Prepend([Escape(t[1])], 2, Scan(input[pos + 2..], del, line))
            else if IsNewline(t[1]) then
              var n := 1 + LineEnd(input[pos + 1..]);
              r == if line + 1 >= MAX_INT then TooManyLines else Prepend("\n", n, Scan(input[pos + n..], del, line + 1))
            else if !IsDigit(t[1]) then r == Prepend([t[1]], 2, Scan(input[pos + 2..], del, line))
            else
              var k := Digits(input[pos + 1..], 3);
              var c := Number(input[pos + 1..][..k]);
              r == if c > UCHAR_MAX then TooLarge
                  else Prepend([c as char], 1 + k, Scan(input[pos + 1 + k..], del, line))
  {
    var t := input[pos..];
    if t != [] {
      assert t[1..] == input[pos + 1..];
      assert forall n :: 0 <= n <= |t| ==> t[n..] == input[pos + n..];
      if |t| > 1 {
        var k := Digits(t[1..], 3);
        assert t[1..1 + k] == input[pos + 1..][..k];
      }
    }
  }

  // ----- the round trip -----

  lemma BodyStart(s: string, rest: string)
    requires rest != [] && !IsNewline(rest[0])
    ensures Body(s) + rest != [] && !IsNewline((Body(s) + rest)[0])
  {
    if s != [] { assert (Body(s) + rest)[0] == QuoteChar(s[0])[0]; }
  }

  /** One quoted byte is read back, when what follows a quoted newline does not pair with it. */
  lemma QuoteOne(c: char, rest: string, line: nat)
    requires rest != [] && !IsNewline(rest[0])
    ensures Scan(QuoteChar(c) + rest, '"', line) ==
            if c != '\n' then Prepend([c], |QuoteChar(c)|, Scan(rest, '"', line))
            else if line + 1 >= MAX_INT then TooManyLines
            else Prepend([c], |QuoteChar(c)|, Scan(rest, '"', line + 1))
  {
    var q := QuoteChar(c);
    var t := q + rest;
    assert t[|q|..] == rest;
    if c == '\n' {
      assert t[1..][1] == rest[0];
      assert LineEnd(t[1..]) == 1;
    } else if c == '\0' {
      ZeroEscape(t, rest);
    }
  }

  /** What follows the opening quote of a quoted s. */
  function Quoted(s: string, rest: string): string {
    Body(s) + "\"" + rest
  }

  lemma QuotedEmpty(rest: string, line: nat)
    ensures Scan(Quoted("", rest), '"', line) == Scanned("", 1, line) && Body("") == "" && Newlines("") == 0
  {
    var t := Quoted("", rest);
    assert t[0] == '"';
  }

  lemma QuotedCons(s: string, rest: string)
    requires s != []
    ensures Quoted(s, rest) == QuoteChar(s[0]) + Quoted(s[1..], rest)
  {
    var q, b := QuoteChar(s[0]), Body(s[1..]);
    hide QuoteChar, Body;
    Associates(q, b, "\"", rest);
  }

  lemma Associates(a: string, b: string, c: string, d: string)
    ensures (a + b) + c + d == a + (b + c + d)
  {
  }

  lemma QuotedSizes(s: string)
    requires s != []
    ensures |Body(s)| == |QuoteChar(s[0])| + |Body(s[1..])| && s == [s[0]] + s[1..]
    ensures Newlines(s) == (if s[0] == '\n' then 1 else 0) + Newlines(s[1..])
  {
  }

  lemma QuotedStart(s: string, rest: string)
    ensures Quoted(s, rest) != [] && !IsNewline(Quoted(s, rest)[0])
  {
    BodyStart(s, "\"" + rest);
    assert Quoted(s, rest) == Body(s) + ("\"" + rest);
  }

  /** Whether the lexer can count the lines of s. */
  predicate LinesFit(s: string, line: nat) {
    Newlines(s) == 0 || line + Newlines(s) < MAX_INT
  }

  /** Quoting and then reading gives the same bytes, whatever they are and whatever follows,
      exactly when the line counter does not run over. */
  lemma {:induction false} QuoteRead(s: string, rest: string, line: nat)
    ensures Scan(Quoted(s, rest), '"', line) ==
            if LinesFit(s, line) then Scanned(s, |Body(s)| + 1, line + Newlines(s)) else TooManyLines
    decreases |s|
  {
    hide Scan, Body, QuoteChar, Newlines, IsNewline, Quoted;
    if s == "" {
      QuotedEmpty(rest, line);
    } else {
      QuotedCons(s, rest);
      QuotedSizes(s);
      QuotedStart(s[1..], rest);
      QuoteOne(s[0], Quoted(s[1..], rest), line);
      QuoteRead(s[1..], rest, line + if s[0] == '\n' then 1 else 0);
    }
  }

  /** string.format with %q, and the lexer on what it wrote: next is where the lexer stands. */
  method QuoteThenRead(s: string, rest: string, line: nat) returns (b: string, r: Scanned, next: nat)
    ensures b == "\"" + Body(s) + "\""
    ensures LinesFit(s, line) ==> r == Scanned(s, |b| - 1, line + Newlines(s)) && next == |b|
    ensures !LinesFit(s, line) ==> r == TooManyLines
  {
    hide Body, Scan, Newlines, LinesFit;
    b := AddQuoted(s);
    var ls := new Lexer(b + rest, 0, line);
    assert (b + rest)[1..] == Quoted(s, rest);
    QuoteRead(s, rest, line);
    r := ls.ReadString('"');
    next := ls.pos;
  }

  lemma ZeroEscape(t: string, rest: string)
    requires t == "\\000" + rest
    ensures Digits(t[1..], 3) == 3 && Number(t[1..4]) == 0 && !IsEscape(t[1]) && !IsNewline(t[1]) && IsDigit(t[1])
  {
    assert t[1..][1..] == t[2..] && t[2..][1..] == t[3..] && t[1] == t[2] == t[3] == '0';
    assert Digits(t[3..], 1) == 1;
    assert Digits(t[2..], 2) == 2;
    var d := t[1..4];
    assert d == "000" && d[..2] == "00" && "00"[..1] == "0" && "0"[..0] == "";
    assert Number("0") == 0;
    assert Number("00") == 0;
  }
}
