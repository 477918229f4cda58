/** Patterns as trees: how each piece is written, and what it matches, with every character and
    every range written out (section 5.4.1 of the Lua 5.1 Reference Manual). */
module PatternText {
  import opened Common
  import opened PatternSpec
  import opened PatternResults
  import opened PatternProof

  /** What stands in a set. */
  datatype Member = Named(l: char) | Between(lo: char, hi: char) | Just(c: char)

  /** What matches one character. */
  datatype One = Any | Plain(c: char) | Escaped(c: char) | Among(complement: bool, members: seq<Member>)

  datatype Rep = Once | AtMostOnce | Greedily | AtLeastOnce | Lazily

  datatype Piece =
    | Several(one: One, rep: Rep)
    | Open | Shut | Here
    | Balance(x: char, y: char)
    | Frontier(complement: bool, members: seq<Member>)
    | Copy(d: char)

  // ----- how they are written -----

  function MemberText(m: Member): string {
    match m
    case Named(l) => ['%', l]
    case Between(lo, hi) => [lo, '-', hi]
    case Just(c) => [c]
  }

  function MembersText(ms: seq<Member>): string {
    if ms == [] then "" else MemberText(ms[0]) + MembersText(ms[1..])
  }

  function SetText(complement: bool, ms: seq<Member>): string {
    (if complement then "[^" else "[") + (MembersText(ms) + "]")
  }

  function OneText(o: One): string {
    match o
    case Any => "."
    case Plain(c) => [c]
    case Escaped(c) => ['%', c]
    case Among(complement, ms) => SetText(complement, ms)
  }

  function RepText(rep: Rep): string {
    match rep
    case Once => ""
    case AtMostOnce => "?"
    case Greedily => "*"
    case AtLeastOnce => "+"
    case Lazily => "-"
  }

  function PieceText(p: Piece): string {
    match p
    case Several(o, rep) => OneText(o) + RepText(rep)
    case Open => "("
    case Shut => ")"
    case Here => "()"
    case Balance(x, y) => ['%', 'b', x, y]
    case Frontier(complement, ms) => "%f" + SetText(complement, ms)
    case Copy(d) => ['%', d]
  }

  /** The pattern; with a dollar when it is to match up to the end. */
  function Text(ps: seq<Piece>, atEnd: bool): string {
    if ps == [] then (if atEnd then "$" else "") else PieceText(ps[0]) + Text(ps[1..], atEnd)
  }

  // ----- what reads as it is meant -----

  /** A member before the rest of its set; the first one may be a bracket. */
  predicate MemberOk(m: Member, rest: string, first: bool, complement: bool) {
    match m
    case Named(l) => l != '\0'
    case Between(lo, hi) => StartOk(lo, first, complement) && hi !in "\0]%"
    case Just(c) => StartOk(c, first, complement) && (|rest| > 1 ==> rest[0] != '-')
  }

  predicate StartOk(c: char, first: bool, complement: bool) {
    c !in "\0%" && (!first ==> c != ']') && (first && !complement ==> c != '^')
  }

  predicate MembersOk(ms: seq<Member>, first: bool, complement: bool) {
    ms != [] ==> MemberOk(ms[0], MembersText(ms[1..]), first, complement) && MembersOk(ms[1..], false, complement)
  }

  predicate SetOk(complement: bool, ms: seq<Member>) {
    ms != [] && MembersOk(ms, true, complement)
  }

  /** A single character before the rest of the pattern. */
  predicate OneOk(o: One, rest: string) {
    match o
    case Any => true
    case Plain(c) => c !in "\0()%.[" && (c == '$' ==> rest != [] && rest[0] != '\0')
    case Escaped(c) => c !in "\0bf0123456789"
    case Among(complement, ms) => SetOk(complement, ms)
  }

  predicate PieceOk(p: Piece, rest: string) {
    match p
    case Several(o, rep) => OneOk(o, RepText(rep) + rest) && (rep == Once && rest != [] ==> rest[0] !in "?*+-")
    case Open => rest != [] ==> rest[0] != ')'
    case Balance(x, y) => x != '\0' && y != '\0'
    case Frontier(complement, ms) => SetOk(complement, ms)
    case Copy(d) => '0' <= d <= '9'
    case _ => true
  }

  predicate Proper(ps: seq<Piece>, atEnd: bool) {
    ps != [] ==> PieceOk(ps[0], Text(ps[1..], atEnd)) && Proper(ps[1..], atEnd)
  }

  // ----- what they match -----

  /** %l: a class for ten letters, its complement for their capitals, and l itself otherwise. */
  predicate InClass(l: char, c: char) {
    match l
    case 'a' => 'A' <= c <= 'Z' || 'a' <= c <= 'z'
    case 'A' => !('A' <= c <= 'Z' || 'a' <= c <= 'z')
    case 'c' => c <= '\U{1f}' || c == '\U{7f}'
    case 'C' => !(c <= '\U{1f}' || c == '\U{7f}')
    case 'd' => '0' <= c <= '9'
    case 'D' => !('0' <= c <= '9')
    case 'l' => 'a' <= c <= 'z'
    case 'L' => !('a' <= c <= 'z')
    case 'p' => '!' <= c <= '/' || ':' <= c <= '@' || '[' <= c <= '`' || '{' <= c <= '~'
    case 'P' => !('!' <= c <= '/' || ':' <= c <= '@' || '[' <= c <= '`' || '{' <= c <= '~')
    case 's' => c == ' ' || '\U{9}' <= c <= '\U{d}'
    case 'S' => !(c == ' ' || '\U{9}' <= c <= '\U{d}')
    case 'u' => 'A' <= c <= 'Z'
    case 'U' => !('A' <= c <= 'Z')
    case 'w' => '0' <= c <= '9' || 'A' <= c <= 'Z' || 'a' <= c <= 'z'
    case 'W' => !('0' <= c <= '9' || 'A' <= c <= 'Z' || 'a' <= c <= 'z')
    case 'x' => '0' <= c <= '9' || 'A' <= c <= 'F' || 'a' <= c <= 'f'
    case 'X' => !('0' <= c <= '9' || 'A' <= c <= 'F' || 'a' <= c <= 'f')
    case 'z' => c == '\U{0}'
    case 'Z' => c != '\U{0}'
    case _ => c == l
  }

  predicate MemberHas(m: Member, c: char) {
    match m
    case Named(l) => InClass(l, c)
    case Between(lo, hi) => lo <= c <= hi
    case Just(x) => c == x
  }

  predicate SetHas(ms: seq<Member>, c: char) {
    exists i :: 0 <= i < |ms| && MemberHas(ms[i], c)
  }

  predicate Has(o: One, c: char) {
    match o
    case Any => true
    case Plain(x) => c == x
    case Escaped(l) => InClass(l, c)
    case Among(complement, ms) => SetHas(ms, c) != complement
  }

  predicate Often(rep: Rep, k: nat) {
    match rep
    case Once => k == 1
    case AtMostOnce => k <= 1
    case AtLeastOnce => k >= 1
    case _ => true
  }

  /** The next k characters are of this kind. */
  predicate Next(src: string, s: nat, k: nat, o: One) {
    s + k <= |src| && forall i :: s <= i < s + k ==> Has(o, src[i])
  }

  /** The pieces match the subject from s to e; cs are the captures then. */
  ghost predicate Denotes(src: string, ps: seq<Piece>, atEnd: bool, s: nat, caps: seq<Capture>, e: nat,
      cs: seq<Capture>)
    requires s <= |src|
    decreases |ps|
  {
    if ps == [] then e == s && cs == caps && (atEnd ==> s == |src|)
    else
      var rest := ps[1..];
      match ps[0]
      case Several(o, rep) =>
        exists k: nat :: Often(rep, k) && Next(src, s, k, o) && Denotes(src, rest, atEnd, s + k, caps, e, cs)
      case Open => |caps| < 32 && Denotes(src, rest, atEnd, s, caps + [Capture(s, Unfinished)], e, cs)
      case Here => |caps| < 32 && Denotes(src, rest, atEnd, s, caps + [Capture(s, Position)], e, cs)
      case Shut =>
        exists l: nat ::
          && l < |caps| && caps[l].len.Unfinished? && caps[l].init <= s
          && (forall i :: l < i < |caps| ==> !caps[i].len.Unfinished?)
          && Denotes(src, rest, atEnd, s, caps[l := Capture(caps[l].init, Size(s - caps[l].init))], e, cs)
      case Balance(x, y) =>
        exists r: nat :: Balanced(src, s, r, x, y) && Denotes(src, rest, atEnd, r, caps, e, cs)
      case Frontier(complement, ms) =>
        && SetHas(ms, if s == 0 then '\0' else src[s - 1]) == complement
        && SetHas(ms, if s == |src| then '\0' else src[s]) != complement
        && Denotes(src, rest, atEnd, s, caps, e, cs)
      case Copy(d) =>
        '1' <= d <= '9' &&
        var i := (d - '1') as nat;
        i < |caps| && exists r: nat :: SameText(src, s, r, caps[i]) && Denotes(src, rest, atEnd, r, caps, e, cs)
  }

  // ----- single characters -----

  lemma LowerOf(cl: char)
    ensures 'A' <= cl <= 'Z' ==> ToLower(cl) as int == cl as int + 32
    ensures !('A' <= cl <= 'Z') ==> ToLower(cl) == cl
  {
  }

  /** match_class is what the manual says of the letter. */
  lemma ClassIs(c: char, cl: char)
    ensures MatchClass(c, cl) <==> InClass(cl, c)
  {
    LowerOf(cl);
    hide ToLower;
  }

  /** The ten classes, as single-character items. */
  lemma ClassLetters(c: char)
    ensures SingleMatch(c, "%a", 0, 2) <==> 'A' <= c <= 'Z' || 'a' <= c <= 'z'
    ensures SingleMatch(c, "%c", 0, 2) <==> c <= '\U{1f}' || c == '\U{7f}'
    ensures SingleMatch(c, "%d", 0, 2) <==> '0' <= c <= '9'
    ensures SingleMatch(c, "%l", 0, 2) <==> 'a' <= c <= 'z'
    ensures SingleMatch(c, "%p", 0, 2) <==>
        '!' <= c <= '/' || ':' <= c <= '@' || '[' <= c <= '`' || '{' <= c <= '~'
    ensures SingleMatch(c, "%s", 0, 2) <==> c == ' ' || '\U{9}' <= c <= '\U{d}'
    ensures SingleMatch(c, "%u", 0, 2) <==> 'A' <= c <= 'Z'
    ensures SingleMatch(c, "%w", 0, 2) <==> '0' <= c <= '9' || 'A' <= c <= 'Z' || 'a' <= c <= 'z'
    ensures SingleMatch(c, "%x", 0, 2) <==> '0' <= c <= '9' || 'A' <= c <= 'F' || 'a' <= c <= 'f'
    ensures SingleMatch(c, "%z", 0, 2) <==> c == '\U{0}'
  {
    hide MatchClass;
    forall l: char | l != '\0' ensures SingleMatch(c, ['%', l], 0, 2) <==> InClass(l, c) { ClassIs(c, l); }
    assert "%a" == ['%', 'a'] && "%c" == ['%', 'c'] && "%d" == ['%', 'd'] && "%l" == ['%', 'l'] && "%p" == ['%', 'p'];
    assert "%s" == ['%', 's'] && "%u" == ['%', 'u'] && "%w" == ['%', 'w'] && "%x" == ['%', 'x'] && "%z" == ['%', 'z'];
  }

  /** A capital is the complement, and any other character after a percent sign stands for itself. */
  lemma ClassOthers(c: char, l: char, u: char)
    requires l != '\0'
    ensures l in "acdlpsuwxz" && u as int == l as int - 32 ==>
        (SingleMatch(c, ['%', u], 0, 2) <==> !SingleMatch(c, ['%', l], 0, 2))
    ensures l !in "acdlpsuwxzACDLPSUWXZ" ==> (SingleMatch(c, ['%', l], 0, 2) <==> c == l)
  {
    hide MatchClass;
    ClassIs(c, l);
    if u != '\0' { ClassIs(c, u); }
  }

  lemma MemberIs(it: Item, m: Member, c: char)
    requires it == match m { case Named(l) => Class(l) case Between(lo, hi) => Range(lo, hi) case Just(x) => Single(x) }
    ensures ItemHas(it, c) <==> MemberHas(m, c)
  {
    hide MatchClass, InClass;
    if m.Named? { ClassIs(c, m.l); }
  }

  // ----- sets -----

  /** The pattern holds t at position p. */
  predicate Stands(pat: string, p: nat, t: string) {
    p + |t| <= |pat| && pat[p..p + |t|] == t
  }

  lemma Parts(pat: string, p: nat, a: string, b: string)
    requires Stands(pat, p, a + b)
    ensures Stands(pat, p, a) && Stands(pat, p + |a|, b)
  {
    assert pat[p..p + |a + b|][..|a|] == a;
    assert pat[p..p + |a + b|][|a|..] == b;
  }

  lemma CharAt(pat: string, p: nat, t: string, i: nat)
    requires Stands(pat, p, t) && i < |t|
    ensures pat[p + i] == t[i]
  {
    assert pat[p..p + |t|][i] == t[i];
  }

  function ItemOf(m: Member): Item {
    match m
    case Named(l) => Class(l)
    case Between(lo, hi) => Range(lo, hi)
    case Just(c) => Single(c)
  }

  lemma ItemReads(pat: string, q: nat, m: Member, rest: string, first: bool, complement: bool)
    requires Stands(pat, q, MemberText(m) + rest) && q + |MemberText(m) + rest| < |pat|
    requires MemberOk(m, rest, first, complement) && pat[q + |MemberText(m) + rest|] == ']'
    ensures ItemAt(pat, q, q + |MemberText(m) + rest|) == (ItemOf(m), q + |MemberText(m)|)
  {
    var t := MemberText(m) + rest;
    forall i: nat | i < |t| ensures pat[q + i] == t[i] { CharAt(pat, q, t, i); }
    assert pat[q + 0] == t[0];
    assert |t| > 1 ==> pat[q + 1] == t[1];
    assert |t| > 2 ==> pat[q + 2] == t[2];
  }

  /** The items of a set are its members. */
  lemma {:induction false} MembersIs(pat: string, q: nat, ms: seq<Member>, first: bool, complement: bool, c: char)
    requires Stands(pat, q, MembersText(ms)) && q + |MembersText(ms)| < |pat| && pat[q + |MembersText(ms)|] == ']'
    requires MembersOk(ms, first, complement)
    ensures SomeItem(SetItems(pat, q, q + |MembersText(ms)|), c) <==> SetHas(ms, c)
    decreases |ms|
  {
    hide SomeItem, SetItems, ItemHas, ItemAt, MemberHas, SetHas, MemberOk;
    var ec := q + |MembersText(ms)|;
    SetStep(pat, q, ec, c);
    HasFirst(ms, c);
    if ms != [] {
      Parts(pat, q, MemberText(ms[0]), MembersText(ms[1..]));
      ItemReads(pat, q, ms[0], MembersText(ms[1..]), first, complement);
      MembersIs(pat, q + |MemberText(ms[0])|, ms[1..], false, complement, c);
      MemberIs(ItemOf(ms[0]), ms[0], c);
    }
  }

  lemma HasFirst(ms: seq<Member>, c: char)
    ensures SetHas(ms, c) <==> ms != [] && (MemberHas(ms[0], c) || SetHas(ms[1..], c))
  {
    if i :| 0 <= i < |ms| && MemberHas(ms[i], c) { assert i > 0 ==> MemberHas(ms[1..][i - 1], c); }
    if ms != [] {
      if i :| 0 <= i < |ms[1..]| && MemberHas(ms[1..][i], c) { assert MemberHas(ms[i + 1], c); }
    }
  }

  /** classend finds the closing bracket. */
  lemma {:induction false} BracketIs(pat: string, q: nat, ms: seq<Member>, first: bool, complement: bool)
    requires Stands(pat, q, MembersText(ms)) && q + |MembersText(ms)| < |pat| && pat[q + |MembersText(ms)|] == ']'
    requires MembersOk(ms, first, complement) && ms != []
    ensures BracketEnd(pat, q) == Some(q + |MembersText(ms)| + 1)
    decreases |ms|
  {
    hide BracketEnd, StartOk, MemberOk, Stands, MemberText;
    var m, rest := ms[0], ms[1..];
    Parts(pat, q, MemberText(m), MembersText(rest));
    var q1 := q + |MemberText(m)|;
    MemberSkipped(pat, q, m, MembersText(rest), first, complement);
    if rest != [] {
      BracketIs(pat, q1, rest, false, complement);
      NoBracket(rest, complement);
      CharAt(pat, q1, MembersText(rest), 0);
    }
  }

  lemma NoBracket(ms: seq<Member>, complement: bool)
    requires MembersOk(ms, false, complement) && ms != []
    ensures MembersText(ms) != [] && MembersText(ms)[0] != ']'
  {
  }

  lemma MemberSkipped(pat: string, q: nat, m: Member, rest: string, first: bool, complement: bool)
    requires Stands(pat, q, MemberText(m)) && q + |MemberText(m)| < |pat| && MemberOk(m, rest, first, complement)
    ensures var q1 := q + |MemberText(m)|;
            BracketEnd(pat, q) == if pat[q1] == ']' then Some(q1 + 1) else BracketEnd(pat, q1)
  {
    var t := MemberText(m);
    CharAt(pat, q, t, 0);
    if m.Named? {
      CharAt(pat, q, t, 1);
    } else if m.Between? {
      CharAt(pat, q, t, 1);
      CharAt(pat, q, t, 2);
      assert BracketEnd(pat, q) == BracketEnd(pat, q + 1);
      assert BracketEnd(pat, q + 1) == BracketEnd(pat, q + 2);
    }
  }

  lemma SetParts(pat: string, p: nat, complement: bool, ms: seq<Member>)
    requires Stands(pat, p, SetText(complement, ms)) && SetOk(complement, ms)
    ensures p + 1 < |pat| && pat[p] == '[' && Negated(pat, p) == complement
    ensures var q := SetStart(pat, p);
            && Stands(pat, q, MembersText(ms)) && q + |MembersText(ms)| + 1 == p + |SetText(complement, ms)| <= |pat|
            && pat[q + |MembersText(ms)|] == ']'
  {
    var head := if complement then "[^" else "[";
    var body := MembersText(ms);
    MembersStart(ms, complement);
    hide SetOk, MembersText, Stands;
    Parts(pat, p, head, body + "]");
    var q := p + |head|;
    Parts(pat, q, body, "]");
    CharAt(pat, p, head, 0);
    CharAt(pat, q + |body|, "]", 0);
    CharAt(pat, q, body, 0);
    if complement { CharAt(pat, p, head, 1); }
    WithinText(pat, q, body + "]");
  }

  lemma MembersStart(ms: seq<Member>, complement: bool)
    requires SetOk(complement, ms)
    ensures MembersText(ms) != [] && (!complement ==> MembersText(ms)[0] != '^')
  {
  }

  lemma WithinText(pat: string, p: nat, t: string)
    requires Stands(pat, p, t)
    ensures p + |t| <= |pat|
  {
  }

  /** A set, from its opening to its closing bracket. */
  lemma SetIs(pat: string, p: nat, complement: bool, ms: seq<Member>, c: char)
    requires Stands(pat, p, SetText(complement, ms)) && SetOk(complement, ms)
    ensures p + 1 < |pat| && pat[p] == '[' && ClassEnd(pat, p) == Some(p + |SetText(complement, ms)|)
    ensures InSet(c, pat, p, p + |SetText(complement, ms)| - 1) <==> SetHas(ms, c) != complement
  {
    hide BracketEnd, SomeItem, SetItems, SetHas, SetText, Stands, MembersText, MembersOk;
    SetParts(pat, p, complement, ms);
    BracketIs(pat, SetStart(pat, p), ms, true, complement);
    MembersIs(pat, SetStart(pat, p), ms, true, complement, c);
  }

  /** [x-y] has the characters from x to y. */
  lemma RangeSet(c: char, x: char, y: char)
    requires x !in "\0%^" && y !in "\0]%"
    ensures var t := ['[', x, '-', y, ']'];
            ClassEnd(t, 0) == Some(5) && (SingleMatch(c, t, 0, 5) <==> x <= c <= y)
  {
    var t, ms := ['[', x, '-', y, ']'], [Between(x, y)];
    assert ms[1..] == [] && MembersText([]) == "";
    assert MembersText(ms) == [x, '-', y];
    assert SetText(false, ms) == t && t[0..5] == t;
    assert MembersOk([], false, false) && MembersOk(ms, true, false);
    SetIs(t, 0, false, ms, c);
    HasFirst(ms, c);
  }

  // ----- pieces -----

  /** A single character is read as an item, and matches what it should. */
  lemma OneIs(pat: string, p: nat, o: One, rest: string, c: char)
    requires Stands(pat, p, OneText(o) + rest) && p + |OneText(o) + rest| == |pat| && OneOk(o, rest)
    ensures p < |pat| && KindAt(pat, p) == KItem && ClassEnd(pat, p) == Some(p + |OneText(o)|)
    ensures SingleMatch(c, pat, p, p + |OneText(o)|) <==> Has(o, c)
  {
    hide InSet, SetHas, MatchClass, InClass, BracketEnd, SetOk, MembersText, BracketEnd, Stands;
    var t := OneText(o) + rest;
    Parts(pat, p, OneText(o), rest);
    CharAt(pat, p, t, 0);
    if |t| > 1 { CharAt(pat, p, t, 1); }
    match o
    case Any =>
    case Plain(x) =>
    case Escaped(l) => ClassIs(c, l);
    case Among(complement, ms) => SetIs(pat, p, complement, ms, c);
  }

  /** What may follow an item decides how it is repeated. */
  lemma RepIs(pat: string, p: nat, rep: Rep, rest: string, k: nat)
    requires Stands(pat, p, RepText(rep) + rest) && p + |RepText(rep) + rest| == |pat|
    requires rep == Once && rest != [] ==> rest[0] !in "?*+-"
    ensures IsMark(At(pat, p)) <==> rep != Once
    ensures Times(At(pat, p), k) <==> Often(rep, k)
  {
    var t := RepText(rep) + rest;
    if t != [] { CharAt(pat, p, t, 0); }
  }

  lemma {:induction false} SeveralIs(src: string, pat: string, p: nat, o: One, rep: Rep, rest: string, s: nat, k: nat)
    requires Stands(pat, p, OneText(o) + (RepText(rep) + rest)) && p + |OneText(o) + (RepText(rep) + rest)| == |pat|
    requires OneOk(o, RepText(rep) + rest) && (rep == Once && rest != [] ==> rest[0] !in "?*+-")
    ensures p < |pat| && KindAt(pat, p) == KItem && ClassEnd(pat, p) == Some(p + |OneText(o)|)
    ensures var ep := p + |OneText(o)|;
            && (IsMark(At(pat, ep)) <==> rep != Once) && (Times(At(pat, ep), k) <==> Often(rep, k))
            && (Reps(src, pat, p, ep, s, k) <==> Next(src, s, k, o))
  {
    hide KindAt, ClassEnd, SingleMatch, Has, Times, IsMark, Often, OneOk;
    Parts(pat, p, OneText(o), RepText(rep) + rest);
    RepIs(pat, p + |OneText(o)|, rep, rest, k);
    OneIs(pat, p, o, RepText(rep) + rest, ' ');
    forall i | s <= i < s + k && i < |src| ensures SingleMatch(src[i], pat, p, p + |OneText(o)|) <==> Has(o, src[i]) {
      OneIs(pat, p, o, RepText(rep) + rest, src[i]);
    }
  }

  lemma KindIs(pat: string, p: nat, pc: Piece, rest: string)
    requires Stands(pat, p, PieceText(pc) + rest) && p + |PieceText(pc) + rest| == |pat| && PieceOk(pc, rest)
    requires !pc.Several?
    ensures p + |PieceText(pc)| <= |pat|
    ensures KindAt(pat, p) ==
        match pc {
          case Open => KOpen(p + 1, Unfinished)
          case Here => KOpen(p + 2, Position)
          case Shut => KClose
          case Balance(_, _) => KBalance
          case Frontier(_, _) => KFrontier
          case Copy(_) => KCopy
          case Several(_, _) => KItem
        }
    ensures pc.Balance? ==>
        p + 3 < |pat| && pat[p + 2] == pc.x && pat[p + 3] == pc.y && pc.x != '\0' && pc.y != '\0'
    ensures pc.Frontier? ==> SetOk(pc.complement, pc.members)
    ensures pc.Copy? ==> p + 1 < |pat| && pat[p + 1] == pc.d
  {
    hide MembersText;
    var t := PieceText(pc) + rest;
    CharAt(pat, p, t, 0);
    if |t| > 1 { CharAt(pat, p, t, 1); }
    if pc.Balance? {
      CharAt(pat, p, t, 2);
      CharAt(pat, p, t, 3);
    }
  }

  /** What follows a piece. */
  lemma After(pat: string, p: nat, ps: seq<Piece>, atEnd: bool)
    requires Stands(pat, p, Text(ps, atEnd)) && p + |Text(ps, atEnd)| == |pat| && ps != []
    ensures var t := Text(ps[1..], atEnd);
            && Text(ps, atEnd) == PieceText(ps[0]) + t
            && Stands(pat, p, PieceText(ps[0])) && Stands(pat, p + |PieceText(ps[0])|, t)
            && p + |PieceText(ps[0])| + |t| == |pat|
  {
    Parts(pat, p, PieceText(ps[0]), Text(ps[1..], atEnd));
  }

  /** The matcher's relation is what the tree means, for every pattern that is written from one. */
  lemma {:induction false} TextMeans(src: string, pat: string, p: nat, ps: seq<Piece>, atEnd: bool, s: nat,
      caps: seq<Capture>, e: nat, cs: seq<Capture>)
    requires Stands(pat, p, Text(ps, atEnd)) && p + |Text(ps, atEnd)| == |pat| && Proper(ps, atEnd)
    requires s <= |src| && CapsOk(src, s, caps)
    ensures Matches(src, pat, p, s, caps, e, cs) <==> Denotes(src, ps, atEnd, s, caps, e, cs)
    decreases |ps|
  {
    hide KindAt, ClassEnd, InSet, SetHas, SingleMatch, Text, Stands, PieceOk, Balanced, SameText, CapsOk;
    if ps == [] {
      EndMeans(src, pat, p, atEnd, s, caps, e, cs);
    } else {
      After(pat, p, ps, atEnd);
      var q, rest := p + |PieceText(ps[0])|, ps[1..];
      assert RestMeans(src, pat, q, rest, atEnd, e, cs) by {
        forall r: nat, cs1: seq<Capture> | r <= |src| && CapsOk(src, r, cs1)
            ensures Matches(src, pat, q, r, cs1, e, cs) <==> Denotes(src, rest, atEnd, r, cs1, e, cs) {
          TextMeans(src, pat, q, rest, atEnd, r, cs1, e, cs);
        }
      }
      PieceMeans(src, pat, p, ps, atEnd, s, caps, e, cs);
    }
  }

  lemma EndMeans(src: string, pat: string, p: nat, atEnd: bool, s: nat, caps: seq<Capture>, e: nat, cs: seq<Capture>)
    requires Stands(pat, p, Text([], atEnd)) && p + |Text([], atEnd)| == |pat|
    requires s <= |src| && CapsOk(src, s, caps)
    ensures Matches(src, pat, p, s, caps, e, cs) <==> Denotes(src, [], atEnd, s, caps, e, cs)
  {
    if atEnd { CharAt(pat, p, "$", 0); }
  }

  ghost predicate RestMeans(src: string, pat: string, q: nat, rest: seq<Piece>, atEnd: bool, e: nat, cs: seq<Capture>)
    requires q <= |pat|
  {
    forall r: nat, cs1: seq<Capture> :: r <= |src| && CapsOk(src, r, cs1) ==>
        (Matches(src, pat, q, r, cs1, e, cs) <==> Denotes(src, rest, atEnd, r, cs1, e, cs))
  }

  lemma PieceMeans(src: string, pat: string, p: nat, ps: seq<Piece>, atEnd: bool, s: nat, caps: seq<Capture>, e: nat,
      cs: seq<Capture>)
    requires ps != [] && Stands(pat, p, Text(ps, atEnd)) && p + |Text(ps, atEnd)| == |pat| && Proper(ps, atEnd)
    requires s <= |src| && CapsOk(src, s, caps) && p + |PieceText(ps[0])| <= |pat|
    requires RestMeans(src, pat, p + |PieceText(ps[0])|, ps[1..], atEnd, e, cs)
    ensures Matches(src, pat, p, s, caps, e, cs) <==> Denotes(src, ps, atEnd, s, caps, e, cs)
  {
    hide ClassEnd, InSet, SetHas, SingleMatch, Text, Stands, Balanced, SameText, KindAt, CapsOk, RestMeans, PieceOk;
    After(pat, p, ps, atEnd);
    if ps[0].Several? {
      SeveralMeans(src, pat, p, ps, atEnd, s, caps, e, cs);
    } else {
      KindIs(pat, p, ps[0], Text(ps[1..], atEnd));
      match ps[0]
      case Open => OpenMeans(src, pat, p + 1, ps[1..], atEnd, s, caps, Unfinished, e, cs);
      case Here => OpenMeans(src, pat, p + 2, ps[1..], atEnd, s, caps, Position, e, cs);
      case Shut => ShutMeans(src, pat, p, ps, atEnd, s, caps, e, cs);
      case Balance(x, y) => BalanceMeans(src, pat, p, ps, atEnd, s, caps, e, cs);
      case Frontier(_, _) => FrontierMeans(src, pat, p, ps, atEnd, s, caps, e, cs);
      case Copy(_) => CopyMeans(src, pat, p, ps, atEnd, s, caps, e, cs);
    }
  }

  lemma OpenMeans(src: string, pat: string, q: nat, rest: seq<Piece>, atEnd: bool, s: nat, caps: seq<Capture>,
      what: Len, e: nat, cs: seq<Capture>)
    requires s <= |src| && CapsOk(src, s, caps) && q <= |pat| && !what.Size?
    requires RestMeans(src, pat, q, rest, atEnd, e, cs)
    ensures |caps| < 32 ==>
        (Matches(src, pat, q, s, caps + [Capture(s, what)], e, cs) <==>
         Denotes(src, rest, atEnd, s, caps + [Capture(s, what)], e, cs))
  {
    hide Matches, Denotes;
    if |caps| < 32 { OpenOk(src, s, caps, what); }
  }

  lemma ShutMeans(src: string, pat: string, p: nat, ps: seq<Piece>, atEnd: bool, s: nat, caps: seq<Capture>, e: nat,
      cs: seq<Capture>)
    requires s <= |src| && CapsOk(src, s, caps) && p < |pat| && ps != [] && ps[0].Shut? && KindAt(pat, p) == KClose
    requires RestMeans(src, pat, p + 1, ps[1..], atEnd, e, cs)
    ensures Matches(src, pat, p, s, caps, e, cs) <==> Denotes(src, ps, atEnd, s, caps, e, cs)
  {
    hide KindAt;
    forall l: nat | l < |caps|
        ensures caps[l].init <= s && CapsOk(src, s, Closing(s, caps, l)) { CloseOk(src, s, caps, l); }
  }

  lemma BalanceMeans(src: string, pat: string, p: nat, ps: seq<Piece>, atEnd: bool, s: nat, caps: seq<Capture>, e: nat,
      cs: seq<Capture>)
    requires s <= |src| && CapsOk(src, s, caps) && ps != [] && ps[0].Balance? && ps[0].x != '\0' && ps[0].y != '\0'
    requires p + 3 < |pat| && KindAt(pat, p) == KBalance && pat[p + 2] == ps[0].x && pat[p + 3] == ps[0].y
    requires RestMeans(src, pat, p + 4, ps[1..], atEnd, e, cs)
    ensures Matches(src, pat, p, s, caps, e, cs) <==> Denotes(src, ps, atEnd, s, caps, e, cs)
  {
    hide KindAt;
    forall r: nat | s <= r <= |src| ensures CapsOk(src, r, caps) { LaterOk(src, s, r, caps); }
  }

  lemma FrontierMeans(src: string, pat: string, p: nat, ps: seq<Piece>, atEnd: bool, s: nat, caps: seq<Capture>,
      e: nat, cs: seq<Capture>)
    requires s <= |src| && CapsOk(src, s, caps) && ps != [] && ps[0].Frontier?
    requires SetOk(ps[0].complement, ps[0].members)
    requires Stands(pat, p, PieceText(ps[0])) && KindAt(pat, p) == KFrontier
    requires p + |PieceText(ps[0])| <= |pat| && RestMeans(src, pat, p + |PieceText(ps[0])|, ps[1..], atEnd, e, cs)
    ensures Matches(src, pat, p, s, caps, e, cs) <==> Denotes(src, ps, atEnd, s, caps, e, cs)
  {
    hide KindAt, ClassEnd, InSet, SetHas, SetText, SetOk, Stands, CapsOk, MembersText;
    var t := SetText(ps[0].complement, ps[0].members);
    Parts(pat, p, "%f", t);
    SetIs(pat, p + 2, ps[0].complement, ps[0].members, Previous(src, s));
    SetIs(pat, p + 2, ps[0].complement, ps[0].members, At(src, s));
  }

  lemma CopyMeans(src: string, pat: string, p: nat, ps: seq<Piece>, atEnd: bool, s: nat, caps: seq<Capture>, e: nat,
      cs: seq<Capture>)
    requires s <= |src| && CapsOk(src, s, caps) && ps != [] && ps[0].Copy?
    requires p + 1 < |pat| && KindAt(pat, p) == KCopy && pat[p + 1] == ps[0].d
    requires RestMeans(src, pat, p + 2, ps[1..], atEnd, e, cs)
    ensures Matches(src, pat, p, s, caps, e, cs) <==> Denotes(src, ps, atEnd, s, caps, e, cs)
  {
    hide KindAt;
    forall r: nat | s <= r <= |src| ensures CapsOk(src, r, caps) { LaterOk(src, s, r, caps); }
  }

  lemma SeveralMeans(src: string, pat: string, p: nat, ps: seq<Piece>, atEnd: bool, s: nat, caps: seq<Capture>, e: nat,
      cs: seq<Capture>)
    requires s <= |src| && CapsOk(src, s, caps) && ps != [] && ps[0].Several?
    requires Stands(pat, p, Text(ps, atEnd)) && p + |Text(ps, atEnd)| == |pat| && Proper(ps, atEnd)
    requires p + |PieceText(ps[0])| <= |pat| && RestMeans(src, pat, p + |PieceText(ps[0])|, ps[1..], atEnd, e, cs)
    ensures Matches(src, pat, p, s, caps, e, cs) <==> Denotes(src, ps, atEnd, s, caps, e, cs)
  {
    hide ClassEnd, SingleMatch, Stands, KindAt, CapsOk, RestMeans, SameRound, IsMark, Matches, Denotes, OneText, Text,
        Proper, PieceText;
    var ep, q := p + |OneText(ps[0].one)|, p + |PieceText(ps[0])|;
    SeveralStarts(pat, p, ps, atEnd, ep);
    forall k: nat ensures SameRound(src, pat, p, ep, s, ps[0].one, ps[0].rep, k) {
      RoundIs(src, pat, p, ps, atEnd, ep, s, k);
    }
    SeveralUnfolds(src, pat, p, ps, atEnd, s, caps, ep, q, e, cs);
    SeveralJoin(src, pat, p, ps, atEnd, s, caps, ep, q, e, cs);
  }

  lemma SeveralSplit(pat: string, p: nat, ps: seq<Piece>, atEnd: bool)
    requires ps != [] && ps[0].Several? && Proper(ps, atEnd)
    requires Stands(pat, p, Text(ps, atEnd)) && p + |Text(ps, atEnd)| == |pat|
    ensures var t := RepText(ps[0].rep) + Text(ps[1..], atEnd);
            && Stands(pat, p, OneText(ps[0].one) + t) && p + |OneText(ps[0].one) + t| == |pat|
            && OneOk(ps[0].one, t)
    ensures var rest := Text(ps[1..], atEnd);
            ps[0].rep == Once && rest != [] ==> rest[0] !in "?*+-"
  {
    hide OneOk, OneText, Stands, RepText;
    var t := Text(ps[1..], atEnd);
    assert Text(ps, atEnd) == PieceText(ps[0]) + t && PieceOk(ps[0], t);
    hide Text, Proper;
    Regroup(OneText(ps[0].one), RepText(ps[0].rep), t);
  }

  lemma Regroup(a: string, b: string, c: string)
    ensures a + b + c == a + (b + c)
  {
  }

  lemma SeveralStarts(pat: string, p: nat, ps: seq<Piece>, atEnd: bool, ep: nat)
    requires ps != [] && ps[0].Several? && Proper(ps, atEnd) && ep == p + |OneText(ps[0].one)|
    requires Stands(pat, p, Text(ps, atEnd)) && p + |Text(ps, atEnd)| == |pat|
    ensures p < |pat| && KindAt(pat, p) == KItem && ClassEnd(pat, p) == Some(ep)
    ensures p + |PieceText(ps[0])| == if IsMark(At(pat, ep)) then ep + 1 else ep
  {
    hide ClassEnd, KindAt, OneText, OneOk, Stands, Proper, Text, IsMark;
    SeveralSplit(pat, p, ps, atEnd);
    SeveralIs("", pat, p, ps[0].one, ps[0].rep, Text(ps[1..], atEnd), 0, 0);
  }

  lemma RoundIs(src: string, pat: string, p: nat, ps: seq<Piece>, atEnd: bool, ep: nat, s: nat, k: nat)
    requires ps != [] && ps[0].Several? && Proper(ps, atEnd) && ep == p + |OneText(ps[0].one)|
    requires Stands(pat, p, Text(ps, atEnd)) && p + |Text(ps, atEnd)| == |pat|
    requires p < |pat| && ClassEnd(pat, p) == Some(ep)
    ensures SameRound(src, pat, p, ep, s, ps[0].one, ps[0].rep, k)
  {
    hide ClassEnd, OneText, OneOk, Stands, Proper, Text, Reps, Next, Times, Often;
    SeveralSplit(pat, p, ps, atEnd);
    SeveralIs(src, pat, p, ps[0].one, ps[0].rep, Text(ps[1..], atEnd), s, k);
  }

  /** k repetitions are the same for the text and for the tree. */
  ghost predicate SameRound(src: string, pat: string, p: nat, ep: nat, s: nat, o: One, rep: Rep, k: nat)
    requires p < |pat| && ClassEnd(pat, p) == Some(ep)
  {
    (Times(At(pat, ep), k) <==> Often(rep, k)) && (Reps(src, pat, p, ep, s, k) <==> Next(src, s, k, o))
  }

  lemma SeveralJoin(src: string, pat: string, p: nat, ps: seq<Piece>, atEnd: bool, s: nat, caps: seq<Capture>,
      ep: nat, q: nat, e: nat, cs: seq<Capture>)
    requires s <= |src| && CapsOk(src, s, caps) && ps != [] && ps[0].Several?
    requires p < |pat| && ClassEnd(pat, p) == Some(ep) && q <= |pat|
    requires forall k: nat :: SameRound(src, pat, p, ep, s, ps[0].one, ps[0].rep, k)
    requires RestMeans(src, pat, q, ps[1..], atEnd, e, cs)
    ensures (exists k: nat ::
              Times(At(pat, ep), k) && Reps(src, pat, p, ep, s, k) && Matches(src, pat, q, s + k, caps, e, cs)) <==>
            (exists k: nat ::
              Often(ps[0].rep, k) && Next(src, s, k, ps[0].one) && Denotes(src, ps[1..], atEnd, s + k, caps, e, cs))
  {
    hide ClassEnd, CapsOk, RestMeans, Reps, Has, Times, Often, Matches, Denotes;
    if k: nat :| Often(ps[0].rep, k) && Next(src, s, k, ps[0].one) && Denotes(src, ps[1..], atEnd, s + k, caps, e, cs) {
      assert SameRound(src, pat, p, ep, s, ps[0].one, ps[0].rep, k);
      NextMeans(src, pat, q, ps[1..], atEnd, s, k, ps[0].one, caps, e, cs);
      assert Times(At(pat, ep), k) && Reps(src, pat, p, ep, s, k) && Matches(src, pat, q, s + k, caps, e, cs);
    }
    if k: nat :| Times(At(pat, ep), k) && Reps(src, pat, p, ep, s, k) && Matches(src, pat, q, s + k, caps, e, cs) {
      assert SameRound(src, pat, p, ep, s, ps[0].one, ps[0].rep, k);
      NextMeans(src, pat, q, ps[1..], atEnd, s, k, ps[0].one, caps, e, cs);
      assert Often(ps[0].rep, k) && Next(src, s, k, ps[0].one) && Denotes(src, ps[1..], atEnd, s + k, caps, e, cs);
    }
  }

  lemma SeveralUnfolds(src: string, pat: string, p: nat, ps: seq<Piece>, atEnd: bool, s: nat, caps: seq<Capture>,
      ep: nat, q: nat, e: nat, cs: seq<Capture>)
    requires s <= |src| && CapsOk(src, s, caps) && ps != [] && ps[0].Several?
    requires p < |pat| && KindAt(pat, p) == KItem && ClassEnd(pat, p) == Some(ep)
    requires q <= |pat| && q == if IsMark(At(pat, ep)) then ep + 1 else ep
    ensures Matches(src, pat, p, s, caps, e, cs) <==>
        exists k: nat ::
          Times(At(pat, ep), k) && Reps(src, pat, p, ep, s, k) && Matches(src, pat, q, s + k, caps, e, cs)
    ensures Denotes(src, ps, atEnd, s, caps, e, cs) <==>
        exists k: nat ::
          Often(ps[0].rep, k) && Next(src, s, k, ps[0].one) && Denotes(src, ps[1..], atEnd, s + k, caps, e, cs)
  {
    hide KindAt, ClassEnd, SingleMatch, CapsOk, Reps, Times, Often, IsMark, Has;
  }

  lemma NextMeans(src: string, pat: string, q: nat, rest: seq<Piece>, atEnd: bool, s: nat, k: nat, o: One,
      caps: seq<Capture>, e: nat, cs: seq<Capture>)
    requires s <= |src| && CapsOk(src, s, caps) && Next(src, s, k, o) && q <= |pat|
    requires RestMeans(src, pat, q, rest, atEnd, e, cs)
    ensures s + k <= |src|
        && (Matches(src, pat, q, s + k, caps, e, cs) <==> Denotes(src, rest, atEnd, s + k, caps, e, cs))
  {
    hide Matches, Denotes;
    LaterOk(src, s, s + k, caps);
  }

  // ----- well-formed patterns -----

  /** Captures close what is open, at most 32 of them, and copies name captures that are closed. */
  ghost predicate NoMisuse(ps: seq<Piece>, st: seq<Status>)
    decreases |ps|
  {
    if ps == [] then true
    else
      var rest := ps[1..];
      match ps[0]
      case Open => |st| < 32 && NoMisuse(rest, st + [Status.Open])
      case Here => |st| < 32 && NoMisuse(rest, st + [Status.Pos])
      case Shut =>
        exists l: nat ::
          l < |st| && st[l] == Status.Open && (forall i :: l < i < |st| ==> st[i] != Status.Open)
          && NoMisuse(rest, st[l := Status.Closed])
      case Copy(d) => '1' <= d <= '9' && (d - '1') as nat < |st| && st[(d - '1') as nat] != Status.Open
          && NoMisuse(rest, st)
      case _ => NoMisuse(rest, st)
  }

  /** A pattern written from a tree is well formed, and so never raises an error, just when its
      captures are used properly. */
  lemma {:induction false} TreeWellFormed(pat: string, p: nat, ps: seq<Piece>, atEnd: bool, st: seq<Status>)
    requires Stands(pat, p, Text(ps, atEnd)) && p + |Text(ps, atEnd)| == |pat| && Proper(ps, atEnd)
    ensures WellFormed(pat, p, st) <==> NoMisuse(ps, st)
    decreases |ps|
  {
    hide KindAt, ClassEnd, Text, Stands, PieceOk, PieceText, Proper;
    if ps == [] {
      EndKind(pat, p, atEnd);
    } else {
      After(pat, p, ps, atEnd);
      ProperRest(ps, atEnd);
      var q := p + |PieceText(ps[0])|;
      assert RestWell(pat, q, ps[1..]) by {
        forall st' ensures WellFormed(pat, q, st') <==> NoMisuse(ps[1..], st') {
          TreeWellFormed(pat, q, ps[1..], atEnd, st');
        }
      }
      if ps[0].Several? {
        SeveralStarts(pat, p, ps, atEnd, p + |OneText(ps[0].one)|);
      } else {
        KindIs(pat, p, ps[0], Text(ps[1..], atEnd));
        if ps[0].Frontier? { FrontierEnd(pat, p, ps[0]); }
      }
      PieceSize(ps[0]);
      PieceWellFormed(pat, p, ps, st);
    }
  }

  ghost predicate RestWell(pat: string, q: nat, rest: seq<Piece>)
    requires q <= |pat|
  {
    forall st :: WellFormed(pat, q, st) <==> NoMisuse(rest, st)
  }

  /** What the first piece is read as, and where the next one is. */
  ghost predicate ReadAs(pat: string, p: nat, pc: Piece, q: nat)
    requires p < |pat| && q <= |pat|
  {
    match pc
    case Open => KindAt(pat, p) == KOpen(q, Unfinished)
    case Here => KindAt(pat, p) == KOpen(q, Position)
    case Shut => KindAt(pat, p) == KClose && q == p + 1
    case Balance(x, y) =>
      KindAt(pat, p) == KBalance && q == p + 4 && pat[p + 2] == x != '\0' && pat[p + 3] == y != '\0'
    case Frontier(_, _) =>
      KindAt(pat, p) == KFrontier && p + 2 < |pat| && pat[p + 2] == '[' && ClassEnd(pat, p + 2) == Some(q)
    case Copy(d) => KindAt(pat, p) == KCopy && q == p + 2 && pat[p + 1] == d
    case Several(_, _) =>
      KindAt(pat, p) == KItem && ClassEnd(pat, p).Some? && q == PatternProof.After(pat, ClassEnd(pat, p).value)
  }

  lemma {:induction false} PieceWellFormed(pat: string, p: nat, ps: seq<Piece>, st: seq<Status>)
    requires ps != [] && p < |pat| && p + |PieceText(ps[0])| <= |pat|
    requires ReadAs(pat, p, ps[0], p + |PieceText(ps[0])|) && RestWell(pat, p + |PieceText(ps[0])|, ps[1..])
    ensures WellFormed(pat, p, st) <==> NoMisuse(ps, st)
  {
    hide KindAt, ClassEnd, PieceText;
    var q := p + |PieceText(ps[0])|;
    match ps[0]
    case Shut =>
      if LastOpen(st).Some? {
        var st' := st[LastOpen(st).value := Status.Closed];
        assert WellFormed(pat, q, st') <==> NoMisuse(ps[1..], st');
      }
    case _ =>
  }

  lemma EndKind(pat: string, p: nat, atEnd: bool)
    requires Stands(pat, p, Text([], atEnd)) && p + |Text([], atEnd)| == |pat|
    ensures KindAt(pat, p) == if atEnd then KDollar else KEnd
  {
    if atEnd { CharAt(pat, p, "$", 0); }
  }

  lemma ProperRest(ps: seq<Piece>, atEnd: bool)
    requires Proper(ps, atEnd) && ps != []
    ensures Proper(ps[1..], atEnd) && PieceOk(ps[0], Text(ps[1..], atEnd))
  {
  }

  lemma PieceSize(pc: Piece)
    ensures |PieceText(pc)| == match pc {
      case Open => 1
      case Shut => 1
      case Here => 2
      case Balance(_, _) => 4
      case Copy(_) => 2
      case Frontier(complement, ms) => 2 + |SetText(complement, ms)|
      case Several(o, rep) => |OneText(o)| + |RepText(rep)|
    }
  {
  }

  lemma FrontierEnd(pat: string, p: nat, pc: Piece)
    requires pc.Frontier? && Stands(pat, p, PieceText(pc)) && SetOk(pc.complement, pc.members)
    ensures p + 2 < |pat| && pat[p + 2] == '[' && ClassEnd(pat, p + 2) == Some(p + |PieceText(pc)|)
  {
    hide ClassEnd, SetText, SetOk;
    Parts(pat, p, "%f", SetText(pc.complement, pc.members));
    SetIs(pat, p + 2, pc.complement, pc.members, ' ');
  }

  // ----- every pattern is written from a tree -----

  /** No range of the set ends with a percent sign; what such a range means, the manual leaves open. */
  predicate PlainRanges(pat: string, q: nat, ec: nat)
    requires ec < |pat|
    decreases ec - q
  {
    q < ec ==>
      var (it, q2) := ItemAt(pat, q, ec);
      (it.Range? ==> it.hi != '%') && PlainRanges(pat, q2, ec)
  }

  /** The first member of a set, from its text. */
  lemma FirstMember(pat: string, q: nat, ec: nat, first: bool, complement: bool) returns (m: Member)
    requires q < ec < |pat| && (forall i :: 0 <= i < |pat| ==> pat[i] != '\0')
    requires BracketEnd(pat, q) == Some(ec + 1) && PlainRanges(pat, q, ec)
    requires (!first ==> pat[q] != ']') && (first && !complement ==> pat[q] != '^')
    ensures var q1 := q + |MemberText(m)|;
            && q1 <= ec && pat[q..q1] == MemberText(m) && MemberOk(m, pat[q1..ec], first, complement)
            && PlainRanges(pat, q1, ec) && (q1 < ec ==> pat[q1] != ']' && BracketEnd(pat, q1) == Some(ec + 1))
  {
    hide BracketEnd;
    var (it, q1) := ItemAt(pat, q, ec);
    m := match it { case Class(l) => Named(l) case Range(lo, hi) => Between(lo, hi) case Single(c) => Just(c) };
    NextMember(pat, q, ec);
    assert PlainRanges(pat, q1, ec) && (it.Range? ==> it.hi != '%');
    hide PlainRanges;
    if it.Range? {
      assert pat[q..q1] == [pat[q], pat[q + 1], pat[q + 2]];
    } else if it.Class? {
      assert pat[q..q1] == [pat[q], pat[q + 1]];
    } else {
      assert pat[q..q1] == [pat[q]];
      assert |pat[q1..ec]| > 1 ==> pat[q1..ec][0] == pat[q1];
    }
  }

  /** classend goes on at the member that the set goes on with. */
  lemma NextMember(pat: string, q: nat, ec: nat)
    requires q < ec < |pat| && (forall i :: 0 <= i < |pat| ==> pat[i] != '\0') && BracketEnd(pat, q) == Some(ec + 1)
    requires var it := ItemAt(pat, q, ec).0; it.Range? ==> it.hi != '%'
    ensures var (it, q1) := ItemAt(pat, q, ec);
            && q1 <= ec && (q1 < ec ==> pat[q1] != ']' && BracketEnd(pat, q1) == Some(ec + 1))
            && (it.Range? ==> it.hi != ']')
  {
    var (it, q1) := ItemAt(pat, q, ec);
    if it.Range? {
      assert BracketEnd(pat, q) == BracketEnd(pat, q + 1);
      assert BracketEnd(pat, q + 1) == if pat[q + 2] == ']' then Some(q + 3) else BracketEnd(pat, q + 2);
    }
  }

  lemma {:induction false} AllMembers(pat: string, q: nat, ec: nat, first: bool, complement: bool)
    returns (ms: seq<Member>)
    requires q <= ec < |pat| && (forall i :: 0 <= i < |pat| ==> pat[i] != '\0') && PlainRanges(pat, q, ec)
    requires q < ec ==>
        && BracketEnd(pat, q) == Some(ec + 1)
        && (!first ==> pat[q] != ']') && (first && !complement ==> pat[q] != '^')
    ensures pat[q..ec] == MembersText(ms) && MembersOk(ms, first, complement) && (q < ec ==> ms != [])
    decreases ec - q
  {
    hide BracketEnd, PlainRanges, MemberOk, MemberText;
    if q == ec {
      ms := [];
    } else {
      var m := FirstMember(pat, q, ec, first, complement);
      var q1 := q + |MemberText(m)|;
      NotEmpty(m);
      var rest := AllMembers(pat, q1, ec, false, complement);
      ms := [m] + rest;
      assert ms[1..] == rest && pat[q..ec] == pat[q..q1] + pat[q1..ec];
    }
  }

  lemma NotEmpty(m: Member)
    ensures |MemberText(m)| >= 1
  {
  }

  /** A set, from its opening to its closing bracket. */
  lemma WholeSet(pat: string, p: nat, ep: nat) returns (complement: bool, ms: seq<Member>)
    requires p < |pat| && pat[p] == '[' && ClassEnd(pat, p) == Some(ep)
    requires (forall i :: 0 <= i < |pat| ==> pat[i] != '\0') && PlainRanges(pat, SetStart(pat, p), ep - 1)
    ensures pat[p..ep] == SetText(complement, ms) && SetOk(complement, ms)
  {
    hide BracketEnd, PlainRanges, MembersText, MembersOk;
    complement := Negated(pat, p);
    var q := SetStart(pat, p);
    assert BracketEnd(pat, q) == Some(ep);
    ms := AllMembers(pat, q, ep - 1, true, complement);
    assert pat[p..ep] == pat[p..q] + (pat[q..ep - 1] + [pat[ep - 1]]);
    assert pat[p..q] == if complement then "[^" else "[";
  }

  /** What can be read piece by piece. */
  predicate Readable(pat: string, p: nat)
    requires p <= |pat|
    decreases |pat| - p
  {
    match KindAt(pat, p)
    case KEnd => true
    case KOpen(q, _) => Readable(pat, q)
    case KClose => Readable(pat, p + 1)
    case KBalance => p + 4 <= |pat| && Readable(pat, p + 4)
    case KFrontier =>
      At(pat, p + 2) == '[' &&
      var ep := ClassEnd(pat, p + 2);
      ep.Some? && PlainRanges(pat, SetStart(pat, p + 2), ep.value - 1) && Readable(pat, ep.value)
    case KCopy => Readable(pat, p + 2)
    case KDollar => true
    case KItem =>
      var ep := ClassEnd(pat, p);
      ep.Some? && (pat[p] == '[' ==> PlainRanges(pat, SetStart(pat, p), ep.value - 1))
      && Readable(pat, if IsMark(At(pat, ep.value)) then ep.value + 1 else ep.value)
  }

  function RepOf(mark: char): Rep {
    match mark
    case '?' => AtMostOnce
    case '*' => Greedily
    case '+' => AtLeastOnce
    case '-' => Lazily
    case _ => Once
  }

  /** The piece at p, and where the next one is. */
  lemma FirstPiece(pat: string, p: nat) returns (pc: Piece, q: nat)
    requires p < |pat| && (forall i :: 0 <= i < |pat| ==> pat[i] != '\0') && Readable(pat, p)
        && KindAt(pat, p) != KDollar
    ensures p < q <= |pat| && pat[p..q] == PieceText(pc) && PieceOk(pc, pat[q..]) && Readable(pat, q)
  {
    hide BracketEnd, PlainRanges, SetOk, SetText;
    match KindAt(pat, p)
    case KOpen(_, _) => pc, q := CapturePiece(pat, p);
    case KClose => pc, q := Shut, p + 1;
    case KBalance =>
      pc, q := Balance(pat[p + 2], pat[p + 3]), p + 4;
      assert pat[p..q] == [pat[p], pat[p + 1], pat[p + 2], pat[p + 3]];
    case KFrontier =>
      q := ClassEnd(pat, p + 2).value;
      var complement, ms := WholeSet(pat, p + 2, q);
      pc := Frontier(complement, ms);
      assert pat[p..q] == [pat[p], pat[p + 1]] + pat[p + 2..q];
    case KCopy =>
      pc, q := Copy(pat[p + 1]), p + 2;
      assert pat[p..q] == [pat[p], pat[p + 1]];
    case KItem => pc, q := FirstItem(pat, p);
  }

  lemma CapturePiece(pat: string, p: nat) returns (pc: Piece, q: nat)
    requires p < |pat| && KindAt(pat, p).KOpen?
    ensures q == KindAt(pat, p).q && pat[p..q] == PieceText(pc) && PieceOk(pc, pat[q..])
  {
    if At(pat, p + 1) == ')' {
      pc, q := Here, p + 2;
      assert pat[p..q] == [pat[p], pat[p + 1]];
    } else {
      pc, q := Piece.Open, p + 1;
      assert pat[p..q] == [pat[p]];
    }
  }

  lemma FirstItem(pat: string, p: nat) returns (pc: Piece, q: nat)
    requires p < |pat| && (forall i :: 0 <= i < |pat| ==> pat[i] != '\0') && Readable(pat, p) && KindAt(pat, p) == KItem
    ensures p < q <= |pat| && pat[p..q] == PieceText(pc) && PieceOk(pc, pat[q..]) && Readable(pat, q)
  {
    hide PlainRanges, SetOk, SetText, ClassEnd, OneText, OneOk;
    var ep := ClassEnd(pat, p).value;
    var rep := RepOf(At(pat, ep));
    var o := FirstOne(pat, p, ep);
    pc := Several(o, rep);
    q := MarkEnd(pat, ep);
    assert pat[p..q] == pat[p..ep] + pat[ep..q];
  }

  /** The mark after an item. */
  lemma MarkEnd(pat: string, ep: nat) returns (q: nat)
    requires ep <= |pat|
    ensures var rep := RepOf(At(pat, ep));
            && q == (if IsMark(At(pat, ep)) then ep + 1 else ep) && ep <= q <= |pat|
            && pat[ep..q] == RepText(rep) && RepText(rep) + pat[q..] == pat[ep..]
            && (rep == Once && pat[q..] != [] ==> pat[q..][0] !in "?*+-")
  {
    if IsMark(At(pat, ep)) {
      q := ep + 1;
      assert pat[ep..q] == [pat[ep]];
    } else {
      q := ep;
    }
    assert pat[ep..q] + pat[q..] == pat[ep..];
  }

  lemma FirstOne(pat: string, p: nat, ep: nat) returns (o: One)
    requires p < |pat| && (forall i :: 0 <= i < |pat| ==> pat[i] != '\0') && KindAt(pat, p) == KItem
    requires ClassEnd(pat, p) == Some(ep) && (pat[p] == '[' ==> PlainRanges(pat, SetStart(pat, p), ep - 1))
    ensures pat[p..ep] == OneText(o) && OneOk(o, pat[ep..])
  {
    hide BracketEnd, PlainRanges, SetOk, SetText;
    if pat[p] == '.' {
      o := Any;
    } else if pat[p] == '%' {
      o := Escaped(pat[p + 1]);
      assert pat[p..ep] == [pat[p], pat[p + 1]];
    } else if pat[p] == '[' {
      var complement, ms := WholeSet(pat, p, ep);
      o := Among(complement, ms);
    } else {
      o := Plain(pat[p]);
    }
  }

  /** Every pattern without a zero that can be read is written from a tree, so that TextMeans is
      about all of them. */
  lemma {:induction false} EveryPattern(pat: string, p: nat) returns (ps: seq<Piece>, atEnd: bool)
    requires p <= |pat| && (forall i :: 0 <= i < |pat| ==> pat[i] != '\0') && Readable(pat, p)
    ensures pat[p..] == Text(ps, atEnd) && Proper(ps, atEnd)
    decreases |pat| - p
  {
    hide KindAt, Readable, PieceText, PieceOk;
    if p == |pat| {
      ps, atEnd := [], false;
    } else if KindAt(pat, p) == KDollar {
      ps, atEnd := [], true;
      Dollar(pat, p);
    } else {
      var pc, q := FirstPiece(pat, p);
      var rest;
      rest, atEnd := EveryPattern(pat, q);
      ps := [pc] + rest;
      assert ps[1..] == rest && pat[p..] == pat[p..q] + pat[q..];
    }
  }

  lemma Dollar(pat: string, p: nat)
    requires p < |pat| && KindAt(pat, p) == KDollar && forall i :: 0 <= i < |pat| ==> pat[i] != '\0'
    ensures pat[p..] == "$"
  {
  }
}
