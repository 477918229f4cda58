/** What a pattern means (section 5.4.1 of the Lua 5.1 Reference Manual, lstrlib.c). Strings
    are sequences of bytes; a pattern, like a C string, ends at its first zero. */
module PatternSpec {
  import opened Common

  const MAXCAPTURES: nat := 32

  /** A string and the zero that follows it. */
  function At(t: string, i: nat): char
    requires i <= |t|
  {
    if i < |t| then t[i] else '\0'
  }

  // ----- classes of characters, in the C locale -----

  predicate IsLower(c: char) { 'a' <= c <= 'z' }

  predicate IsUpper(c: char) { 'A' <= c <= 'Z' }

  predicate IsAlpha(c: char) { IsLower(c) || IsUpper(c) }

  predicate IsPrint(c: char) { ' ' <= c <= '~' }

  predicate IsCntrl(c: char) { c < ' ' || c == '\U{7f}' }

  predicate IsSpace(c: char) { c == ' ' || '\t' <= c <= '\r' }

  predicate IsXDigit(c: char) { IsDigit(c) || 'a' <= c <= 'f' || 'A' <= c <= 'F' }

  predicate IsPunct(c: char) { IsPrint(c) && c != ' ' && !IsAlpha(c) && !IsDigit(c) }

  /** The class of a lower-case letter; none for any other letter. */
  function ClassOf(cl: char, c: char): Option<bool> {
    match cl
    case 'a' => Some(IsAlpha(c))
    case 'c' => Some(IsCntrl(c))
    case 'd' => Some(IsDigit(c))
    case 'l' => Some(IsLower(c))
    case 'p' => Some(IsPunct(c))
    case 's' => Some(IsSpace(c))
    case 'u' => Some(IsUpper(c))
    case 'w' => Some(IsAlpha(c) || IsDigit(c))
    case 'x' => Some(IsXDigit(c))
    case 'z' => Some(c == '\0')
    case _ => None
  }

  function ToLower(c: char): char {
    if IsUpper(c) then c - 'A' + 'a' else c
  }

  /** match_class: an upper-case letter is the complement; %x for any other x is x itself. */
  predicate MatchClass(c: char, cl: char) {
    match ClassOf(ToLower(cl), c)
    case Some(b) => if IsLower(cl) then b else !b
    case None => cl == c
  }

  // ----- sets -----

  datatype Item = Class(cl: char) | Range(lo: char, hi: char) | Single(c: char)

  predicate ItemHas(it: Item, c: char) {
    match it
    case Class(cl) => MatchClass(c, cl)
    case Range(lo, hi) => lo <= c <= hi
    case Single(x) => x == c
  }

  /** The item of a set at position q, and where the next one is. */
  function ItemAt(pat: string, q: nat, ec: nat): (Item, nat)
    requires q < ec < |pat|
  {
    if pat[q] == '%' then (Class(pat[q + 1]), q + 2)
    else if pat[q + 1] == '-' && q + 2 < ec then (Range(pat[q], pat[q + 2]), q + 3)
    else (Single(pat[q]), q + 1)
  }

  /** The items of a set between position q and its closing bracket at ec. */
  function SetItems(pat: string, q: nat, ec: nat): seq<Item>
    requires ec < |pat|
    decreases ec - q
  {
    if q >= ec then [] else [ItemAt(pat, q, ec).0] + SetItems(pat, ItemAt(pat, q, ec).1, ec)
  }

  predicate Negated(pat: string, p: nat)
    requires p + 1 < |pat|
  {
    pat[p + 1] == '^'
  }

  function SetStart(pat: string, p: nat): nat
    requires p + 1 < |pat|
  {
    if Negated(pat, p) then p + 2 else p + 1
  }

  predicate SomeItem(items: seq<Item>, c: char) {
    exists i :: 0 <= i < |items| && ItemHas(items[i], c)
  }

  /** c is in the set that goes from the bracket at p to the one at ec. */
  predicate InSet(c: char, pat: string, p: nat, ec: nat)
    requires p + 1 < |pat| && ec < |pat|
  {
    SomeItem(SetItems(pat, SetStart(pat, p), ec), c) != Negated(pat, p)
  }

  /** Where the set ends whose contents, from q on, are not empty: the first bracket counts as
      a member. */
  function BracketEnd(pat: string, q: nat): (r: Option<nat>)
    requires q <= |pat|
    ensures r.Some? ==> q + 1 < r.value <= |pat| && pat[r.value - 1] == ']'
    decreases |pat| - q
  {
    if At(pat, q) == '\0' then None
    else
      var q2 := if pat[q] == '%' && At(pat, q + 1) != '\0' then q + 2 else q + 1;
      if At(pat, q2) == ']' then Some(q2 + 1) else BracketEnd(pat, q2)
  }

  /** classend: where a single-character item ends; none when it is malformed. */
  function ClassEnd(pat: string, p: nat): (r: Option<nat>)
    requires p < |pat|
    ensures r.Some? ==> p < r.value <= |pat|
    ensures r.Some? && pat[p] == '%' ==> r.value == p + 2 && At(pat, p + 1) != '\0'
    ensures r.Some? && pat[p] == '[' ==> p + 2 < r.value && pat[r.value - 1] == ']'
  {
    if pat[p] == '%' then
      if At(pat, p + 1) == '\0' then None else Some(p + 2)
    else if pat[p] == '[' then BracketEnd(pat, if At(pat, p + 1) == '^' then p + 2 else p + 1)
    else Some(p + 1)
  }

  /** singlematch: one character against the item between p and ep. */
  predicate SingleMatch(c: char, pat: string, p: nat, ep: nat)
    requires p < |pat| && ClassEnd(pat, p) == Some(ep)
  {
    if pat[p] == '.' then true
    else if pat[p] == '%' then MatchClass(c, pat[p + 1])
    else if pat[p] == '[' then InSet(c, pat, p, ep - 1)
    else pat[p] == c
  }

  // ----- captures -----

  datatype Len = Unfinished | Position | Size(n: nat)

  datatype Capture = Capture(init: nat, len: Len)

  /** The innermost capture that is still open. */
  function ToClose(caps: seq<Capture>): (r: Option<nat>)
    ensures r.Some? ==> r.value < |caps| && caps[r.value].len.Unfinished? && forall i :: r.value < i < |caps| ==>
        !caps[i].len.Unfinished?
    ensures r.None? ==> forall i :: 0 <= i < |caps| ==> !caps[i].len.Unfinished?
  {
    if caps == [] then None
    else if caps[|caps| - 1].len.Unfinished? then Some(|caps| - 1)
    else ToClose(caps[..|caps| - 1])
  }

  /** Captures lie in the subject, before the current position. */
  predicate CapsOk(src: string, s: nat, caps: seq<Capture>) {
    && |caps| <= MAXCAPTURES
    && forall i :: 0 <= i < |caps| ==>
        caps[i].init <= s && (caps[i].len.Size? ==> caps[i].init + caps[i].len.n <= |src|)
  }

  /** The capture a digit refers to; none when that is an error. */
  function Referred(caps: seq<Capture>, d: char): (r: Option<nat>)
    ensures r.Some? ==> r.value < |caps| && !caps[r.value].len.Unfinished?
  {
    if '1' <= d <= '9' && (d - '1') as nat < |caps| && !caps[(d - '1') as nat].len.Unfinished?
        then Some((d - '1') as nat) else None
  }

  /** Where a copy of the capture that starts at s ends. A position capture has no copy. */
  function CopyEnd(src: string, s: nat, c: Capture): (r: Option<nat>)
    requires s <= |src| && (c.len.Size? ==> c.init + c.len.n <= |src|)
    ensures r.Some? ==> s <= r.value <= |src|
  {
    if c.len.Size? && s + c.len.n <= |src| && src[c.init..c.init + c.len.n] == src[s..s + c.len.n]
        then Some(s + c.len.n) else None
  }

  // ----- balanced strings -----

  function Count(t: string, x: char): nat {
    if t == [] then 0 else (if t[|t| - 1] == x then 1 else 0) + Count(t[..|t| - 1], x)
  }

  /** From s to r there are as many x as y, and r is the first such place. For x == y, that is
      the second x. */
  predicate Closes(src: string, s: nat, r: nat, x: char, y: char)
    requires s < r <= |src|
  {
    if x == y then r > s + 1 && Count(src[s..r], x) == 2 && src[r - 1] == x
        else Count(src[s..r], x) == Count(src[s..r], y)
  }

  ghost predicate Balanced(src: string, s: nat, r: nat, x: char, y: char) {
    s < r <= |src| && src[s] == x && Closes(src, s, r, x, y) && forall q :: s < q < r ==> !Closes(src, s, q, x, y)
  }

  /** Where the balanced string ends; `open` counts the x that are not closed. */
  function BalanceEnd(src: string, s: nat, x: char, y: char, open: nat): (r: Option<nat>)
    requires open > 0
    ensures r.Some? ==> s < r.value <= |src|
    decreases |src| - s
  {
    if s >= |src| then None
    else if src[s] == y then (if open == 1 then Some(s + 1) else BalanceEnd(src, s + 1, x, y, open - 1))
    else BalanceEnd(src, s + 1, x, y, if src[s] == x then open + 1 else open)
  }
}
