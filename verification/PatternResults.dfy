/** All the ways a pattern matches, in the order in which the matcher tries them, and the
    relation that says which matches there are, whatever the order. */
module PatternResults {
  import opened Common
  import opened PatternSpec

  /** A match that ends at e with some captures, or an error. */
  datatype Hit = Found(e: nat, caps: seq<Capture>) | Bad

  ghost predicate HitOk(src: string, s: nat, caps: seq<Capture>, h: Hit) {
    h.Found? ==> s <= h.e <= |src| && CapsOk(src, h.e, h.caps)
  }

  /** How many characters from s on match the item one after the other. */
  function Run(src: string, pat: string, p: nat, ep: nat, s: nat): (k: nat)
    requires p < |pat| && ClassEnd(pat, p) == Some(ep) && s <= |src|
    ensures s + k <= |src| && forall i :: s <= i < s + k ==> SingleMatch(src[i], pat, p, ep)
    ensures s + k < |src| ==> !SingleMatch(src[s + k], pat, p, ep)
    decreases |src| - s
  {
    if s < |src| && SingleMatch(src[s], pat, p, ep) then 1 + Run(src, pat, p, ep, s + 1) else 0
  }

  function Closing(s: nat, caps: seq<Capture>, l: nat): seq<Capture>
    requires l < |caps| && caps[l].init <= s
  {
    caps[l := Capture(caps[l].init, Size(s - caps[l].init))]
  }

  function Previous(src: string, s: nat): char
    requires s <= |src|
  {
    if s == 0 then '\0' else src[s - 1]
  }

  /** The kinds of things a pattern is made of. */
  datatype Kind = KEnd | KOpen(q: nat, what: Len) | KClose | KBalance | KFrontier | KCopy | KDollar | KItem

  function KindAt(pat: string, p: nat): (k: Kind)
    requires p <= |pat|
    ensures k == KEnd <==> At(pat, p) == '\0'
    ensures k.KOpen? ==> p < k.q <= |pat| && (k.what == Position || k.what == Unfinished)
    ensures k.KFrontier? || k.KBalance? ==> p + 2 <= |pat|
    ensures k.KCopy? ==> p + 2 <= |pat| && IsDigit(pat[p + 1])
  {
    if At(pat, p) == '\0' then KEnd
    else if pat[p] == '(' then (if At(pat, p + 1) == ')' then KOpen(p + 2, Position) else KOpen(p + 1, Unfinished))
    else if pat[p] == ')' then KClose
    else if pat[p] == '%' && At(pat, p + 1) == 'b' then KBalance
    else if pat[p] == '%' && At(pat, p + 1) == 'f' then KFrontier
    else if pat[p] == '%' && IsDigit(At(pat, p + 1)) then KCopy
    else if pat[p] == '$' && At(pat, p + 1) == '\0' then KDollar
    else KItem
  }

  /** match: every result, the one it prefers first. */
  function Results(src: string, pat: string, p: nat, s: nat, caps: seq<Capture>): (hits: seq<Hit>)
    requires p <= |pat| && s <= |src| && CapsOk(src, s, caps)
    ensures forall i :: 0 <= i < |hits| ==> HitOk(src, s, caps, hits[i])
    decreases |pat| - p, 0
  {
    match KindAt(pat, p)
    case KEnd => [Found(s, caps)]
    case KOpen(q, what) => if |caps| >= MAXCAPTURES then [Bad] else Results(src, pat, q, s, caps + [Capture(s, what)])
    case KClose =>
      var l := ToClose(caps);
      if l.None? then [Bad] else Results(src, pat, p + 1, s, Closing(s, caps, l.value))
    case KBalance =>
      if At(pat, p + 2) == '\0' || At(pat, p + 3) == '\0' then [Bad]
      else if At(src, s) != pat[p + 2] then []
      else
        var r := BalanceEnd(src, s + 1, pat[p + 2], pat[p + 3], 1);
        if r.None? then [] else Results(src, pat, p + 4, r.value, caps)
    case KFrontier =>
      if At(pat, p + 2) != '[' then [Bad]
      else
        var ep := ClassEnd(pat, p + 2);
        if ep.None? then [Bad]
        else if InSet(Previous(src, s), pat, p + 2, ep.value - 1) || !InSet(At(src, s), pat, p + 2, ep.value - 1)
            then []
        else Results(src, pat, ep.value, s, caps)
    case KCopy =>
      var l := Referred(caps, pat[p + 1]);
      if l.None? then [Bad]
      else
        var r := CopyEnd(src, s, caps[l.value]);
        if r.None? then [] else Results(src, pat, p + 2, r.value, caps)
    case KDollar => if s == |src| then [Found(s, caps)] else []
    case KItem =>
      var ep := ClassEnd(pat, p);
      if ep.None? then [Bad] else ItemResults(src, pat, p, ep.value, s, caps)
  }

  /** A single-character item and the repetition that follows it. */
  function ItemResults(src: string, pat: string, p: nat, ep: nat, s: nat, caps: seq<Capture>): (hits: seq<Hit>)
    requires p < |pat| && s <= |src| && CapsOk(src, s, caps) && ClassEnd(pat, p) == Some(ep)
    ensures forall i :: 0 <= i < |hits| ==> HitOk(src, s, caps, hits[i])
    decreases |pat| - ep, |src| + 2
  {
    var m := s < |src| && SingleMatch(src[s], pat, p, ep);
    match At(pat, ep)
    case '?' => (if m then Results(src, pat, ep + 1, s + 1, caps) else []) + Results(src, pat, ep + 1, s, caps)
    case '*' => MaxResults(src, pat, ep + 1, s, Run(src, pat, p, ep, s), caps)
    case '+' => if m then MaxResults(src, pat, ep + 1, s + 1, Run(src, pat, p, ep, s + 1), caps) else []
    case '-' => MinResults(src, pat, p, ep, s, caps)
    case _ => if m then Results(src, pat, ep, s + 1, caps) else []
  }

  /** Longest repetition first. */
  function MaxResults(src: string, pat: string, q: nat, s: nat, i: nat, caps: seq<Capture>): (hits: seq<Hit>)
    requires q <= |pat| && s + i <= |src| && CapsOk(src, s, caps)
    ensures forall j :: 0 <= j < |hits| ==> HitOk(src, s, caps, hits[j])
    decreases |pat| - q, i + 1
  {
    Results(src, pat, q, s + i, caps) + if i == 0 then [] else MaxResults(src, pat, q, s, i - 1, caps)
  }

  /** Shortest repetition first. */
  function MinResults(src: string, pat: string, p: nat, ep: nat, s: nat, caps: seq<Capture>): (hits: seq<Hit>)
    requires p < |pat| && ClassEnd(pat, p) == Some(ep) && ep + 1 <= |pat| && s <= |src| && CapsOk(src, s, caps)
    ensures forall j :: 0 <= j < |hits| ==> HitOk(src, s, caps, hits[j])
    decreases |pat| - ep, |src| - s + 1
  {
    Results(src, pat, ep + 1, s, caps) +
    if s < |src| && SingleMatch(src[s], pat, p, ep) then MinResults(src, pat, p, ep, s + 1, caps) else []
  }

  // ----- the relation -----

  /** k characters from s on match the item. */
  predicate Reps(src: string, pat: string, p: nat, ep: nat, s: nat, k: nat)
    requires p < |pat| && ClassEnd(pat, p) == Some(ep)
  {
    s + k <= |src| && forall i :: s <= i < s + k ==> SingleMatch(src[i], pat, p, ep)
  }

  /** How often an item may be repeated. */
  predicate Times(mark: char, k: nat) {
    match mark
    case '?' => k <= 1
    case '*' => true
    case '+' => k >= 1
    case '-' => true
    case _ => k == 1
  }

  predicate IsMark(mark: char) {
    mark == '?' || mark == '*' || mark == '+' || mark == '-'
  }

  /** The text from s to r is the text of a capture. */
  predicate SameText(src: string, s: nat, r: nat, c: Capture) {
    s <= r <= |src| && c.len.Size? && c.init + c.len.n <= |src| && src[s..r] == src[c.init..c.init + c.len.n]
  }

  /** The pattern from p on matches the subject from s to e; cs are the captures then. */
  ghost predicate Matches(src: string, pat: string, p: nat, s: nat, caps: seq<Capture>, e: nat, cs: seq<Capture>)
    requires p <= |pat|
    decreases |pat| - p
  {
    s <= |src| && CapsOk(src, s, caps) &&
    match KindAt(pat, p)
    case KEnd => e == s && cs == caps
    case KOpen(q, what) => |caps| < MAXCAPTURES && Matches(src, pat, q, s, caps + [Capture(s, what)], e, cs)
    case KClose =>
      exists l: nat ::
        && l < |caps| && caps[l].len.Unfinished? && (forall i :: l < i < |caps| ==> !caps[i].len.Unfinished?)
        && Matches(src, pat, p + 1, s, Closing(s, caps, l), e, cs)
    case KBalance =>
      At(pat, p + 2) != '\0' && At(pat, p + 3) != '\0' &&
      var x, y := pat[p + 2], pat[p + 3];
      exists r: nat :: Balanced(src, s, r, x, y) && Matches(src, pat, p + 4, r, caps, e, cs)
    case KFrontier =>
      At(pat, p + 2) == '[' &&
      var ep := ClassEnd(pat, p + 2);
      ep.Some? && !InSet(Previous(src, s), pat, p + 2, ep.value - 1) && InSet(At(src, s), pat, p + 2, ep.value - 1)
      && Matches(src, pat, ep.value, s, caps, e, cs)
    case KCopy =>
      var l := Referred(caps, pat[p + 1]);
      l.Some? && exists r: nat :: SameText(src, s, r, caps[l.value]) && Matches(src, pat, p + 2, r, caps, e, cs)
    case KDollar => s == |src| && e == s && cs == caps
    case KItem =>
      var ep := ClassEnd(pat, p);
      ep.Some? && (
        var q := if IsMark(At(pat, ep.value)) then ep.value + 1 else ep.value;
        exists k: nat ::
            Times(At(pat, ep.value), k) && Reps(src, pat, p, ep.value, s, k)
            && Matches(src, pat, q, s + k, caps, e, cs))
  }
}
