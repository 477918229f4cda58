/** The pattern matcher: recursion, loops and one array of captures that is undone on failure
    (lstrlib.c). */
module LStrLib {
  import opened Common
  import opened PatternSpec
  import opened PatternResults
  import opened PatternProof

  /** What a matching function returns: NULL, the end of the match, or a raised error. */
  datatype Outcome = Null | End(e: nat) | Error

  class MatchState {
    const src: string
    const pat: string
    var level: nat                 // total number of captures, finished or not
    const capture: array<Capture>

    constructor (src: string, pat: string)
      ensures Valid() && Caps() == [] && this.src == src && this.pat == pat && fresh(capture)
    {
      this.src := src;
      this.pat := pat;
      level := 0;
      capture := new Capture[MAXCAPTURES](i => Capture(0, Unfinished));
    }

    ghost predicate Valid()
      reads this, capture
    {
      capture.Length == MAXCAPTURES && level <= MAXCAPTURES
    }

    function Caps(): seq<Capture>
      reads this, capture
      requires Valid()
    {
      capture[..level]
    }

    /** The outcome r is the first of the hits; after a failure the captures are as before. */
    ghost predicate Answers(r: Outcome, hits: seq<Hit>, before: seq<Capture>)
      reads this, capture
    {
      Valid() &&
      match r
      case Null => hits == [] && Caps() == before
      case End(e) => hits != [] && hits[0] == Found(e, Caps())
      case Error => hits != [] && hits[0] == Bad
    }

    // ----- single characters -----

    /** classend. */
    method FindClassEnd(p: nat) returns (ep: Option<nat>)
      requires p < |pat|
      ensures ep == ClassEnd(pat, p)
    {
      if pat[p] == '%' {
        return if At(pat, p + 1) == '\0' then None else Some(p + 2);
      }
      if pat[p] != '[' { return Some(p + 1); }
      var q := p + 1;
      if At(pat, q) == '^' { q := q + 1; }
      ghost var start := q;
      var more := true;
      while more
        invariant q <= |pat| && (more ==> BracketEnd(pat, q) == ClassEnd(pat, p))
        invariant !more ==> At(pat, q) == ']' && ClassEnd(pat, p) == Some(q + 1)
        decreases more, |pat| - q
      {
        if At(pat, q) == '\0' { return None; }
        var c := pat[q];
        q := q + 1;
        if c == '%' && At(pat, q) != '\0' { q := q + 1; }
        more := At(pat, q) != ']';
      }
      ep := Some(q + 1);
    }

    /** matchbracketclass. */
    method MatchBracketClass(c: char, p: nat, ec: nat) returns (b: bool)
      requires p + 1 < |pat| && ec < |pat|
      ensures b == InSet(c, pat, p, ec)
    {
      hide MatchClass, SomeItem, SetItems;
      var sig, q := true, p;
      if pat[q + 1] == '^' {
        sig := false;
        q := q + 1;
      }
      q := q + 1;
      ghost var start := q;
      while q < ec
        invariant start <= q
        invariant SomeItem(SetItems(pat, start, ec), c) <==> SomeItem(SetItems(pat, q, ec), c)
      {
        SetStep(pat, q, ec, c);
        if pat[q] == '%' {
          q := q + 1;
          if MatchClass(c, pat[q]) { return sig; }
        } else if pat[q + 1] == '-' && q + 2 < ec {
          q := q + 2;
          if pat[q - 2] <= c <= pat[q] { return sig; }
        } else if pat[q] == c {
          return sig;
        }
        q := q + 1;
      }
      SetStep(pat, q, ec, c);
      b := !sig;
    }

    /** singlematch. */
    method MatchSingle(c: char, p: nat, ep: nat) returns (b: bool)
      requires p < |pat| && ClassEnd(pat, p) == Some(ep)
      ensures b == SingleMatch(c, pat, p, ep)
    {
      if pat[p] == '.' { return true; }
      if pat[p] == '%' { return MatchClass(c, pat[p + 1]); }
      if pat[p] == '[' {
        b := MatchBracketClass(c, p, ep - 1);
        return;
      }
      b := pat[p] == c;
    }

    /** matchbalance. */
    method MatchBalance(s: nat, p: nat) returns (r: Outcome)
      requires s <= |src| && p <= |pat|
      ensures r.Error? <==> At(pat, p) == '\0' || At(pat, p + 1) == '\0'
      ensures r.End? ==> At(src, s) == pat[p] && BalanceEnd(src, s + 1, pat[p], pat[p + 1], 1) == Some(r.e)
      ensures r.Null? ==> At(src, s) != pat[p] || BalanceEnd(src, s + 1, pat[p], pat[p + 1], 1) == None
    {
      if At(pat, p) == '\0' || At(pat, p + 1) == '\0' { return Error; }
      if At(src, s) != pat[p] { return Null; }
      var b, e, cont, t := pat[p], pat[p + 1], 1, s + 1;
      while t < |src|
        invariant cont >= 1 && BalanceEnd(src, s + 1, b, e, 1) == BalanceEnd(src, t, b, e, cont)
      {
        if src[t] == e {
          cont := cont - 1;
          if cont == 0 { return End(t + 1); }
        } else if src[t] == b {
          cont := cont + 1;
        }
        t := t + 1;
      }
      r := Null;
    }

    // ----- captures -----

    /** capture_to_close. */
    method CaptureToClose() returns (l: Option<nat>)
      requires Valid()
      ensures l == ToClose(Caps())
    {
      var i := level;
      assert capture[..level] == Caps();
      while i > 0
        invariant 0 <= i <= level && ToClose(Caps()) == ToClose(capture[..i])
      {
        i := i - 1;
        assert capture[..i + 1][..i] == capture[..i];
        if capture[i].len.Unfinished? { return Some(i); }
      }
      l := None;
    }

    /** start_capture: when the rest does not match, the capture is undone. */
    method StartCapture(s: nat, p: nat, what: Len) returns (r: Outcome)
      requires Valid() && s <= |src| && p <= |pat| && CapsOk(src, s, Caps()) && !what.Size?
      modifies this`level, capture
      ensures level < MAXCAPTURES || old(level) == MAXCAPTURES || !r.Null?
      ensures if old(level) >= MAXCAPTURES then r == Error && Valid()
              else
                && CapsOk(src, s, old(Caps()) + [Capture(s, what)])
                && Answers(r, Results(src, pat, p, s, old(Caps()) + [Capture(s, what)]), old(Caps()))
      decreases |pat| - p, 1
    {
      if level >= MAXCAPTURES { return Error; }
      ghost var before := Caps();
      capture[level] := Capture(s, what);
      level := level + 1;
      assert Caps() == before + [Capture(s, what)];
      r := Match(s, p);
      if r.Null? {
        level := level - 1;
        assert Caps() == before;
      }
    }

    /** end_capture: when the rest does not match, the capture is open again. */
    method EndCapture(s: nat, p: nat) returns (r: Outcome)
      requires Valid() && s <= |src| && p <= |pat| && CapsOk(src, s, Caps())
      modifies this`level, capture
      ensures var l := ToClose(old(Caps()));
              if l.None? then r == Error && Valid()
              else
                && CapsOk(src, s, Closing(s, old(Caps()), l.value))
                && Answers(r, Results(src, pat, p, s, Closing(s, old(Caps()), l.value)), old(Caps()))
      decreases |pat| - p, 1
    {
      ghost var before := Caps();
      var l := CaptureToClose();
      if l.None? { return Error; }
      var i := l.value;
      CloseOk(src, s, before, i);
      capture[i] := Capture(capture[i].init, Size(s - capture[i].init));
      assert Caps() == Closing(s, before, i);
      r := Match(s, p);
      if r.Null? {
        capture[i] := Capture(capture[i].init, Unfinished);
        assert Caps() == before;
      }
    }

    /** match_capture. */
    method MatchCapture(s: nat, d: char) returns (r: Outcome)
      requires Valid() && s <= |src| && CapsOk(src, s, Caps())
      ensures var l := Referred(Caps(), d);
              if l.None? then r == Error
              else r == match CopyEnd(src, s, Caps()[l.value]) { case None => Null case Some(e) => End(e) }
    {
      if d < '1' || d > '9' || (d - '1') as nat >= level || capture[(d - '1') as nat].len.Unfinished? { return Error; }
      var c := capture[(d - '1') as nat];
      if c.len.Size? && |src| - s >= c.len.n && src[c.init..c.init + c.len.n] == src[s..s + c.len.n] {
        return End(s + c.len.n);
      }
      r := Null;
    }

    // ----- repetitions -----

    /** The first loop of max_expand. */
    method CountRun(s: nat, p: nat, ep: nat) returns (i: nat)
      requires s <= |src| && p < |pat| && ClassEnd(pat, p) == Some(ep)
      ensures i == Run(src, pat, p, ep, s)
    {
      hide ClassEnd, SingleMatch;
      i := 0;
      while s + i < |src|
        invariant s + i <= |src| && i + Run(src, pat, p, ep, s + i) == Run(src, pat, p, ep, s)
      {
        var m := MatchSingle(src[s + i], p, ep);
        if !m { return; }
        i := i + 1;
      }
    }

    /** max_expand. */
    method MaxExpand(s: nat, p: nat, ep: nat) returns (r: Outcome)
      requires Valid() && s <= |src| && p < |pat| && ClassEnd(pat, p) == Some(ep) && ep + 1 <= |pat|
          && CapsOk(src, s, Caps())
      modifies this`level, capture
      ensures Answers(r, MaxResults(src, pat, ep + 1, s, Run(src, pat, p, ep, s), old(Caps())), old(Caps()))
      decreases |pat| - ep, 1
    {
      hide ClassEnd, SingleMatch, CapsOk, Results, MaxResults, HitOk, Run;
      ghost var before := Caps();
      var n := CountRun(s, p, ep);
      var j: int := n;
      while j >= 0
        invariant -1 <= j <= n && Valid() && Caps() == before
        invariant MaxResults(src, pat, ep + 1, s, n, before) == if j < 0 then []
            else MaxResults(src, pat, ep + 1, s, j, before)
      {
        LaterOk(src, s, s + j, before);
        r := Match(s + j, ep + 1);
        MaxStep(src, pat, ep + 1, s, j, before);
        if !r.Null? { return; }
        j := j - 1;
      }
      r := Null;
    }

    /** min_expand. */
    method MinExpand(s0: nat, p: nat, ep: nat) returns (r: Outcome)
      requires Valid() && s0 <= |src| && p < |pat| && ClassEnd(pat, p) == Some(ep) && ep + 1 <= |pat|
          && CapsOk(src, s0, Caps())
      modifies this`level, capture
      ensures Answers(r, MinResults(src, pat, p, ep, s0, old(Caps())), old(Caps()))
      decreases |pat| - ep, 1
    {
      hide ClassEnd, SingleMatch, CapsOk, Results;
      ghost var before := Caps();
      var s := s0;
      while true
        invariant s0 <= s <= |src| && Valid() && Caps() == before && CapsOk(src, s, before)
        invariant MinResults(src, pat, p, ep, s0, before) == MinResults(src, pat, p, ep, s, before)
        decreases |src| - s
      {
        r := Match(s, ep + 1);
        var m := false;
        if s < |src| { m := MatchSingle(src[s], p, ep); }
        if m { LaterOk(src, s, s + 1, before); }
        FirstOf(Results(src, pat, ep + 1, s, before), if m then MinResults(src, pat, p, ep, s + 1, before) else []);
        if !r.Null? { return; }
        if !m { return; }
        s := s + 1;
      }
    }

    // ----- the matcher -----

    /** match: the result the search prefers, an error, or NULL with all captures undone. */
    method Match(s0: nat, p0: nat) returns (r: Outcome)
      requires Valid() && s0 <= |src| && p0 <= |pat| && CapsOk(src, s0, Caps())
      modifies this`level, capture
      ensures Answers(r, Results(src, pat, p0, s0, old(Caps())), old(Caps()))
      decreases |pat| - p0, 0
    {
      hide ClassEnd, SingleMatch, InSet, BalanceEnd, CopyEnd, CapsOk, HitOk;
      ghost var before := Caps();
      var s: nat, p: nat := s0, p0;
      while true
        invariant p0 <= p <= |pat| && s <= |src| && Valid() && Caps() == before && CapsOk(src, s, before)
        invariant Results(src, pat, p0, s0, before) == Results(src, pat, p, s, before)
        decreases |pat| - p
      {
        match KindAt(pat, p) {
          case KEnd => return End(s);
          case KOpen(q, what) =>
            r := StartCapture(s, q, what);
            return;
          case KClose =>
            r := EndCapture(s, p + 1);
            return;
          case KBalance =>
            r := MatchBalance(s, p + 2);
            if !r.End? { return; }
            LaterOk(src, s, r.e, before);
            s, p := r.e, p + 4;
          case KFrontier =>
            if At(pat, p + 2) != '[' { return Error; }
            var ep := FindClassEnd(p + 2);
            if ep.None? { return Error; }
            var prev := MatchBracketClass(Previous(src, s), p + 2, ep.value - 1);
            var next := MatchBracketClass(At(src, s), p + 2, ep.value - 1);
            if prev || !next { return Null; }
            p := ep.value;
          case KCopy =>
            r := MatchCapture(s, pat[p + 1]);
            if !r.End? { return; }
            LaterOk(src, s, r.e, before);
            s, p := r.e, p + 2;
          case KDollar => return if s == |src| then End(s) else Null;
          case KItem =>
            var next;
            next, r := MatchItem(s, p);
            if next.None? { return; }
            if next.value.0 > s { LaterOk(src, s, s + 1, before); }
            s, p := next.value.0, next.value.1;
        }
      }
    }

    /** The default case of match: either an outcome, or where matching goes on. */
    method MatchItem(s: nat, p: nat) returns (next: Option<(nat, nat)>, r: Outcome)
      requires Valid() && s <= |src| && p < |pat| && CapsOk(src, s, Caps()) && KindAt(pat, p) == KItem
      modifies this`level, capture
      ensures next.None? ==> Answers(r, Results(src, pat, p, s, old(Caps())), old(Caps()))
      ensures next.Some? ==>
          Valid() && Caps() == old(Caps()) && p < next.value.1 <= |pat| && s <= next.value.0 <= |src|
          && next.value.0 <= s + 1
      ensures next.Some? ==>
          CapsOk(src, next.value.0, old(Caps()))
          && Results(src, pat, p, s, old(Caps())) == Results(src, pat, next.value.1, next.value.0, old(Caps()))
      decreases |pat| - p, 0, 0
    {
      hide SingleMatch, CapsOk, HitOk, Results, MaxResults, MinResults, ClassEnd, KindAt;
      ghost var before := Caps();
      ItemIs(src, pat, p, s, before);
      var e := FindClassEnd(p);
      if e.None? { return None, Error; }
      var ep := e.value;
      var m := false;
      if s < |src| { m := MatchSingle(src[s], p, ep); }
      if m { LaterOk(src, s, s + 1, before); }
      r := Null;
      match At(pat, ep) {
        case '?' =>
          if m {
            r := Match(s + 1, ep + 1);
            FirstOf(Results(src, pat, ep + 1, s + 1, before), Results(src, pat, ep + 1, s, before));
            if !r.Null? { return None, r; }
          }
          assert [] + Results(src, pat, ep + 1, s, before) == Results(src, pat, ep + 1, s, before);
          next := Some((s, ep + 1));
        case '*' =>
          r := MaxExpand(s, p, ep);
          next := None;
        case '+' =>
          if m { r := MaxExpand(s + 1, p, ep); }
          next := None;
        case '-' =>
          r := MinExpand(s, p, ep);
          next := None;
        case _ =>
          next := if m then Some((s + 1, ep)) else None;
      }
    }
  }

  // ----- searching -----

  /** The first place from i on where the pattern, from p on, has a result; |src| + 1 if none. */
  ghost predicate FirstStart(src: string, pat: string, p: nat, i: nat, k: nat)
    requires p <= |pat|
  {
    i <= k <= |src| && Results(src, pat, p, k, []) != [] && forall j :: i <= j < k ==> Results(src, pat, p, j, []) == []
  }

  datatype Search = Nothing | At1(start: nat, end: nat, caps: seq<Capture>) | Raised

  /** The loop of str_find_aux over match: from each start, or only from the first one. */
  method SearchLoop(src: string, pat: string, p: nat, init: nat, anchor: bool) returns (r: Search)
    requires p <= |pat| && init <= |src|
    ensures r.Nothing? ==> forall j :: init <= j <= (if anchor then init else |src|) ==>
        Results(src, pat, p, j, []) == []
    ensures !r.Nothing? ==>
        exists k: nat :: FirstStart(src, pat, p, init, k) && (anchor ==> k == init) && Reports(r, src, pat, p, k)
  {
    hide Results;
    var ms := new MatchState(src, pat);
    var s1 := init;
    var more := true;
    while more
      invariant init <= s1 <= |src| + 1 && ms.Valid() && ms.src == src && ms.pat == pat && fresh(ms)
          && fresh(ms.capture)
      invariant forall j :: init <= j < s1 ==> Results(src, pat, p, j, []) == []
      invariant more ==> s1 <= |src| && (anchor ==> s1 == init)
      invariant !more ==> s1 == if anchor then init + 1 else |src| + 1
      decreases more, |src| + 1 - s1
    {
      ms.level := 0;
      assert ms.Caps() == [];
      var res := ms.Match(s1, p);
      if !res.Null? {
        r := if res.Error? then Raised else At1(s1, res.e, ms.Caps());
        assert FirstStart(src, pat, p, init, s1) && Reports(r, src, pat, p, s1);
        return;
      }
      more := s1 < |src| && !anchor;
      s1 := s1 + 1;
    }
    r := Nothing;
  }

  /** r is the preferred result at start k. */
  ghost predicate Reports(r: Search, src: string, pat: string, p: nat, k: nat)
    requires p <= |pat|
  {
    k <= |src| && Results(src, pat, p, k, []) != [] && (
      match Results(src, pat, p, k, [])[0]
      case Found(e, caps) => r == At1(k, e, caps)
      case Bad => r == Raised)
  }

  /** A search that fails means that the pattern matches nowhere, and one that succeeds that it
      matches where it says, and nowhere before; a well-formed pattern raises no error. */
  lemma SearchMeans(src: string, pat: string, p: nat, init: nat, k: nat, r: Search)
    requires p <= |pat| && FirstStart(src, pat, p, init, k) && Reports(r, src, pat, p, k)
    ensures r.At1? ==> r.start == k && Matches(src, pat, p, k, [], r.end, r.caps)
    ensures WellFormed(pat, p, []) ==> r.At1?
    ensures forall j: nat, e: nat, cs: seq<Capture> :: init <= j < k ==> !Matches(src, pat, p, j, [], e, cs)
  {
    hide Matches, WellFormed;
    var hits := Results(src, pat, p, k, []);
    if r.At1? {
      assert hits[0] in hits;
      FoundIffMatches(src, pat, p, k, [], r.end, r.caps);
    }
    assert Statuses([]) == [];
    if WellFormed(pat, p, []) {
      NoError(src, pat, p, k, []);
      assert hits[0] in hits;
    }
    forall j: nat, e: nat, cs: seq<Capture> | init <= j < k ensures !Matches(src, pat, p, j, [], e, cs) {
      FoundIffMatches(src, pat, p, j, [], e, cs);
    }
  }

  // ----- the plain search -----

  predicate StartsAt(src: string, pat: string, i: nat) {
    i + |pat| <= |src| && src[i..i + |pat|] == pat
  }

  /** memchr: the first x between s1 and lim. */
  method MemChr(src: string, s1: nat, x: char, lim: nat) returns (k: Option<nat>)
    requires s1 <= lim <= |src|
    ensures k.None? ==> forall i :: s1 <= i < lim ==> src[i] != x
    ensures k.Some? ==> s1 <= k.value < lim && src[k.value] == x && forall i :: s1 <= i < k.value ==> src[i] != x
  {
    var i := s1;
    while i < lim
      invariant s1 <= i <= lim && forall j :: s1 <= j < i ==> src[j] != x
    {
      if src[i] == x { return Some(i); }
      i := i + 1;
    }
    k := None;
  }

  /** lmemfind finds the first occurrence. */
  method LMemFind(src: string, init: nat, pat: string) returns (k: Option<nat>)
    requires init <= |src|
    ensures k.None? ==> forall i: nat :: init <= i ==> !StartsAt(src, pat, i)
    ensures k.Some? ==> init <= k.value && StartsAt(src, pat, k.value) && forall i: nat :: init <= i < k.value ==>
        !StartsAt(src, pat, i)
  {
    if |pat| == 0 { return Some(init); }
    if |pat| > |src| - init { return None; }
    var s1 := init;
    var lim := |src| - (|pat| - 1);
    while s1 < lim
      invariant init <= s1 <= lim && forall i: nat :: init <= i < s1 ==> !StartsAt(src, pat, i)
    {
      var c := MemChr(src, s1, pat[0], lim);
      FirstChar(src, pat);
      if c.None? { break; }
      var at := c.value;
      TailEqual(src, pat, at);
      if src[at + 1..at + |pat|] == pat[1..] { return Some(at); }
      s1 := at + 1;
    }
    k := None;
  }

  lemma TailEqual(src: string, pat: string, at: nat)
    requires pat != [] && at + |pat| <= |src| && src[at] == pat[0]
    ensures StartsAt(src, pat, at) <==> src[at + 1..at + |pat|] == pat[1..]
  {
    assert src[at..at + |pat|] == [src[at]] + src[at + 1..at + |pat|];
    assert pat == [pat[0]] + pat[1..];
    if StartsAt(src, pat, at) { assert src[at..at + |pat|][1..] == src[at + 1..at + |pat|]; }
  }

  lemma FirstChar(src: string, pat: string)
    requires pat != []
    ensures forall i: nat :: StartsAt(src, pat, i) ==> src[i] == pat[0]
  {
    forall i: nat | StartsAt(src, pat, i) ensures src[i] == pat[0] {
      assert src[i..i + |pat|][0] == src[i];
    }
  }

  /** The characters strpbrk looks for. */
  predicate Special(c: char) {
    c in "^$*+?.([%-"
  }

  /** Characters that a plain pattern may hold if the matcher is to read it the same way. */
  predicate PlainChar(c: char) {
    !Special(c) && c != ')' && c != '\0'
  }

  /** strpbrk finds no special character; like every function on C strings it stops at a zero. */
  ghost predicate NoSpecials(pat: string) {
    forall i :: 0 <= i < |pat| && (forall j :: 0 <= j < i ==> pat[j] != '\0') ==>
        pat[i] !in ['^', '$', '*', '+', '?', '.', '(', '[', '%', '-']
  }

  /** On a plain pattern the matcher compares character by character. */
  lemma {:induction false} PlainResults(src: string, pat: string, p: nat, s: nat, caps: seq<Capture>, n: nat)
    requires p <= n <= |pat| && s <= |src| && CapsOk(src, s, caps) && forall i :: p <= i < n ==> PlainChar(pat[i])
    requires n < |pat| ==> pat[n] == ')' || pat[n] == '\0'
    ensures var m := n - p;
            if s + m <= |src| && src[s..s + m] == pat[p..n]
            then CapsOk(src, s + m, caps) && Results(src, pat, p, s, caps) == Results(src, pat, n, s + m, caps)
            else Results(src, pat, p, s, caps) == []
    decreases n - p
  {
    var m := n - p;
    if m > 0 {
      assert KindAt(pat, p) == KItem && ClassEnd(pat, p) == Some(p + 1);
      assert !IsMark(At(pat, p + 1));
      if s < |src| {
        LaterOk(src, s, s + 1, caps);
        PlainResults(src, pat, p + 1, s + 1, caps, n);
        if s + m <= |src| {
          assert src[s..s + m] == [src[s]] + src[s + 1..s + m];
          assert pat[p..n] == [pat[p]] + pat[p + 1..n];
        }
      }
    }
  }

  /** The two searches agree on where the pattern first occurs. */
  ghost predicate Agree(src: string, pat: string, init: nat)
    requires init <= |src|
  {
    && (forall k: nat :: FirstStart(src, pat, 0, init, k) ==>
        Results(src, pat, 0, k, [])[0] == Found(k + |pat|, []) && FirstPlain(src, pat, init, k))
    && (forall k: nat :: FirstPlain(src, pat, init, k) ==> FirstStart(src, pat, 0, init, k))
  }

  ghost predicate FirstPlain(src: string, pat: string, i: nat, k: nat) {
    i <= k && StartsAt(src, pat, k) && forall j: nat :: i <= j < k ==> !StartsAt(src, pat, j)
  }

  lemma PlainAt(src: string, pat: string, j: nat)
    requires j <= |src| && forall i :: 0 <= i < |pat| ==> PlainChar(pat[i])
    ensures Results(src, pat, 0, j, []) == if StartsAt(src, pat, j) then [Found(j + |pat|, [])] else []
  {
    PlainResults(src, pat, 0, j, [], |pat|);
    assert pat[0..|pat|] == pat;
  }

  lemma {:induction false} FirstOdd(pat: string) returns (n: nat)
    requires NoSpecials(pat) && exists i :: 0 <= i < |pat| && !PlainChar(pat[i])
    ensures n < |pat| && (pat[n] == ')' || pat[n] == '\0') && forall i :: 0 <= i < n ==> PlainChar(pat[i])
  {
    n := 0;
    while PlainChar(pat[n])
      invariant n < |pat| && forall i :: 0 <= i < n ==> PlainChar(pat[i])
      decreases |pat| - n
    {
      n := n + 1;
    }
  }

  /** For a pattern without special characters, the plain search gives what the matcher gives,
      for every subject and start, just when the pattern holds no ')' and no zero. */
  lemma PlainIff(pat: string)
    requires NoSpecials(pat)
    ensures (forall src: string, init: nat :: init <= |src| ==> Agree(src, pat, init)) <==>
        forall i :: 0 <= i < |pat| ==> PlainChar(pat[i])
  {
    if forall i :: 0 <= i < |pat| ==> PlainChar(pat[i]) {
      forall src: string, init: nat | init <= |src| ensures Agree(src, pat, init) { PlainAgrees(src, pat, init); }
    } else {
      var n := FirstOdd(pat);
      PlainDiffers(pat, n);
      var src := if pat[n] == ')' then pat else pat[..n];
      assert !Agree(src, pat, 0);
    }
  }

  lemma PlainAgrees(src: string, pat: string, init: nat)
    requires init <= |src| && forall i :: 0 <= i < |pat| ==> PlainChar(pat[i])
    ensures Agree(src, pat, init)
  {
    forall j: nat | j <= |src|
        ensures Results(src, pat, 0, j, []) == if StartsAt(src, pat, j) then [Found(j + |pat|, [])] else [] {
        PlainAt(src, pat, j); }
  }

  /** A subject on which the two differ: the matcher raises an error at ')', and stops at a zero. */
  lemma PlainDiffers(pat: string, n: nat)
    requires n < |pat| && (pat[n] == ')' || pat[n] == '\0') && forall i :: 0 <= i < n ==> PlainChar(pat[i])
    ensures !Agree(if pat[n] == ')' then pat else pat[..n], pat, 0)
  {
    var src := if pat[n] == ')' then pat else pat[..n];
    PlainResults(src, pat, 0, 0, [], n);
    assert src[0..n] == pat[0..n];
    assert FirstStart(src, pat, 0, 0, 0);
    assert Results(src, pat, 0, 0, []) == Results(src, pat, n, n, []);
    assert Results(src, pat, n, n, [])[0] == if pat[n] == ')' then Bad else Found(n, []);
  }

  // ----- str_find_aux -----

  /** strpbrk(p, SPECIALS) == NULL. */
  method HasNoSpecials(p: string) returns (b: bool)
    ensures b == NoSpecials(p)
  {
    var i := 0;
    while i < |p| && p[i] != '\0'
      invariant 0 <= i <= |p| && forall j :: 0 <= j < i ==> p[j] != '\0' && !Special(p[j])
    {
      if Special(p[i]) { return false; }
      i := i + 1;
    }
    b := true;
  }

  /** posrelat, and what str_find_aux makes of it: an index into the subject. */
  function InitOf(pos: int, len: nat): (init: nat)
    ensures init <= len
    ensures 1 <= pos <= len + 1 ==> init == pos - 1
    ensures pos < 0 <= pos + len ==> init == len + pos
    ensures pos == 0 || pos + len < 0 ==> init == 0
    ensures pos > len + 1 ==> init == len
  {
    var rel := if pos < 0 then (if pos + len + 1 >= 0 then pos + len + 1 else 0) else pos;
    if rel - 1 < 0 then 0 else if rel - 1 > len then len else rel - 1
  }

  datatype CapValue = Text(t: string) | Index(i: int)

  /** push_captures: positions count from 1; a capture that is still open is an error. */
  function Pushed(src: string, caps: seq<Capture>): Option<seq<CapValue>>
    requires CapsOk(src, |src|, caps)
  {
    if caps == [] then Some([])
    else
      var c, rest := caps[|caps| - 1], Pushed(src, caps[..|caps| - 1]);
      if rest.None? || c.len.Unfinished? then None
      else Some(rest.value + [if c.len.Position? then Index(c.init + 1) else Text(src[c.init..c.init + c.len.n])])
  }

  lemma {:induction false} PushedIff(src: string, caps: seq<Capture>)
    requires CapsOk(src, |src|, caps)
    ensures Pushed(src, caps).Some? <==> forall i :: 0 <= i < |caps| ==> !caps[i].len.Unfinished?
    ensures Pushed(src, caps).Some? ==> |Pushed(src, caps).value| == |caps|
    decreases |caps|
  {
    if caps != [] {
      PushedIff(src, caps[..|caps| - 1]);
      assert caps == caps[..|caps| - 1] + [caps[|caps| - 1]];
    }
  }

  /** The captures as the caller gets them: the text of each, or its position counted from 1. */
  ghost predicate Shown(src: string, caps: seq<Capture>, vs: seq<CapValue>) {
    && |vs| == |caps|
    && forall i :: 0 <= i < |caps| ==>
        match caps[i].len
        case Unfinished => false
        case Position => vs[i] == Index(caps[i].init + 1)
        case Size(n) => caps[i].init + n <= |src| && vs[i] == Text(src[caps[i].init..caps[i].init + n])
  }

  lemma {:induction false} PushedShown(src: string, caps: seq<Capture>)
    requires CapsOk(src, |src|, caps)
    ensures Pushed(src, caps).Some? ==> Shown(src, caps, Pushed(src, caps).value)
    ensures Pushed(src, caps).None? ==> exists i :: 0 <= i < |caps| && caps[i].len.Unfinished?
    decreases |caps|
  {
    if caps != [] {
      var front := caps[..|caps| - 1];
      PushedShown(src, front);
      if Pushed(src, front).None? {
        var i :| 0 <= i < |front| && front[i].len.Unfinished?;
        assert caps[i].len.Unfinished?;
      } else if Pushed(src, caps).Some? {
        forall i | 0 <= i < |front| ensures caps[i] == front[i] {}
      }
    }
  }

  datatype Answer = NotFound | Positions(start: int, end: int,
      captures: seq<CapValue>) | Captures(captures: seq<CapValue>) | Failed

  /** The answer for a result of the search: positions for find, values for match. */
  function AnswerOf(src: string, r: Search, find: bool): Answer
    requires r.At1? ==> r.start <= r.end <= |src| && CapsOk(src, |src|, r.caps)
  {
    match r
    case Nothing => NotFound
    case Raised => Failed
    case At1(i, e, caps) =>
      var vs := Pushed(src, caps);
      if vs.None? then Failed
      else if find then Positions(i + 1, e, vs.value)
      else if caps == [] then Captures([Text(src[i..e])])
      else Captures(vs.value)
  }

  /** What string.find or string.match has to answer for the preferred result at start k. */
  ghost predicate Answered(src: string, h: Hit, k: nat, find: bool, r: Answer) {
    match h
    case Bad => r == Failed
    case Found(e, caps) =>
      if exists i :: 0 <= i < |caps| && caps[i].len.Unfinished? then r == Failed
      else if find then r.Positions? && r.start == k + 1 && r.end == e && Shown(src, caps, r.captures)
      else if caps == [] then k <= e <= |src| && r == Captures([Text(src[k..e])])
      else r.Captures? && Shown(src, caps, r.captures)
  }

  /** str_find_aux: string.find and string.match. The plain search gives the first occurrence; the
      matcher its preferred result at the first start that has one, which is the first place
      only when the pattern begins with '^'. */
  method StrFindAux(s: string, p: string, pos: int, find: bool, plain: bool) returns (r: Answer)
    ensures var init := InitOf(pos, |s|);
            if find && (plain || NoSpecials(p)) then
              if exists k: nat :: FirstPlain(s, p, init, k) then
                exists k: nat :: FirstPlain(s, p, init, k) && r == Positions(k + 1, k + |p|, [])
              else r == NotFound
            else
              var anchor := p != [] && p[0] == '^';
              var q := if anchor then 1 else 0;
              var last := if anchor then init else |s|;
              if forall j :: init <= j <= last ==> Results(s, p, q, j, []) == [] then r == NotFound
              else
                exists k: nat ::
                    FirstStart(s, p, q, init, k) && k <= last && Answered(s, Results(s, p, q, k, [])[0], k, find, r)
  {
    var init := InitOf(pos, |s|);
    var none := HasNoSpecials(p);
    if find && (plain || none) {
      var s2 := LMemFind(s, init, p);
      r := if s2.Some? then Positions(s2.value + 1, s2.value + |p|, []) else NotFound;
      assert s2.Some? ==> FirstPlain(s, p, init, s2.value);
    } else {
      var anchor := At(p, 0) == '^';
      var q := if anchor then 1 else 0;
      var t := SearchLoop(s, p, q, init, anchor);
      SearchedIs(s, p, q, init, anchor, t);
      r := AnswerOf(s, t, find);
      AnswerIs(s, p, q, init, anchor, t, find);
    }
  }

  lemma AnswerIs(src: string, pat: string, p: nat, init: nat, anchor: bool, t: Search, find: bool)
    requires p <= |pat| && Searched(src, pat, p, init, anchor, t)
    ensures var last := if anchor then init else |src|;
            if forall j :: init <= j <= last ==>
                Results(src, pat, p, j, []) == [] then AnswerOf(src, t, find) == NotFound
            else
              exists k: nat ::
                  FirstStart(src, pat, p, init, k) && k <= last
                  && Answered(src, Results(src, pat, p, k, [])[0], k, find, AnswerOf(src, t, find))
  {
    hide Results;
    if !t.Nothing? {
      var k: nat :| FirstStart(src, pat, p, init, k) && (anchor ==> k == init) && Reports(t, src, pat, p, k);
      if t.At1? {
        PushedShown(src, t.caps);
        PushedIff(src, t.caps);
      }
      assert Answered(src, Results(src, pat, p, k, [])[0], k, find, AnswerOf(src, t, find));
    }
  }

  /** t is the outcome of the search with the matcher. */
  ghost predicate Searched(src: string, pat: string, p: nat, init: nat, anchor: bool, t: Search) {
    && p <= |pat| && init <= |src|
    && (t.At1? ==> t.start <= t.end <= |src| && CapsOk(src, |src|, t.caps))
    && (t.Nothing? ==> forall j :: init <= j <= (if anchor then init else |src|) ==> Results(src, pat, p, j, []) == [])
    && (!t.Nothing? ==>
        exists k: nat :: FirstStart(src, pat, p, init, k) && (anchor ==> k == init) && Reports(t, src, pat, p, k))
  }

  lemma SearchedIs(src: string, pat: string, p: nat, init: nat, anchor: bool, t: Search)
    requires p <= |pat| && init <= |src|
    requires t.Nothing? ==> forall j :: init <= j <= (if anchor then init else |src|) ==>
        Results(src, pat, p, j, []) == []
    requires !t.Nothing? ==>
        exists k: nat :: FirstStart(src, pat, p, init, k) && (anchor ==> k == init) && Reports(t, src, pat, p, k)
    ensures Searched(src, pat, p, init, anchor, t)
  {
    if !t.Nothing? {
      var k: nat :| FirstStart(src, pat, p, init, k) && (anchor ==> k == init) && Reports(t, src, pat, p, k);
      assert HitOk(src, k, [], Results(src, pat, p, k, [])[0]);
      if t.At1? { LaterOk(src, t.end, |src|, t.caps); }
    }
  }
}
