/** The matcher's search is sound and complete, prefers what the pattern asks for, and raises
    no error for a pattern that is well formed. */
module PatternProof {
  import opened Common
  import opened PatternSpec
  import opened PatternResults

  // ----- what the helpers compute -----

  lemma ItemsCons(it: Item, rest: seq<Item>, c: char)
    ensures SomeItem([it] + rest, c) <==> ItemHas(it, c) || SomeItem(rest, c)
  {
    var l := [it] + rest;
    if i :| 0 <= i < |rest| && ItemHas(rest[i], c) { assert ItemHas(l[i + 1], c); }
    if ItemHas(it, c) { assert ItemHas(l[0], c); }
    if i :| 0 <= i < |l| && ItemHas(l[i], c) { assert i > 0 ==> ItemHas(rest[i - 1], c); }
  }

  /** A set has an item for c if its first item is one, or the rest has one. */
  lemma SetStep(pat: string, q: nat, ec: nat, c: char)
    requires ec < |pat|
    ensures if q < ec then SomeItem(SetItems(pat, q, ec), c) <==>
        ItemHas(ItemAt(pat, q, ec).0, c) || SomeItem(SetItems(pat, ItemAt(pat, q, ec).1, ec), c)
            else !SomeItem(SetItems(pat, q, ec), c)
  {
    if q < ec { ItemsCons(ItemAt(pat, q, ec).0, SetItems(pat, ItemAt(pat, q, ec).1, ec), c); }
  }

  lemma {:induction false} RepsRun(src: string, pat: string, p: nat, ep: nat, s: nat, k: nat)
    requires p < |pat| && ClassEnd(pat, p) == Some(ep) && s <= |src|
    ensures Reps(src, pat, p, ep, s, k) <==> k <= Run(src, pat, p, ep, s)
  {
    var n := Run(src, pat, p, ep, s);
    assert k > n && s + k <= |src| ==> s <= s + n < s + k && !SingleMatch(src[s + n], pat, p, ep);
  }

  lemma CountNext(src: string, s: nat, q: nat, x: char)
    requires s <= q < |src|
    ensures Count(src[s..q + 1], x) == Count(src[s..q], x) + if src[q] == x then 1 else 0
  {
    assert src[s..q + 1][..q - s] == src[s..q];
  }

  lemma {:induction false} BalanceFrom(src: string, s: nat, q: nat, x: char, y: char, open: nat, r: nat)
    requires s < q <= |src| && x != y && open > 0 && open == Count(src[s..q], x) - Count(src[s..q], y)
    ensures BalanceEnd(src, q, x, y, open) == Some(r) <==>
        q < r <= |src| && Closes(src, s, r, x, y) && forall t :: q < t < r ==> !Closes(src, s, t, x, y)
    decreases |src| - q
  {
    if q < |src| {
      CountNext(src, s, q, x);
      CountNext(src, s, q, y);
      if src[q] == y && open == 1 {
        assert Closes(src, s, q + 1, x, y);
      } else {
        assert !Closes(src, s, q + 1, x, y);
        BalanceFrom(src, s, q + 1, x, y, if src[q] == y then open - 1 else if src[q] == x then open + 1 else open, r);
      }
    }
  }

  lemma {:induction false} BalanceTwin(src: string, s: nat, q: nat, x: char, r: nat)
    requires s < q <= |src| && Count(src[s..q], x) == 1
    ensures BalanceEnd(src, q, x, x, 1) == Some(r) <==>
        q < r <= |src| && Closes(src, s, r, x, x) && forall t :: q < t < r ==> !Closes(src, s, t, x, x)
    decreases |src| - q
  {
    if q < |src| {
      CountNext(src, s, q, x);
      if src[q] == x {
        assert Closes(src, s, q + 1, x, x);
      } else {
        assert !Closes(src, s, q + 1, x, x);
        BalanceTwin(src, s, q + 1, x, r);
      }
    }
  }

  /** matchbalance finds the balanced string, if there is one. */
  lemma BalanceIs(src: string, s: nat, x: char, y: char, r: nat)
    requires s <= |src| && x != '\0'
    ensures At(src, s) == x && BalanceEnd(src, s + 1, x, y, 1) == Some(r) <==> Balanced(src, s, r, x, y)
  {
    if s < |src| && src[s] == x {
      CountNext(src, s, s, x);
      CountNext(src, s, s, y);
      assert src[s..s] == [];
      if x == y { BalanceTwin(src, s, s + 1, x, r); } else { BalanceFrom(src, s, s + 1, x, y, 1, r); }
      assert !Closes(src, s, s + 1, x, y);
    }
  }

  lemma CopyIs(src: string, s: nat, c: Capture, r: nat)
    requires s <= |src| && (c.len.Size? ==> c.init + c.len.n <= |src|)
    ensures CopyEnd(src, s, c) == Some(r) <==> SameText(src, s, r, c)
  {
    if SameText(src, s, r, c) {
      assert |src[s..r]| == r - s && |src[c.init..c.init + c.len.n]| == c.len.n;
    }
  }

  // ----- repetitions -----

  /** h is a result of the rest of the pattern after k characters. */
  ghost predicate HitAfter(src: string, pat: string, q: nat, s: nat, caps: seq<Capture>, k: nat, h: Hit)
    requires q <= |pat| && s <= |src| && CapsOk(src, s, caps)
  {
    s + k <= |src| && h in Results(src, pat, q, s + k, caps)
  }

  lemma {:induction false} MaxIn(src: string, pat: string, q: nat, s: nat, i: nat, caps: seq<Capture>, h: Hit)
    requires q <= |pat| && s + i <= |src| && CapsOk(src, s, caps)
    ensures h in MaxResults(src, pat, q, s, i, caps) <==>
        exists k: nat :: k <= i && HitAfter(src, pat, q, s, caps, k, h)
    decreases i
  {
    assert HitAfter(src, pat, q, s, caps, i, h) <==> h in Results(src, pat, q, s + i, caps);
    if i > 0 {
      MaxIn(src, pat, q, s, i - 1, caps, h);
      var a, b := Results(src, pat, q, s + i, caps), MaxResults(src, pat, q, s, i - 1, caps);
      assert h in a + b <==> h in a || h in b;
    } else {
      assert Results(src, pat, q, s, caps) + [] == Results(src, pat, q, s, caps);
    }
  }

  lemma {:induction false} MinIn(src: string, pat: string, p: nat, ep: nat, q: nat, s: nat, caps: seq<Capture>, h: Hit)
    requires p < |pat| && ClassEnd(pat, p) == Some(ep) && q == ep + 1 <= |pat| && s <= |src| && CapsOk(src, s, caps)
    ensures h in MinResults(src, pat, p, ep, s, caps) <==>
        exists k: nat :: k <= Run(src, pat, p, ep, s) && HitAfter(src, pat, q, s, caps, k, h)
    decreases |src| - s
  {
    hide ClassEnd, SingleMatch, CapsOk, Results;
    var a := Results(src, pat, q, s, caps);
    assert HitAfter(src, pat, q, s, caps, 0, h) <==> h in a;
    if s < |src| && SingleMatch(src[s], pat, p, ep) {
      var t := s + 1;
      LaterOk(src, s, t, caps);
      MinIn(src, pat, p, ep, q, t, caps, h);
      var b := MinResults(src, pat, p, ep, t, caps);
      assert h in a + b <==> h in a || h in b;
      ShiftHits(src, pat, q, s, t, caps, h);
      hide HitAfter;
      Shifted(src, pat, p, ep, q, s, t, caps, h);
    } else {
      assert a + [] == a;
    }
  }

  lemma ShiftHits(src: string, pat: string, q: nat, s: nat, t: nat, caps: seq<Capture>, h: Hit)
    requires q <= |pat| && s < |src| && t == s + 1 && CapsOk(src, s, caps) && CapsOk(src, t, caps)
    ensures forall k: nat :: HitAfter(src, pat, q, t, caps, k, h) <==> HitAfter(src, pat, q, s, caps, k + 1, h)
  {
    hide CapsOk, Results;
    forall k: nat ensures HitAfter(src, pat, q, t, caps, k, h) <==> HitAfter(src, pat, q, s, caps, k + 1, h) {
      assert t + k == s + (k + 1);
    }
  }

  lemma Shifted(src: string, pat: string, p: nat, ep: nat, q: nat, s: nat, t: nat, caps: seq<Capture>, h: Hit)
    requires p < |pat| && ClassEnd(pat, p) == Some(ep) && q <= |pat| && s < |src| && t == s + 1 && CapsOk(src, s, caps)
        && CapsOk(src, t, caps)
    requires SingleMatch(src[s], pat, p, ep)
    requires forall k: nat :: HitAfter(src, pat, q, t, caps, k, h) <==> HitAfter(src, pat, q, s, caps, k + 1, h)
    ensures (exists k: nat :: k <= Run(src, pat, p, ep, s) && HitAfter(src, pat, q, s, caps, k, h)) <==>
            HitAfter(src, pat, q, s, caps, 0, h) || exists k: nat ::
                k <= Run(src, pat, p, ep, t) && HitAfter(src, pat, q, t, caps, k, h)
  {
    hide ClassEnd, SingleMatch, CapsOk, HitAfter;
    if k: nat :| k <= Run(src, pat, p, ep, s) && HitAfter(src, pat, q, s, caps, k, h) {
      if k > 0 { assert HitAfter(src, pat, q, t, caps, k - 1, h); }
    }
    if k: nat :| k <= Run(src, pat, p, ep, t) && HitAfter(src, pat, q, t, caps, k, h) {
      assert HitAfter(src, pat, q, s, caps, k + 1, h);
    }
  }

  ghost predicate Repeated(src: string, pat: string, p: nat, ep: nat, q: nat, s: nat, caps: seq<Capture>, h: Hit,
      k: nat)
    requires p < |pat| && ClassEnd(pat, p) == Some(ep) && q <= |pat| && s <= |src| && CapsOk(src, s, caps)
  {
    Times(At(pat, ep), k) && Reps(src, pat, p, ep, s, k) && h in Results(src, pat, q, s + k, caps)
  }

  function After(pat: string, ep: nat): nat
    requires ep <= |pat|
  {
    if IsMark(At(pat, ep)) then ep + 1 else ep
  }

  /** An item has exactly the results of its allowed repetitions. */
  lemma ItemIn(src: string, pat: string, p: nat, ep: nat, s: nat, caps: seq<Capture>, h: Hit)
    requires p < |pat| && s <= |src| && CapsOk(src, s, caps) && ClassEnd(pat, p) == Some(ep)
    ensures h in ItemResults(src, pat, p, ep, s, caps) <==>
        exists k: nat :: Repeated(src, pat, p, ep, After(pat, ep), s, caps, h, k)
  {
    var q, mark := After(pat, ep), At(pat, ep);
    var m := s < |src| && SingleMatch(src[s], pat, p, ep);
    forall k: nat ensures Reps(src, pat, p, ep, s, k) <==>
        k <= Run(src, pat, p, ep, s) { RepsRun(src, pat, p, ep, s, k); }
    assert m <==> Run(src, pat, p, ep, s) >= 1;
    if mark == '?' {
      var a, b := if m then Results(src, pat, q, s + 1, caps) else [], Results(src, pat, q, s, caps);
      assert h in a + b <==> h in a || h in b;
      if m && h in a { assert Repeated(src, pat, p, ep, q, s, caps, h, 1); }
      if h in b { assert Repeated(src, pat, p, ep, q, s, caps, h, 0); }
    } else if mark == '*' {
      MaxIn(src, pat, q, s, Run(src, pat, p, ep, s), caps, h);
      AllRepeated(src, pat, p, ep, q, s, caps, h);
    } else if mark == '+' {
      if m { PlusIn(src, pat, p, ep, q, s, caps, h); }
    } else if mark == '-' {
      MinIn(src, pat, p, ep, q, s, caps, h);
      AllRepeated(src, pat, p, ep, q, s, caps, h);
    } else {
      if m && h in Results(src, pat, q, s + 1, caps) { assert Repeated(src, pat, p, ep, q, s, caps, h, 1); }
    }
  }

  lemma AllRepeated(src: string, pat: string, p: nat, ep: nat, q: nat, s: nat, caps: seq<Capture>, h: Hit)
    requires p < |pat| && ClassEnd(pat, p) == Some(ep) && q <= |pat| && s <= |src| && CapsOk(src, s, caps)
        && (At(pat, ep) == '*' || At(pat, ep) == '-')
    requires forall k: nat :: Reps(src, pat, p, ep, s, k) <==> k <= Run(src, pat, p, ep, s)
    ensures (exists k: nat :: Repeated(src, pat, p, ep, q, s, caps, h, k)) <==>
        exists k: nat :: k <= Run(src, pat, p, ep, s) && HitAfter(src, pat, q, s, caps, k, h)
  {
    hide ClassEnd, CapsOk, Results, Run, Reps;
    forall k: nat ensures Repeated(src, pat, p, ep, q, s, caps, h, k) <==>
        k <= Run(src, pat, p, ep, s) && HitAfter(src, pat, q, s, caps, k, h) {}
  }

  lemma PlusIn(src: string, pat: string, p: nat, ep: nat, q: nat, s: nat, caps: seq<Capture>, h: Hit)
    requires p < |pat| && ClassEnd(pat, p) == Some(ep) && q <= |pat| && s < |src| && CapsOk(src, s, caps)
        && At(pat, ep) == '+'
    requires SingleMatch(src[s], pat, p, ep) && forall k: nat :: Reps(src, pat, p, ep, s, k) <==>
        k <= Run(src, pat, p, ep, s)
    ensures CapsOk(src, s + 1, caps)
    ensures h in MaxResults(src, pat, q, s + 1, Run(src, pat, p, ep, s + 1), caps) <==>
        exists k: nat :: Repeated(src, pat, p, ep, q, s, caps, h, k)
  {
    var t := s + 1;
    LaterOk(src, s, t, caps);
    hide ClassEnd, SingleMatch, CapsOk, Results, Reps;
    MaxIn(src, pat, q, t, Run(src, pat, p, ep, t), caps, h);
    if k: nat :| k <= Run(src, pat, p, ep, t) && HitAfter(src, pat, q, t, caps, k, h) {
      assert t + k == s + (k + 1);
      assert Repeated(src, pat, p, ep, q, s, caps, h, k + 1);
    }
    if k: nat :| Repeated(src, pat, p, ep, q, s, caps, h, k) {
      assert t + (k - 1) == s + k;
      assert HitAfter(src, pat, q, t, caps, k - 1, h);
    }
  }

  // ----- soundness and completeness -----

  /** The search finds exactly the matches there are. */
  lemma {:induction false} FoundIffMatches(src: string, pat: string, p: nat, s: nat, caps: seq<Capture>, e: nat,
      cs: seq<Capture>)
    requires p <= |pat| && s <= |src| && CapsOk(src, s, caps)
    ensures Found(e, cs) in Results(src, pat, p, s, caps) <==> Matches(src, pat, p, s, caps, e, cs)
    decreases |pat| - p
  {
    hide Balanced, SameText, Reps, CapsOk;
    match KindAt(pat, p) {
      case KEnd =>
      case KOpen(q, what) =>
        if |caps| < MAXCAPTURES {
            OpenOk(src, s, caps, what); FoundIffMatches(src, pat, q, s, caps + [Capture(s, what)], e, cs); }
      case KClose =>
        var l := ToClose(caps);
        if l.Some? {
            CloseOk(src, s, caps, l.value); FoundIffMatches(src, pat, p + 1, s, Closing(s, caps, l.value), e, cs); }
      case KBalance => BalanceCase(src, pat, p, s, caps, e, cs);
      case KFrontier =>
        if At(pat, p + 2) == '[' && ClassEnd(pat, p + 2).Some? {
            FoundIffMatches(src, pat, ClassEnd(pat, p + 2).value, s, caps, e, cs); }
      case KCopy => CopyCase(src, pat, p, s, caps, e, cs);
      case KDollar =>
      case KItem => ItemCase(src, pat, p, s, caps, e, cs);
    }
  }

  lemma OpenOk(src: string, s: nat, caps: seq<Capture>, what: Len)
    requires CapsOk(src, s, caps) && |caps| < MAXCAPTURES && !what.Size?
    ensures CapsOk(src, s, caps + [Capture(s, what)])
  {
  }

  lemma CloseOk(src: string, s: nat, caps: seq<Capture>, l: nat)
    requires CapsOk(src, s, caps) && l < |caps| && s <= |src|
    ensures caps[l].init <= s && CapsOk(src, s, Closing(s, caps, l))
  {
  }

  lemma LaterOk(src: string, s: nat, r: nat, caps: seq<Capture>)
    requires CapsOk(src, s, caps) && s <= r
    ensures CapsOk(src, r, caps)
  {
  }

  lemma BalanceCase(src: string, pat: string, p: nat, s: nat, caps: seq<Capture>, e: nat, cs: seq<Capture>)
    requires p <= |pat| && s <= |src| && CapsOk(src, s, caps) && KindAt(pat, p) == KBalance
    ensures Found(e, cs) in Results(src, pat, p, s, caps) <==> Matches(src, pat, p, s, caps, e, cs)
    decreases |pat| - p, 0
  {
    hide CapsOk;
    if At(pat, p + 2) != '\0' && At(pat, p + 3) != '\0' {
      var x, y := pat[p + 2], pat[p + 3];
      forall r: nat ensures At(src, s) == x && BalanceEnd(src, s + 1, x, y, 1) == Some(r) <==>
          Balanced(src, s, r, x, y) { BalanceIs(src, s, x, y, r); }
      hide Balanced;
      if At(src, s) == x && BalanceEnd(src, s + 1, x, y, 1).Some? {
        var r := BalanceEnd(src, s + 1, x, y, 1).value;
        LaterOk(src, s, r, caps);
        FoundIffMatches(src, pat, p + 4, r, caps, e, cs);
      }
    }
  }

  lemma CopyCase(src: string, pat: string, p: nat, s: nat, caps: seq<Capture>, e: nat, cs: seq<Capture>)
    requires p <= |pat| && s <= |src| && CapsOk(src, s, caps) && KindAt(pat, p) == KCopy
    ensures Found(e, cs) in Results(src, pat, p, s, caps) <==> Matches(src, pat, p, s, caps, e, cs)
    decreases |pat| - p, 0
  {
    var l := Referred(caps, pat[p + 1]);
    if l.Some? {
      var c := caps[l.value];
      forall r: nat ensures CopyEnd(src, s, c) == Some(r) <==> SameText(src, s, r, c) { CopyIs(src, s, c, r); }
      hide SameText;
      if CopyEnd(src, s, c).Some? {
        var r := CopyEnd(src, s, c).value;
        LaterOk(src, s, r, caps);
        FoundIffMatches(src, pat, p + 2, r, caps, e, cs);
      }
    }
  }

  lemma ItemCase(src: string, pat: string, p: nat, s: nat, caps: seq<Capture>, e: nat, cs: seq<Capture>)
    requires p <= |pat| && s <= |src| && CapsOk(src, s, caps) && KindAt(pat, p) == KItem
    ensures Found(e, cs) in Results(src, pat, p, s, caps) <==> Matches(src, pat, p, s, caps, e, cs)
    decreases |pat| - p, 0
  {
    hide CapsOk;
    if ClassEnd(pat, p).Some? {
      var ep := ClassEnd(pat, p).value;
      var q := After(pat, ep);
      ItemIn(src, pat, p, ep, s, caps, Found(e, cs));
      forall k: nat | Reps(src, pat, p, ep, s, k)
        ensures CapsOk(src, s + k, caps)
        ensures Found(e, cs) in Results(src, pat, q, s + k, caps) <==> Matches(src, pat, q, s + k, caps, e, cs)
      {
        LaterOk(src, s, s + k, caps);
        FoundIffMatches(src, pat, q, s + k, caps, e, cs);
      }
      if k: nat :| Repeated(src, pat, p, ep, q, s, caps, Found(e, cs), k) {
        assert Times(At(pat, ep), k) && Reps(src, pat, p, ep, s, k) && Matches(src, pat, q, s + k, caps, e, cs);
      }
      if k: nat :| Times(At(pat, ep), k) && Reps(src, pat, p, ep, s, k) && Matches(src, pat, q, s + k, caps, e, cs) {
        assert Repeated(src, pat, p, ep, q, s, caps, Found(e, cs), k);
      }
    }
  }

  // ----- which match is preferred -----

  /** h is the first result for the largest count, up to i, for which the rest matches. */
  ghost predicate Longest(src: string, pat: string, q: nat, s: nat, i: nat, caps: seq<Capture>, h: Hit)
    requires q <= |pat| && s <= |src| && CapsOk(src, s, caps)
  {
    exists k: nat :: k <= i && Best(src, pat, q, s, caps, k, h) && forall j: nat :: k < j <= i ==>
        NoHit(src, pat, q, s, caps, j)
  }

  lemma LongestNext(src: string, pat: string, q: nat, s: nat, i: nat, caps: seq<Capture>, h: Hit)
    requires q <= |pat| && s <= |src| && CapsOk(src, s, caps) && i > 0 && Longest(src, pat, q, s, i - 1, caps, h)
        && NoHit(src, pat, q, s, caps, i)
    ensures Longest(src, pat, q, s, i, caps, h)
  {
    hide Best, NoHit, CapsOk;
    var k: nat :| k <= i - 1 && Best(src, pat, q, s, caps, k, h) && forall j: nat :: k < j <= i - 1 ==>
        NoHit(src, pat, q, s, caps, j);
    assert Best(src, pat, q, s, caps, k, h);
  }

  lemma ItemIs(src: string, pat: string, p: nat, s: nat, caps: seq<Capture>)
    requires p < |pat| && s <= |src| && CapsOk(src, s, caps) && KindAt(pat, p) == KItem
    ensures Results(src, pat, p, s, caps) == if ClassEnd(pat, p).None? then [Bad]
        else ItemResults(src, pat, p, ClassEnd(pat, p).value, s, caps)
    ensures ClassEnd(pat, p).Some? ==> p < ClassEnd(pat, p).value <= |pat|
  {
  }

  lemma MaxStep(src: string, pat: string, q: nat, s: nat, i: nat, caps: seq<Capture>)
    requires q <= |pat| && s + i <= |src| && CapsOk(src, s, caps) && CapsOk(src, s + i, caps)
    ensures var a, all := Results(src, pat, q, s + i, caps), MaxResults(src, pat, q, s, i, caps);
            if a != [] then all != [] && all[0] == a[0] else all == if i == 0 then []
                else MaxResults(src, pat, q, s, i - 1, caps)
  {
    hide Results, CapsOk, HitOk;
    FirstOf(Results(src, pat, q, s + i, caps), if i == 0 then [] else MaxResults(src, pat, q, s, i - 1, caps));
  }

  lemma FirstOf(a: seq<Hit>, b: seq<Hit>)
    ensures a == [] ==> a + b == b
    ensures a != [] ==> a + b != [] && (a + b)[0] == a[0]
  {
  }

  /** A greedy repetition takes the largest count for which the rest matches. */
  lemma {:induction false} Greedy(src: string, pat: string, q: nat, s: nat, i: nat, caps: seq<Capture>)
    requires q <= |pat| && s + i <= |src| && CapsOk(src, s, caps) && MaxResults(src, pat, q, s, i, caps) != []
    ensures Longest(src, pat, q, s, i, caps, MaxResults(src, pat, q, s, i, caps)[0])
    decreases i
  {
    LaterOk(src, s, s + i, caps);
    hide CapsOk, Results, HitOk, MaxResults;
    MaxStep(src, pat, q, s, i, caps);
    var a := Results(src, pat, q, s + i, caps);
    if a != [] {
      assert Best(src, pat, q, s, caps, i, MaxResults(src, pat, q, s, i, caps)[0]);
    } else {
      hide Longest;
      assert NoHit(src, pat, q, s, caps, i);
      assert i > 0;
      Greedy(src, pat, q, s, i - 1, caps);
      LongestNext(src, pat, q, s, i, caps, MaxResults(src, pat, q, s, i - 1, caps)[0]);
    }
  }

  /** A lazy one takes the smallest. */
  lemma {:induction false} Lazy(src: string, pat: string, p: nat, ep: nat, q: nat, s: nat, caps: seq<Capture>)
    requires p < |pat| && ClassEnd(pat, p) == Some(ep) && q == ep + 1 <= |pat| && s <= |src| && CapsOk(src, s, caps)
        && MinResults(src, pat, p, ep, s, caps) != []
    ensures exists k: nat ::
        k <= Run(src, pat, p, ep, s) && Best(src, pat, q, s, caps, k, MinResults(src, pat, p, ep, s, caps)[0])
              && forall j: nat :: j < k ==> NoHit(src, pat, q, s, caps, j)
    decreases |src| - s
  {
    hide ClassEnd, SingleMatch, CapsOk, Results, HitOk;
    var a := Results(src, pat, q, s, caps);
    var first := MinResults(src, pat, p, ep, s, caps)[0];
    if a != [] {
      assert Best(src, pat, q, s, caps, 0, first);
    } else {
      var t := s + 1;
      LaterOk(src, s, t, caps);
      Lazy(src, pat, p, ep, q, t, caps);
      var k: nat :| k <= Run(src, pat, p, ep, t)
          && Best(src, pat, q, t, caps, k, MinResults(src, pat, p, ep, t, caps)[0])
              && forall j: nat :: j < k ==> NoHit(src, pat, q, t, caps, j);
      assert t + k == s + (k + 1);
      assert Best(src, pat, q, s, caps, k + 1, first);
      forall j: nat | j < k + 1 ensures NoHit(src, pat, q, s, caps, j) {
        if j > 0 {
          assert t + (j - 1) == s + j;
          assert NoHit(src, pat, q, t, caps, j - 1);
        }
      }
    }
  }

  ghost predicate Best(src: string, pat: string, q: nat, s: nat, caps: seq<Capture>, k: nat, h: Hit)
    requires q <= |pat| && s <= |src| && CapsOk(src, s, caps)
  {
    s + k <= |src| && Results(src, pat, q, s + k, caps) != [] && Results(src, pat, q, s + k, caps)[0] == h
  }

  ghost predicate NoHit(src: string, pat: string, q: nat, s: nat, caps: seq<Capture>, k: nat)
    requires q <= |pat| && s <= |src| && CapsOk(src, s, caps)
  {
    s + k <= |src| && Results(src, pat, q, s + k, caps) == []
  }

  // ----- well-formed patterns -----

  /** Whether each capture is open, closed, or a position. */
  datatype Status = Open | Closed | Pos

  function StatusOf(c: Capture): Status {
    match c.len
    case Unfinished => Open
    case Position => Pos
    case Size(_) => Closed
  }

  function Statuses(caps: seq<Capture>): (st: seq<Status>)
    ensures |st| == |caps| && forall i :: 0 <= i < |st| ==> st[i] == StatusOf(caps[i])
  {
    seq(|caps|, i requires 0 <= i < |caps| => StatusOf(caps[i]))
  }

  function LastOpen(st: seq<Status>): (r: Option<nat>)
    ensures r.Some? ==> r.value < |st| && st[r.value] == Open && forall i :: r.value < i < |st| ==> st[i] != Open
    ensures r.None? ==> forall i :: 0 <= i < |st| ==> st[i] != Open
  {
    if st == [] then None
    else if st[|st| - 1] == Open then Some(|st| - 1)
    else LastOpen(st[..|st| - 1])
  }

  /** What a reader can check without a subject: items end, captures nest and are not too many,
      back references name captures that are closed. */
  predicate WellFormed(pat: string, p: nat, st: seq<Status>)
    requires p <= |pat|
    decreases |pat| - p
  {
    match KindAt(pat, p)
    case KEnd => true
    case KOpen(q, what) => |st| < MAXCAPTURES && WellFormed(pat, q, st + [if what == Position then Pos else Open])
    case KClose => LastOpen(st).Some? && WellFormed(pat, p + 1, st[LastOpen(st).value := Closed])
    case KBalance => At(pat, p + 2) != '\0' && At(pat, p + 3) != '\0' && WellFormed(pat, p + 4, st)
    case KFrontier => At(pat, p + 2) == '[' && ClassEnd(pat, p + 2).Some?
        && WellFormed(pat, ClassEnd(pat, p + 2).value, st)
    case KCopy => '1' <= pat[p + 1] && (pat[p + 1] - '1') as nat < |st| && st[(pat[p + 1] - '1') as nat] != Open
        && WellFormed(pat, p + 2, st)
    case KDollar => true
    case KItem => ClassEnd(pat, p).Some? && WellFormed(pat, After(pat, ClassEnd(pat, p).value), st)
  }

  /** A well-formed pattern raises no error, whatever the subject. */
  lemma {:induction false} NoError(src: string, pat: string, p: nat, s: nat, caps: seq<Capture>)
    requires p <= |pat| && s <= |src| && CapsOk(src, s, caps) && WellFormed(pat, p, Statuses(caps))
    ensures Bad !in Results(src, pat, p, s, caps)
    decreases |pat| - p
  {
    var st := Statuses(caps);
    match KindAt(pat, p) {
      case KEnd =>
      case KOpen(q, what) =>
        assert Statuses(caps + [Capture(s, what)]) == st + [if what == Position then Pos else Open];
        NoError(src, pat, q, s, caps + [Capture(s, what)]);
      case KClose =>
        SameOpen(caps);
        var l := ToClose(caps).value;
        assert Statuses(Closing(s, caps, l)) == st[l := Closed];
        NoError(src, pat, p + 1, s, Closing(s, caps, l));
      case KBalance =>
        if At(src, s) == pat[p + 2] && BalanceEnd(src, s + 1, pat[p + 2], pat[p + 3], 1).Some? {
          NoError(src, pat, p + 4, BalanceEnd(src, s + 1, pat[p + 2], pat[p + 3], 1).value, caps);
        }
      case KFrontier => NoError(src, pat, ClassEnd(pat, p + 2).value, s, caps);
      case KCopy =>
        var l := Referred(caps, pat[p + 1]);
        assert l.Some?;
        if CopyEnd(src, s, caps[l.value]).Some? {
            NoError(src, pat, p + 2, CopyEnd(src, s, caps[l.value]).value, caps); }
      case KDollar =>
      case KItem => ItemNoError(src, pat, p, s, caps);
    }
  }

  lemma SameOpen(caps: seq<Capture>)
    ensures ToClose(caps) == LastOpen(Statuses(caps))
  {
    assert forall i :: 0 <= i < |caps| ==> (caps[i].len.Unfinished? <==> Statuses(caps)[i] == Open);
  }

  lemma ItemNoError(src: string, pat: string, p: nat, s: nat, caps: seq<Capture>)
    requires p <= |pat| && s <= |src| && CapsOk(src, s, caps) && KindAt(pat, p) == KItem
        && WellFormed(pat, p, Statuses(caps))
    ensures Bad !in Results(src, pat, p, s, caps)
    decreases |pat| - p, 0
  {
    hide Results, ItemResults, HitOk;
    ItemIs(src, pat, p, s, caps);
    var ep := ClassEnd(pat, p).value;
    var q := After(pat, ep);
    ItemIn(src, pat, p, ep, s, caps, Bad);
    forall k: nat ensures !Repeated(src, pat, p, ep, q, s, caps, Bad, k) {
      if Reps(src, pat, p, ep, s, k) {
        LaterOk(src, s, s + k, caps);
        NoError(src, pat, q, s + k, caps);
      }
    }
  }
}
