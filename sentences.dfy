/** Splitting on `(?<=[.!?])\s+` and joining with `" "` (App.js:49, 57) is the
    same as replacing every white-space run that follows `.`, `!` or `?` by a
    single space. */
module SentenceProofs {
  import opened Chars
  import opened Scan
  import opened Capitalize

  /** Reference pattern: a whole white-space run right after `.`, `!` or `?`, replaced by one space. */
  function RunHit(s: string, i: nat): (h: Option<Hit>)
    ensures h.Some? <==> SplitsAt(s, i)
    ensures h.Some? ==> h.value.text == " " && i + h.value.len == SpaceRunEnd(s, i)
    ensures h.Some? ==> forall x :: i <= x < i + h.value.len ==> IsSpace(s[x])
    ensures h.Some? ==> i + h.value.len == |s| || !IsSpace(s[i + h.value.len])
  {
    if SplitsAt(s, i) then Some(Hit(SpaceRunEnd(s, i) - i, " ")) else None
  }

  const RunMatcher: Matcher := (s: string, i: nat) => RunHit(s, i)

  lemma RunFires(s: string, i: nat)
    ensures Fires(RunMatcher, s, i) <==> SplitsAt(s, i)
  {
  }

  lemma JoinCons(x: string, rest: seq<string>, sep: string)
    requires |rest| >= 1
    ensures Join([x] + rest, sep) == x + sep + Join(rest, sep)
  {
    assert ([x] + rest)[1..] == rest;
  }

  /** Joining the pieces from `p` (the search having reached `q`) gives the
      unsplit stretch `s[p..q]` followed by the collapsed rest. */
  lemma {:induction false} JoinSplitFrom(s: string, p: nat, q: nat)
    requires p <= q <= |s|
    ensures Join(SplitFrom(s, p, q), " ") == s[p..q] + ReplaceFrom(RunMatcher, s, q)
    decreases |s| - q, 1
  {
    if q == |s| {
      assert s[p..] == s[p..q] + [];
    } else if SplitsAt(s, q) {
      JoinAtSplit(s, p, q);
    } else {
      JoinNoSplit(s, p, q);
    }
  }

  lemma {:induction false} JoinAtSplit(s: string, p: nat, q: nat)
    requires p <= q < |s| && SplitsAt(s, q)
    ensures Join(SplitFrom(s, p, q), " ") == s[p..q] + ReplaceFrom(RunMatcher, s, q)
    decreases |s| - q, 0
  {
    var e := SpaceRunEnd(s, q);
    var rest := SplitFrom(s, e, e);
    assert SplitFrom(s, p, q) == [s[p..q]] + rest;
    assert ReplaceFrom(RunMatcher, s, q) == " " + ReplaceFrom(RunMatcher, s, e) by {
      RunFires(s, q);
      Step(RunMatcher, s, q);
    }
    JoinSplitFrom(s, e, e);
    JoinCons(s[p..q], rest, " ");
    SpaceStep(s[p..q], s[e..e], ReplaceFrom(RunMatcher, s, e));
  }

  lemma {:induction false} JoinNoSplit(s: string, p: nat, q: nat)
    requires p <= q < |s| && !SplitsAt(s, q)
    ensures Join(SplitFrom(s, p, q), " ") == s[p..q] + ReplaceFrom(RunMatcher, s, q)
    decreases |s| - q, 0
  {
    assert SplitFrom(s, p, q) == SplitFrom(s, p, q + 1);
    JoinSplitFrom(s, p, q + 1);
    var rest := ReplaceFrom(RunMatcher, s, q + 1);
    assert ReplaceFrom(RunMatcher, s, q) == [s[q]] + rest by {
      RunFires(s, q);
      Step(RunMatcher, s, q);
    }
    SliceStep(s, p, q, rest);
  }

  lemma SpaceStep(a: string, empty: string, rest: string)
    requires empty == []
    ensures a + " " + (empty + rest) == a + (" " + rest)
  {
  }

  lemma SliceStep(s: string, p: nat, q: nat, rest: string)
    requires p <= q < |s|
    ensures s[p..q + 1] + rest == s[p..q] + ([s[q]] + rest)
  {
    assert s[p..q + 1] == s[p..q] + [s[q]];
  }

  /** App.js:49 and 57 together: each white-space run after a sentence end becomes exactly one space. */
  lemma SplitJoinCollapses(s: string)
    ensures Join(Split(s), " ") == ReplaceAll(RunMatcher, s)
  {
    JoinSplitFrom(s, 0, 0);
  }

  /** Text without a sentence end followed by white space is one sentence. */
  lemma NoSplitSingle(s: string)
    requires forall q :: 0 <= q < |s| ==> !SplitsAt(s, q)
    ensures Split(s) == [s]
  {
    NoSplitFrom(s, 0);
  }

  lemma {:induction false} NoSplitFrom(s: string, q: nat)
    requires q <= |s|
    requires forall x :: q <= x < |s| ==> !SplitsAt(s, x)
    ensures SplitFrom(s, 0, q) == [s]
    decreases |s| - q
  {
    if q < |s| {
      NoSplitFrom(s, q + 1);
    } else {
      assert s[0..] == s;
    }
  }
}
