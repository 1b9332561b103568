/** What sorting clips by start means, independently of how it is done. */
module TimelineSorting {
  import opened Timeline

  ghost predicate SortedByStart(clips: seq<Clip>) {
    forall i, j :: 0 <= i < j < |clips| ==> clips[i].startSeconds <= clips[j].startSeconds
  }

  /** The clips that start at `at`, in their order. */
  function StartingAt(clips: seq<Clip>, at: Seconds): seq<Clip> {
    if clips == [] then []
    else
      var last := clips[|clips| - 1];
      StartingAt(clips[..|clips| - 1], at) + if last.startSeconds == at then [last] else []
  }

  /** `r` is `s` sorted by start, clips that start together keeping their order. */
  ghost predicate IsStableSort(r: seq<Clip>, s: seq<Clip>) {
    SortedByStart(r) && forall at :: StartingAt(r, at) == StartingAt(s, at)
  }

  lemma StartingAtSnoc(s: seq<Clip>, c: Clip, at: Seconds)
    ensures StartingAt(s + [c], at) == StartingAt(s, at) + if c.startSeconds == at then [c] else []
  {
    assert (s + [c])[..|s|] == s;
  }

  lemma ClipsSwap(front: seq<Clip>, x: seq<Clip>, y: seq<Clip>)
    requires x == [] || y == []
    ensures front + x + y == front + y + x
  {
    assert front + [] == front && front + y + [] == front + y && front + x + [] == front + x;
  }

  lemma {:induction false} InsertKeepsOrder(sorted: seq<Clip>, c: Clip, at: Seconds)
    ensures StartingAt(InsertByStart(sorted, c), at) == StartingAt(sorted + [c], at)
  {
    hide StartingAt;
    if sorted != [] && sorted[|sorted| - 1].startSeconds > c.startSeconds {
      var front, last := sorted[..|sorted| - 1], sorted[|sorted| - 1];
      assert sorted == front + [last];
      InsertKeepsOrder(front, c, at);
      StartingAtSnoc(sorted, c, at);
      StartingAtSnoc(front, c, at);
      StartingAtSnoc(front, last, at);
      StartingAtSnoc(InsertByStart(front, c), last, at);
      ClipsSwap(StartingAt(front, at), if c.startSeconds == at then [c] else [], if last.startSeconds == at then [last] else []);
    }
  }

  lemma {:induction false} InsertKeepsSorted(sorted: seq<Clip>, c: Clip)
    requires SortedByStart(sorted)
    ensures SortedByStart(InsertByStart(sorted, c))
    ensures forall d :: d in InsertByStart(sorted, c) <==> d in sorted || d == c
  {
    if sorted != [] && sorted[|sorted| - 1].startSeconds > c.startSeconds {
      var front, last := sorted[..|sorted| - 1], sorted[|sorted| - 1];
      InsertKeepsSorted(front, c);
      assert sorted == front + [last];
      var r := InsertByStart(front, c);
      forall i | 0 <= i < |r|
        ensures r[i].startSeconds <= last.startSeconds
      {
        assert r[i] in r;
      }
    } else if sorted != [] {
      assert forall i :: 0 <= i < |sorted| ==> sorted[i].startSeconds <= sorted[|sorted| - 1].startSeconds;
    }
  }

  /** The insertion sort is a stable sort. */
  lemma {:induction false} SortIsStable(s: seq<Clip>)
    ensures IsStableSort(SortByStart(s), s)
    ensures forall d :: d in SortByStart(s) <==> d in s
  {
    if s != [] {
      var front, c := s[..|s| - 1], s[|s| - 1];
      SortIsStable(front);
      var sorted := SortByStart(front);
      InsertKeepsSorted(sorted, c);
      assert s == front + [c];
      forall at
        ensures StartingAt(SortByStart(s), at) == StartingAt(s, at)
      {
        InsertKeepsOrder(sorted, c, at);
        StartingAtSnoc(sorted, c, at);
        StartingAtSnoc(front, c, at);
      }
    }
  }

  lemma {:induction false} StartingAtMember(s: seq<Clip>, d: Clip)
    ensures d in StartingAt(s, d.startSeconds) <==> d in s
    ensures forall at :: d in StartingAt(s, at) ==> d.startSeconds == at
  {
    if s != [] {
      StartingAtMember(s[..|s| - 1], d);
    }
  }

  lemma LastStartingAt(s: seq<Clip>)
    requires s != []
    ensures var at := StartingAt(s, s[|s| - 1].startSeconds);
            at != [] && at[|at| - 1] == s[|s| - 1]
  {
  }

  /** Two sorted lists that agree start by start end with the same clip. */
  lemma SameLast(r: seq<Clip>, q: seq<Clip>)
    requires SortedByStart(r) && SortedByStart(q)
    requires forall at :: StartingAt(r, at) == StartingAt(q, at)
    requires r != [] && q != []
    ensures r[|r| - 1] == q[|q| - 1]
  {
    hide StartingAt;
    var x, y := r[|r| - 1], q[|q| - 1];
    StartingAtMember(r, x);
    StartingAtMember(q, x);
    StartingAtMember(q, y);
    StartingAtMember(r, y);
    assert StartingAt(r, x.startSeconds) == StartingAt(q, x.startSeconds);
    assert StartingAt(r, y.startSeconds) == StartingAt(q, y.startSeconds);
    assert x in q && y in r;
    LastStartingAt(r);
    LastStartingAt(q);
  }

  lemma CancelLast(a: seq<Clip>, b: seq<Clip>, s: seq<Clip>)
    requires a + s == b + s
    ensures a == b
  {
    assert a == (a + s)[..|a|] && b == (b + s)[..|b|];
  }

  /** There is only one stable sort of a list. */
  lemma {:induction false} StableSortIsUnique(r: seq<Clip>, q: seq<Clip>)
    requires SortedByStart(r) && SortedByStart(q)
    requires forall at :: StartingAt(r, at) == StartingAt(q, at)
    ensures r == q
    decreases |r|
  {
    if r == [] || q == [] {
      if r != [] {
        StartingAtMember(r, r[0]);
      }
      if q != [] {
        StartingAtMember(q, q[0]);
      }
      assert forall at :: StartingAt([], at) == [];
    } else {
      SameLast(r, q);
      var r', q', last := r[..|r| - 1], q[..|q| - 1], r[|r| - 1];
      assert r == r' + [last] && q == q' + [last];
      forall at
        ensures StartingAt(r', at) == StartingAt(q', at)
      {
        StartingAtSnoc(r', last, at);
        StartingAtSnoc(q', last, at);
        assert StartingAt(r, at) == StartingAt(q, at);
        CancelLast(StartingAt(r', at), StartingAt(q', at), if last.startSeconds == at then [last] else []);
      }
      StableSortIsUnique(r', q');
    }
  }
}
