/** Splitting a timeline and merging the pairs back, and what becomes of clip ids. */
module EditorSplitMerge {
  import opened Common
  import opened Timeline
  import opened TimelineSorting

  // ------------------------------------------------------------- clip ids

  function UsesOf(clips: seq<Clip>, id: string): nat {
    if clips == [] then 0 else (if clips[0].id == id then 1 else 0) + UsesOf(clips[1..], id)
  }

  ghost predicate UniqueIds(clips: seq<Clip>) {
    forall id :: UsesOf(clips, id) <= 1
  }

  lemma {:induction false} UsesConcat(a: seq<Clip>, b: seq<Clip>, id: string)
    ensures UsesOf(a + b, id) == UsesOf(a, id) + UsesOf(b, id)
  {
    if a == [] {
      assert [] + b == b;
    } else {
      assert (a + b)[1..] == a[1..] + b;
      UsesConcat(a[1..], b, id);
    }
  }

  lemma {:induction false} UsesMean(clips: seq<Clip>, id: string)
    ensures UsesOf(clips, id) > 0 <==> exists c :: c in clips && c.id == id
  {
    if clips != [] {
      UsesMean(clips[1..], id);
      assert clips == [clips[0]] + clips[1..];
    }
  }

  /** How many spanning clips give their second half this id. */
  function SecondHalves(clips: seq<Clip>, at: Seconds, id: string): nat {
    if clips == [] then 0
    else (if Spans(clips[0], at) && SecondId(clips[0].id) == id then 1 else 0) + SecondHalves(clips[1..], at, id)
  }

  lemma {:induction false} UsesAfterSplit(clips: seq<Clip>, at: Seconds, id: string)
    ensures UsesOf(SplitClips(clips, at), id) == UsesOf(clips, id) + SecondHalves(clips, at, id)
  {
    if clips != [] {
      var parts := SplitClip(clips[0], at);
      UsesAfterSplit(clips[1..], at, id);
      UsesConcat(parts, SplitClips(clips[1..], at), id);
      if Spans(clips[0], at) {
        assert parts[1..] == [parts[1]] && parts[1..][1..] == [];
      }
    }
  }

  lemma SecondIdInjective(a: string, b: string)
    ensures SecondId(a) == SecondId(b) <==> a == b
  {
    assert SecondId(a)[..|a|] == a && SecondId(b)[..|b|] == b;
  }

  lemma {:induction false} SecondHalvesBound(clips: seq<Clip>, at: Seconds, id: string)
    ensures SecondHalves(clips, at, SecondId(id)) <= UsesOf(clips, id)
    ensures SecondHalves(clips, at, id) > 0 <==> exists c :: c in clips && Spans(c, at) && SecondId(c.id) == id
  {
    if clips != [] {
      SecondHalvesBound(clips[1..], at, id);
      SecondIdInjective(clips[0].id, id);
      assert clips == [clips[0]] + clips[1..];
    }
  }

  /** No clip of `others` already has the id that splitting a clip of `clips` gives its second half. */
  ghost predicate FreshSecondIds(clips: seq<Clip>, others: seq<Clip>, at: Seconds) {
    forall c, d :: c in clips && Spans(c, at) && d in others ==> d.id != SecondId(c.id)
  }

  /** A split keeps the ids of a track unique exactly when the ids it adds are not taken. */
  lemma SplitKeepsIdsUnique(clips: seq<Clip>, at: Seconds)
    ensures UniqueIds(SplitClips(clips, at)) <==> UniqueIds(clips) && FreshSecondIds(clips, clips, at)
  {
    if UniqueIds(clips) && FreshSecondIds(clips, clips, at) {
      forall id
        ensures UsesOf(SplitClips(clips, at), id) <= 1
      {
        UsesAfterSplit(clips, at, id);
        SecondHalvesBound(clips, at, id);
        if SecondHalves(clips, at, id) > 0 {
          var c :| c in clips && Spans(c, at) && SecondId(c.id) == id;
          SecondHalvesBound(clips, at, c.id);
          UsesMean(clips, id);
        }
      }
    }
    if UniqueIds(SplitClips(clips, at)) {
      forall id
        ensures UsesOf(clips, id) <= 1
      {
        UsesAfterSplit(clips, at, id);
      }
      forall c, d | c in clips && Spans(c, at) && d in clips
        ensures d.id != SecondId(c.id)
      {
        UsesAfterSplit(clips, at, SecondId(c.id));
        SecondHalvesBound(clips, at, SecondId(c.id));
        UsesMean(clips, SecondId(c.id));
      }
    }
  }

  /** Splitting a clip twice, the second time further left, gives two clips the same id. */
  lemma SplittingTwiceRepeatsId() returns (clips: seq<Clip>)
    ensures UniqueIds(clips) && UniqueIds(SplitClips(clips, 6.0))
    ensures !UniqueIds(SplitClips(SplitClips(clips, 6.0), 3.0))
  {
    var c := Clip("a", 0.0, 10.0);
    clips := [c];
    assert clips[1..] == [];
    forall id
      ensures UsesOf(clips, id) <= 1
    {
    }
    assert SecondId("a") != "a";
    SplitKeepsIdsUnique(clips, 6.0);
    var left, right := c.(endSeconds := 6.0), Clip(SecondId("a"), 6.0, 10.0);
    var halves := SplitClips(clips, 6.0);
    assert FlatMap([], (d: Clip) => SplitClip(d, 6.0)) == [];
    assert halves == [left, right];
    assert Spans(left, 3.0) && left in halves && right in halves;
    assert !FreshSecondIds(halves, halves, 3.0);
    SplitKeepsIdsUnique(halves, 3.0);
  }

  // ------------------------------------------------- splitting and merging

  /** Clips one after the other, of whatever length. */
  ghost predicate LaidOut(clips: seq<Clip>) {
    && (forall i :: 0 <= i < |clips| ==> clips[i].startSeconds <= clips[i].endSeconds)
    && (forall i, j :: 0 <= i < j < |clips| ==> clips[i].endSeconds <= clips[j].startSeconds)
  }

  /** The track after the split, with the pairs of the clips in `done` merged back. */
  function PartlySplit(clips: seq<Clip>, at: Seconds, done: set<string>): seq<Clip> {
    if clips == [] then []
    else (if clips[0].id in done then [clips[0]] else SplitClip(clips[0], at)) + PartlySplit(clips[1..], at, done)
  }

  lemma {:induction false} NothingDone(clips: seq<Clip>, at: Seconds)
    ensures PartlySplit(clips, at, {}) == SplitClips(clips, at)
  {
    if clips != [] {
      NothingDone(clips[1..], at);
    }
  }

  lemma {:induction false} PartlySplitConcat(a: seq<Clip>, b: seq<Clip>, at: Seconds, done: set<string>)
    ensures PartlySplit(a + b, at, done) == PartlySplit(a, at, done) + PartlySplit(b, at, done)
  {
    if a == [] {
      assert [] + b == b;
    } else {
      assert (a + b)[1..] == a[1..] + b;
      PartlySplitConcat(a[1..], b, at, done);
    }
  }

  lemma {:induction false} NothingLeftToSplit(clips: seq<Clip>, at: Seconds, done: set<string>)
    requires forall c :: c in clips && Spans(c, at) ==> c.id in done
    ensures PartlySplit(clips, at, done) == clips
  {
    if clips != [] {
      assert clips[0] in clips;
      NothingLeftToSplit(clips[1..], at, done);
      assert clips == [clips[0]] + clips[1..];
    }
  }

  lemma {:induction false} NotAmongDone(clips: seq<Clip>, at: Seconds, done: set<string>, id: string)
    requires forall c :: c in clips && Spans(c, at) ==> c.id != id
    ensures PartlySplit(clips, at, done + {id}) == PartlySplit(clips, at, done)
  {
    if clips != [] {
      assert clips[0] in clips;
      NotAmongDone(clips[1..], at, done, id);
    }
  }

  lemma {:induction false} UsesInPartlySplit(clips: seq<Clip>, at: Seconds, done: set<string>, id: string)
    ensures UsesOf(clips, id) <= UsesOf(PartlySplit(clips, at, done), id)
    ensures (forall c :: c in clips && Spans(c, at) && c.id !in done ==> SecondId(c.id) != id) ==>
              UsesOf(PartlySplit(clips, at, done), id) == UsesOf(clips, id)
  {
    if clips != [] {
      var parts := if clips[0].id in done then [clips[0]] else SplitClip(clips[0], at);
      assert clips[0] in clips;
      UsesInPartlySplit(clips[1..], at, done, id);
      UsesConcat(parts, PartlySplit(clips[1..], at, done), id);
      assert |parts| == 2 ==> parts[1..] == [parts[1]] && parts[1..][1..] == [];
    }
  }

  lemma {:induction false} MatchedCount(clips: seq<Clip>, a: string, b: string)
    requires a != b
    ensures |MatchedClips(clips, [a, b])| == UsesOf(clips, a) + UsesOf(clips, b)
  {
    if clips != [] {
      MatchedCount(clips[1..], a, b);
      FilterStep(clips, [a, b]);
    }
  }

  lemma {:induction false} FilterConcat(a: seq<Clip>, b: seq<Clip>, ids: seq<string>)
    ensures MatchedClips(a + b, ids) == MatchedClips(a, ids) + MatchedClips(b, ids)
    ensures OtherClips(a + b, ids) == OtherClips(a, ids) + OtherClips(b, ids)
  {
    hide MatchedClips, OtherClips;
    if a == [] {
      assert [] + b == b;
      FilterNone([], ids);
    } else {
      assert (a + b)[1..] == a[1..] + b;
      FilterConcat(a[1..], b, ids);
      FilterStep(a + b, ids);
      FilterStep(a, ids);
    }
  }

  lemma {:induction false} FilterNone(clips: seq<Clip>, ids: seq<string>)
    requires forall c :: c in clips ==> c.id !in ids
    ensures MatchedClips(clips, ids) == [] && OtherClips(clips, ids) == clips
  {
    if clips != [] {
      assert clips[0] in clips;
      FilterNone(clips[1..], ids);
      FilterStep(clips, ids);
      assert clips == [clips[0]] + clips[1..];
    }
  }

  lemma {:induction false} StartingAtConcat(a: seq<Clip>, b: seq<Clip>, t: Seconds)
    ensures StartingAt(a + b, t) == StartingAt(a, t) + StartingAt(b, t)
  {
    if b == [] {
      assert a + [] == a;
    } else {
      assert (a + b)[..|a + b| - 1] == a + b[..|b| - 1];
      StartingAtConcat(a, b[..|b| - 1], t);
    }
  }

  lemma {:induction false} NoneStartingAt(s: seq<Clip>, t: Seconds)
    requires forall c :: c in s ==> c.startSeconds != t
    ensures StartingAt(s, t) == []
  {
    if s != [] {
      assert s[|s| - 1] in s;
      NoneStartingAt(s[..|s| - 1], t);
    }
  }

  lemma LaidOutIsSorted(clips: seq<Clip>)
    requires LaidOut(clips)
    ensures SortedByStart(clips)
  {
    forall m, n | 0 <= m < n < |clips|
      ensures clips[m].startSeconds <= clips[n].startSeconds
    {
      assert clips[m].startSeconds <= clips[m].endSeconds;
    }
  }

  lemma SameStarts(front: seq<Clip>, c: Clip, back: seq<Clip>, t: Seconds)
    requires forall d :: d in back ==> d.startSeconds != c.startSeconds
    ensures StartingAt(front + back + [c], t) == StartingAt(front + [c] + back, t)
  {
    hide StartingAt;
    StartingAtConcat(front + back, [c], t);
    StartingAtConcat(front, back, t);
    StartingAtConcat(front + [c], back, t);
    StartingAtConcat(front, [c], t);
    if t == c.startSeconds {
      NoneStartingAt(back, t);
      assert StartingAt(back, t) == [];
    } else {
      NoneStartingAt([c], t);
      assert StartingAt([c], t) == [];
    }
  }

  /** Sorting puts a clip taken out of a laid-out track back into its place. */
  lemma SortPutsBack(front: seq<Clip>, c: Clip, back: seq<Clip>)
    requires LaidOut(front + [c] + back) && c.startSeconds < c.endSeconds
    ensures SortByStart(front + back + [c]) == front + [c] + back
  {
    hide StartingAt, SortByStart;
    var clips, mixed := front + [c] + back, front + back + [c];
    SortIsStable(mixed);
    LaidOutIsSorted(clips);
    forall d | d in back
      ensures d.startSeconds != c.startSeconds
    {
      var j :| 0 <= j < |back| && back[j] == d;
      assert clips[|front|] == c && clips[|front| + 1 + j] == d;
      assert c.endSeconds <= d.startSeconds;
    }
    forall t
      ensures StartingAt(SortByStart(mixed), t) == StartingAt(clips, t)
    {
      SameStarts(front, c, back, t);
    }
    StableSortIsUnique(SortByStart(mixed), clips);
  }

  lemma PairMatches(c: Clip, at: Seconds)
    requires Spans(c, at)
    ensures var pair, ids := SplitClip(c, at), [c.id, SecondId(c.id)];
            MatchedClips(pair, ids) == pair && OtherClips(pair, ids) == [] &&
            pair[0].(startSeconds := MinStart(pair), endSeconds := MaxEnd(pair)) == c
  {
    var pair, ids := SplitClip(c, at), [c.id, SecondId(c.id)];
    assert pair == [pair[0]] + [pair[1]];
    assert pair[1..] == [pair[1]] && pair[1..][1..] == [];
    FilterStep(pair, ids);
    FilterStep([pair[1]], ids);
    FilterNone([], ids);
  }

  /** Merging the two halves of one clip restores the track. */
  lemma MergePairRestores(front: seq<Clip>, c: Clip, back: seq<Clip>, at: Seconds)
    requires LaidOut(front + [c] + back) && Spans(c, at)
    requires forall d :: d in front || d in back ==> d.id != c.id && d.id != SecondId(c.id)
    ensures MergeClips(front + SplitClip(c, at) + back, [c.id, SecondId(c.id)]) == front + [c] + back
  {
    hide MatchedClips, OtherClips, SortByStart, SplitClip, LaidOut;
    var ids, pair := [c.id, SecondId(c.id)], SplitClip(c, at);
    FilterConcat(front + pair, back, ids);
    FilterConcat(front, pair, ids);
    FilterNone(front, ids);
    FilterNone(back, ids);
    PairMatches(c, at);
    assert MatchedClips(front + pair + back, ids) == pair;
    assert OtherClips(front + pair + back, ids) == front + back;
    PairHasTwo(c, at);
    SortPutsBack(front, c, back);
  }

  lemma PairHasTwo(c: Clip, at: Seconds)
    requires Spans(c, at)
    ensures |SplitClip(c, at)| == 2
  {
  }

  /** What a track must be for its split pairs to be merged back: laid out, with unique ids. */
  ghost predicate Tidy(clips: seq<Clip>) {
    LaidOut(clips) && UniqueIds(clips)
  }

  lemma TidyIds(clips: seq<Clip>)
    requires Tidy(clips)
    ensures UniqueIds(clips)
  {
  }

  lemma OthersDiffer(front: seq<Clip>, c: Clip, back: seq<Clip>, at: Seconds)
    requires Tidy(front + [c] + back) && Spans(c, at)
    ensures forall d :: d in front || d in back ==> d.id != c.id && !Spans(d, at)
  {
    var clips := front + [c] + back;
    UsesConcat(front + [c], back, c.id);
    UsesConcat(front, [c], c.id);
    assert UsesOf([c], c.id) == 1;
    UsesMean(front, c.id);
    UsesMean(back, c.id);
    forall d | d in front || d in back
      ensures !Spans(d, at)
    {
      assert clips[|front|] == c;
      if d in front {
        var j :| 0 <= j < |front| && front[j] == d;
        assert clips[j] == d;
      } else {
        var j :| 0 <= j < |back| && back[j] == d;
        assert clips[|front| + 1 + j] == d;
      }
    }
  }

  /** Merging back the pair of one id, whether or not this track has it. */
  lemma MergeOnePair(clips: seq<Clip>, at: Seconds, done: set<string>, id: string)
    requires Tidy(clips)
    requires forall d :: d in clips ==> d.id != SecondId(id)
    requires forall c :: c in clips && Spans(c, at) ==> SecondId(c.id) != id
    ensures MergeClips(PartlySplit(clips, at, done), [id, SecondId(id)]) == PartlySplit(clips, at, done + {id})
  {
    hide Tidy, PartlySplit, MergeClips, SecondId, Spans;
    if c :| c in clips && Spans(c, at) && c.id == id && id !in done {
      var i :| 0 <= i < |clips| && clips[i] == c;
      assert clips == clips[..i] + [c] + clips[i + 1..];
      MergeItsPair(clips[..i], c, clips[i + 1..], at, done);
    } else {
      TidyIds(clips);
      MergeNoPair(clips, at, done, id);
    }
  }

  lemma MergeItsPair(front: seq<Clip>, c: Clip, back: seq<Clip>, at: Seconds, done: set<string>)
    requires Tidy(front + [c] + back) && Spans(c, at) && c.id !in done
    requires forall d :: d in front + [c] + back ==> d.id != SecondId(c.id)
    ensures MergeClips(PartlySplit(front + [c] + back, at, done), [c.id, SecondId(c.id)]) ==
              PartlySplit(front + [c] + back, at, done + {c.id})
  {
    var clips := front + [c] + back;
    OthersDiffer(front, c, back, at);
    forall d | d in front || d in back
      ensures d.id != SecondId(c.id)
    {
      assert d in clips;
    }
    NothingLeftToSplit(front, at, done);
    NothingLeftToSplit(back, at, done);
    NothingLeftToSplit(clips, at, done + {c.id});
    PartlySplitConcat(front + [c], back, at, done);
    PartlySplitConcat(front, [c], at, done);
    assert PartlySplit([c], at, done) == SplitClip(c, at) + PartlySplit([], at, done);
    assert PartlySplit([c], at, done) == SplitClip(c, at);
    MergePairRestores(front, c, back, at);
  }

  lemma MergeNoPair(clips: seq<Clip>, at: Seconds, done: set<string>, id: string)
    requires UniqueIds(clips)
    requires forall d :: d in clips ==> d.id != SecondId(id)
    requires forall c :: c in clips && Spans(c, at) ==> SecondId(c.id) != id
    requires forall c :: c in clips && Spans(c, at) && c.id == id ==> id in done
    ensures MergeClips(PartlySplit(clips, at, done), [id, SecondId(id)]) == PartlySplit(clips, at, done + {id})
  {
    var now := PartlySplit(clips, at, done);
    if id in done {
      assert done + {id} == done;
    } else {
      NotAmongDone(clips, at, done, id);
    }
    UsesInPartlySplit(clips, at, done, id);
    forall c | c in clips && Spans(c, at) && c.id !in done
      ensures SecondId(c.id) != SecondId(id)
    {
      SecondIdInjective(c.id, id);
    }
    UsesInPartlySplit(clips, at, done, SecondId(id));
    UsesMean(clips, SecondId(id));
    assert |SecondId(id)| == |id| + 2;
    MatchedCount(now, id, SecondId(id));
  }

  // ------------------------------------------------------- whole timelines

  /** Every track is laid out with unique ids, and the ids a split adds are used nowhere. */
  ghost predicate ReadyToSplit(tl: Timeline, at: Seconds) {
    && (forall i :: 0 <= i < |tl.tracks| ==> Tidy(tl.tracks[i].clips))
    && (forall i, j :: 0 <= i < |tl.tracks| && 0 <= j < |tl.tracks| ==>
          FreshSecondIds(tl.tracks[i].clips, tl.tracks[j].clips, at))
  }

  /** The id belongs to a clip that the split cuts. */
  ghost predicate IsCut(tl: Timeline, at: Seconds, id: string) {
    exists i :: 0 <= i < |tl.tracks| && CutsId(tl.tracks[i].clips, at, id)
  }

  ghost predicate CutsId(clips: seq<Clip>, at: Seconds, id: string) {
    exists c :: c in clips && Spans(c, at) && c.id == id
  }

  /** One merge for each cut clip, in the given order. */
  function PairMerges(ids: seq<string>): seq<EditOperation> {
    if ids == [] then [] else [Merge([ids[0], SecondId(ids[0])])] + PairMerges(ids[1..])
  }

  function PartlySplitTimeline(tl: Timeline, at: Seconds, done: set<string>): Timeline {
    tl.(tracks := MapTrackClips(tl.tracks, clips => PartlySplit(clips, at, done)))
  }

  lemma MergeOneCut(tl: Timeline, at: Seconds, done: set<string>, id: string)
    requires ReadyToSplit(tl, at) && IsCut(tl, at, id)
    ensures MergeTimeline(PartlySplitTimeline(tl, at, done), [id, SecondId(id)]) ==
              PartlySplitTimeline(tl, at, done + {id})
  {
    var a := MergeTimeline(PartlySplitTimeline(tl, at, done), [id, SecondId(id)]);
    var b := PartlySplitTimeline(tl, at, done + {id});
    var k :| 0 <= k < |tl.tracks| && CutsId(tl.tracks[k].clips, at, id);
    var cut :| cut in tl.tracks[k].clips && Spans(cut, at) && cut.id == id;
    forall i | 0 <= i < |tl.tracks|
      ensures a.tracks[i] == b.tracks[i]
    {
      assert FreshSecondIds(tl.tracks[k].clips, tl.tracks[i].clips, at);
      assert FreshSecondIds(tl.tracks[i].clips, tl.tracks[k].clips, at);
      MergeOnePair(tl.tracks[i].clips, at, done, id);
    }
    assert a.tracks == b.tracks;
  }

  lemma {:induction false} MergeCuts(tl: Timeline, at: Seconds, done: set<string>, ids: seq<string>)
    requires ReadyToSplit(tl, at) && forall id :: id in ids ==> IsCut(tl, at, id)
    requires forall id :: IsCut(tl, at, id) ==> id in done || id in ids
    ensures ApplyEdits(PartlySplitTimeline(tl, at, done), PairMerges(ids)) == Ok(tl)
    decreases |ids|
  {
    if ids == [] {
      var all := PartlySplitTimeline(tl, at, done);
      forall i | 0 <= i < |tl.tracks|
        ensures all.tracks[i] == tl.tracks[i]
      {
        forall c | c in tl.tracks[i].clips && Spans(c, at)
          ensures c.id in done
        {
          assert CutsId(tl.tracks[i].clips, at, c.id);
        }
        NothingLeftToSplit(tl.tracks[i].clips, at, done);
      }
      assert all.tracks == tl.tracks;
    } else {
      assert ids[0] in ids;
      MergeOneCut(tl, at, done, ids[0]);
      forall id | IsCut(tl, at, id)
        ensures id in done + {ids[0]} || id in ids[1..]
      {
        assert ids == [ids[0]] + ids[1..];
      }
      MergeCuts(tl, at, done + {ids[0]}, ids[1..]);
      assert PairMerges(ids)[1..] == PairMerges(ids[1..]);
    }
  }

  /** Merging each split pair back, in any order, restores the timeline that was split. */
  lemma SplitThenMergeRestores(tl: Timeline, at: Seconds, ids: seq<string>)
    requires ReadyToSplit(tl, at) && 0.0 < at < tl.durationSeconds
    requires forall id :: id in ids <==> IsCut(tl, at, id)
    ensures ApplyEdits(tl, [Split(at)] + PairMerges(ids)) == Ok(tl)
  {
    var ops := [Split(at)] + PairMerges(ids);
    assert ops[1..] == PairMerges(ids);
    var split, none := SplitTimeline(tl, at).value, PartlySplitTimeline(tl, at, {});
    forall i | 0 <= i < |tl.tracks|
      ensures split.tracks[i] == none.tracks[i]
    {
      NothingDone(tl.tracks[i].clips, at);
    }
    assert split.tracks == none.tracks;
    MergeCuts(tl, at, {}, ids);
  }
}
