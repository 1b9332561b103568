/** Changing the speed first or last: the two orders of editing agree. */
module EditorSpeed {
  import opened Common
  import opened Timeline
  import opened TimelineSorting

  // ----------------------------------------------------- exact division

  lemma DivideOrder(x: real, y: real, k: real)
    requires k > 0.0
    ensures x < y <==> x / k < y / k
    ensures x <= y <==> x / k <= y / k
    ensures x == y <==> x / k == y / k
  {
    assert (x / k) * k == x && (y / k) * k == y;
  }

  lemma DivideMinMax(x: real, y: real, k: real)
    requires k > 0.0
    ensures Min(x / k, y / k) == Min(x, y) / k
    ensures Max(x / k, y / k) == Max(x, y) / k
  {
    DivideOrder(x, y, k);
    DivideOrder(y, x, k);
  }

  lemma DivideDifference(x: real, y: real, k: real)
    requires k > 0.0
    ensures x / k - y / k == (x - y) / k
  {
    assert (x / k - y / k) * k == x - y;
  }

  lemma DivideTwice(x: real, k: real, g: real)
    requires k > 0.0 && g > 0.0
    ensures (x / k) / g == (x / g) / k
  {
    assert (x / k) / g == x / (k * g);
    assert (x / g) / k == x / (g * k);
  }

  lemma DivideSign(x: real, k: real)
    requires k > 0.0
    ensures x / k > 0.0 <==> x > 0.0
    ensures x / k >= 0.0 <==> x >= 0.0
  {
    DivideOrder(0.0, x, k);
  }

  // ---------------------------------------------------------- clip lists

  lemma {:induction false} SpeedClipsAt(clips: seq<Clip>, k: real)
    requires k > 0.0
    ensures |SpeedClips(clips, k)| == |clips|
    ensures forall i :: 0 <= i < |clips| ==> SpeedClips(clips, k)[i] == SpeedClip(clips[i], k)
  {
    if clips != [] {
      SpeedClipsAt(clips[1..], k);
    }
  }

  lemma SpeedClipsConcat(a: seq<Clip>, b: seq<Clip>, k: real)
    requires k > 0.0
    ensures SpeedClips(a + b, k) == SpeedClips(a, k) + SpeedClips(b, k)
  {
    SpeedClipsAt(a, k);
    SpeedClipsAt(b, k);
    SpeedClipsAt(a + b, k);
  }

  lemma SpeedTrimClip(c: Clip, start: Seconds, end: Seconds, k: real)
    requires k > 0.0
    ensures TrimClip(SpeedClip(c, k), start / k, end / k) == SpeedClips(TrimClip(c, start, end), k)
  {
    var lo, hi := Max(c.startSeconds, start), Min(c.endSeconds, end);
    DivideMinMax(c.startSeconds, start, k);
    DivideMinMax(c.endSeconds, end, k);
    DivideOrder(lo, hi, k);
    DivideDifference(lo, start, k);
    DivideDifference(hi, start, k);
    SpeedClipsAt(TrimClip(c, start, end), k);
  }

  lemma {:induction false} SpeedTrimClips(clips: seq<Clip>, start: Seconds, end: Seconds, k: real)
    requires k > 0.0
    ensures TrimClips(SpeedClips(clips, k), start / k, end / k) == SpeedClips(TrimClips(clips, start, end), k)
  {
    if clips != [] {
      SpeedTrimClip(clips[0], start, end, k);
      SpeedTrimClips(clips[1..], start, end, k);
      SpeedClipsConcat(TrimClip(clips[0], start, end), TrimClips(clips[1..], start, end), k);
    }
  }

  lemma {:induction false} SpeedSplitClips(clips: seq<Clip>, at: Seconds, k: real)
    requires k > 0.0
    ensures SplitClips(SpeedClips(clips, k), at / k) == SpeedClips(SplitClips(clips, at), k)
  {
    if clips != [] {
      var c := clips[0];
      DivideOrder(c.startSeconds, at, k);
      DivideOrder(at, c.endSeconds, k);
      SpeedClipsAt(SplitClip(c, at), k);
      assert SplitClip(SpeedClip(c, k), at / k) == SpeedClips(SplitClip(c, at), k);
      SpeedSplitClips(clips[1..], at, k);
      SpeedClipsConcat(SplitClip(c, at), SplitClips(clips[1..], at), k);
    }
  }

  lemma {:induction false} SpeedSpeedClips(clips: seq<Clip>, g: real, k: real)
    requires k > 0.0 && g > 0.0
    ensures SpeedClips(SpeedClips(clips, k), g) == SpeedClips(SpeedClips(clips, g), k)
  {
    SpeedClipsAt(clips, k);
    SpeedClipsAt(clips, g);
    SpeedClipsAt(SpeedClips(clips, k), g);
    SpeedClipsAt(SpeedClips(clips, g), k);
    forall i | 0 <= i < |clips|
      ensures SpeedClip(SpeedClip(clips[i], k), g) == SpeedClip(SpeedClip(clips[i], g), k)
    {
      DivideTwice(clips[i].startSeconds, k, g);
      DivideTwice(clips[i].endSeconds, k, g);
    }
  }

  // ----------------------------------------------------------- the merge

  lemma {:induction false} SpeedFilters(clips: seq<Clip>, ids: seq<string>, k: real)
    requires k > 0.0
    ensures MatchedClips(SpeedClips(clips, k), ids) == SpeedClips(MatchedClips(clips, ids), k)
    ensures OtherClips(SpeedClips(clips, k), ids) == SpeedClips(OtherClips(clips, ids), k)
  {
    if clips != [] {
      hide MatchedClips, OtherClips;
      var c := clips[0];
      SpeedFilters(clips[1..], ids, k);
      FilterStep(clips, ids);
      FilterStep(SpeedClips(clips, k), ids);
      assert SpeedClips(clips, k)[1..] == SpeedClips(clips[1..], k);
      SpeedClipsAt([c], k);
      assert SpeedClips([c], k) == [SpeedClip(c, k)];
      SpeedClipsConcat([c], MatchedClips(clips[1..], ids), k);
      SpeedClipsConcat([c], OtherClips(clips[1..], ids), k);
    }
  }

  lemma {:induction false} SpeedExtremes(clips: seq<Clip>, k: real)
    requires k > 0.0 && clips != []
    ensures SpeedClips(clips, k) != []
    ensures MinStart(SpeedClips(clips, k)) == MinStart(clips) / k
    ensures MaxEnd(SpeedClips(clips, k)) == MaxEnd(clips) / k
  {
    SpeedClipsAt(clips, k);
    if |clips| > 1 {
      SpeedExtremes(clips[1..], k);
      DivideMinMax(clips[0].startSeconds, MinStart(clips[1..]), k);
      DivideMinMax(clips[0].endSeconds, MaxEnd(clips[1..]), k);
      assert SpeedClips(clips, k)[1..] == SpeedClips(clips[1..], k);
    }
  }

  lemma {:induction false} SpeedInsert(sorted: seq<Clip>, c: Clip, k: real)
    requires k > 0.0
    ensures InsertByStart(SpeedClips(sorted, k), SpeedClip(c, k)) == SpeedClips(InsertByStart(sorted, c), k)
  {
    SpeedClipsAt(sorted, k);
    SpeedClipsAt([c], k);
    if sorted == [] {
      assert [] + [c] == [c];
    } else {
      var front, last := sorted[..|sorted| - 1], sorted[|sorted| - 1];
      DivideOrder(last.startSeconds, c.startSeconds, k);
      SpeedInsert(front, c, k);
      SpeedClipsAt(front, k);
      SpeedClipsAt([last], k);
      SpeedClipsConcat(sorted, [c], k);
      SpeedClipsConcat(InsertByStart(front, c), [last], k);
      assert SpeedClips(sorted, k)[..|front|] == SpeedClips(front, k);
    }
  }

  /** Stable sorting by start commutes with scaling all times. */
  lemma {:induction false} SpeedSort(clips: seq<Clip>, k: real)
    requires k > 0.0
    ensures SortByStart(SpeedClips(clips, k)) == SpeedClips(SortByStart(clips), k)
  {
    SpeedClipsAt(clips, k);
    if clips != [] {
      var front, last := clips[..|clips| - 1], clips[|clips| - 1];
      SpeedSort(front, k);
      SpeedClipsAt(front, k);
      SpeedInsert(SortByStart(front), last, k);
      assert SpeedClips(clips, k)[..|front|] == SpeedClips(front, k);
    }
  }

  lemma SpeedMergeClips(clips: seq<Clip>, ids: seq<string>, k: real)
    requires k > 0.0
    ensures MergeClips(SpeedClips(clips, k), ids) == SpeedClips(MergeClips(clips, ids), k)
  {
    SpeedFilters(clips, ids, k);
    var matched, others := MatchedClips(clips, ids), OtherClips(clips, ids);
    SpeedClipsAt(matched, k);
    if |matched| >= 2 {
      var merged := matched[0].(startSeconds := MinStart(matched), endSeconds := MaxEnd(matched));
      SpeedExtremes(matched, k);
      SpeedSort(others + [merged], k);
      SpeedClipsConcat(others, [merged], k);
      SpeedClipsAt([merged], k);
      assert SpeedClips([merged], k) == [SpeedClip(merged, k)];
    }
  }

  // ------------------------------------------------------------- markers

  lemma {:induction false} SpeedMarkersAt(markers: seq<Marker>, k: real)
    requires k > 0.0
    ensures |SpeedMarkers(markers, k)| == |markers|
    ensures forall i :: 0 <= i < |markers| ==>
              SpeedMarkers(markers, k)[i] == markers[i].(atSeconds := markers[i].atSeconds / k)
  {
    if markers != [] {
      SpeedMarkersAt(markers[1..], k);
    }
  }

  lemma {:induction false} TrimMarkersStep(markers: seq<Marker>, start: Seconds, end: Seconds)
    requires markers != []
    ensures var m := markers[0];
            TrimMarkers(markers, start, end) ==
              (if start <= m.atSeconds <= end then [m.(atSeconds := m.atSeconds - start)] else [])
              + TrimMarkers(markers[1..], start, end)
  {
    var keep := (m: Marker) => start <= m.atSeconds <= end;
    var rest := Filter(markers[1..], keep);
    assert ([markers[0]] + rest)[1..] == rest;
    assert [] + rest == rest;
  }

  lemma {:induction false} SpeedTrimMarkers(markers: seq<Marker>, start: Seconds, end: Seconds, k: real)
    requires k > 0.0
    ensures TrimMarkers(SpeedMarkers(markers, k), start / k, end / k) == SpeedMarkers(TrimMarkers(markers, start, end), k)
  {
    SpeedMarkersAt(markers, k);
    if markers != [] {
      var m := markers[0];
      SpeedTrimMarkers(markers[1..], start, end, k);
      SpeedMarkersAt(markers[1..], k);
      assert SpeedMarkers(markers, k)[1..] == SpeedMarkers(markers[1..], k);
      TrimMarkersStep(markers, start, end);
      TrimMarkersStep(SpeedMarkers(markers, k), start / k, end / k);
      DivideOrder(start, m.atSeconds, k);
      DivideOrder(m.atSeconds, end, k);
      DivideDifference(m.atSeconds, start, k);
      SpeedMarkersAt(TrimMarkers(markers, start, end), k);
      SpeedMarkersAt(TrimMarkers(markers[1..], start, end), k);
    }
  }

  lemma SpeedSpeedMarkers(markers: seq<Marker>, g: real, k: real)
    requires k > 0.0 && g > 0.0
    ensures SpeedMarkers(SpeedMarkers(markers, k), g) == SpeedMarkers(SpeedMarkers(markers, g), k)
  {
    SpeedMarkersAt(markers, k);
    SpeedMarkersAt(markers, g);
    SpeedMarkersAt(SpeedMarkers(markers, k), g);
    SpeedMarkersAt(SpeedMarkers(markers, g), k);
    forall i | 0 <= i < |markers|
      ensures (markers[i].atSeconds / k) / g == (markers[i].atSeconds / g) / k
    {
      DivideTwice(markers[i].atSeconds, k, g);
    }
  }

  // ------------------------------------------------------------ timelines

  function Sped(tl: Timeline, k: real): Timeline
    requires k > 0.0
  {
    SpeedTimeline(tl, k).value
  }

  /** The operation with its trim and split times divided by the factor. */
  function SpedOp(op: EditOperation, k: real): EditOperation
    requires k > 0.0
  {
    match op
    case Trim(start, end) => Trim(start / k, end / k)
    case Split(at) => Split(at / k)
    case _ => op
  }

  function SpedOps(ops: seq<EditOperation>, k: real): seq<EditOperation>
    requires k > 0.0
  {
    seq(|ops|, i requires 0 <= i < |ops| => SpedOp(ops[i], k))
  }

  function SpedResult(r: Edited, k: real): Edited
    requires k > 0.0
  {
    match r
    case Err(e) => Err(e)
    case Ok(tl) => Ok(Sped(tl, k))
  }

  lemma SpeedTrim(tl: Timeline, start: Seconds, end: Seconds, k: real)
    requires k > 0.0
    ensures TrimTimeline(Sped(tl, k), start / k, end / k) == SpedResult(TrimTimeline(tl, start, end), k)
  {
    DivideSign(start, k);
    DivideOrder(start, end, k);
    var e := Min(end, tl.durationSeconds);
    DivideMinMax(end, tl.durationSeconds, k);
    DivideDifference(e, start, k);
    DivideMinMax(0.0, e - start, k);
    assert 0.0 / k == 0.0;
    SpeedTrimMarkers(tl.markers, start, end, k);
    SpeedTrimMarkers(tl.markers, start, e, k);
    if TrimTimeline(tl, start, end).Ok? {
      var a := TrimTimeline(Sped(tl, k), start / k, end / k).value;
      var b := Sped(TrimTimeline(tl, start, end).value, k);
      forall i | 0 <= i < |tl.tracks|
        ensures a.tracks[i] == b.tracks[i]
      {
        SpeedTrimClips(tl.tracks[i].clips, start, e, k);
      }
      assert a.tracks == b.tracks;
    }
  }

  lemma SpeedSplit(tl: Timeline, at: Seconds, k: real)
    requires k > 0.0
    ensures SplitTimeline(Sped(tl, k), at / k) == SpedResult(SplitTimeline(tl, at), k)
  {
    DivideSign(at, k);
    DivideOrder(at, tl.durationSeconds, k);
    if SplitTimeline(tl, at).Ok? {
      var a := SplitTimeline(Sped(tl, k), at / k).value;
      var b := Sped(SplitTimeline(tl, at).value, k);
      forall i | 0 <= i < |tl.tracks|
        ensures a.tracks[i] == b.tracks[i]
      {
        SpeedSplitClips(tl.tracks[i].clips, at, k);
      }
      assert a.tracks == b.tracks;
    }
  }

  lemma SpeedSpeed(tl: Timeline, g: real, k: real)
    requires k > 0.0
    ensures SpeedTimeline(Sped(tl, k), g) == SpedResult(SpeedTimeline(tl, g), k)
  {
    if g > 0.0 {
      DivideTwice(tl.durationSeconds, k, g);
      SpeedSpeedMarkers(tl.markers, g, k);
      var a := SpeedTimeline(Sped(tl, k), g).value;
      var b := Sped(SpeedTimeline(tl, g).value, k);
      forall i | 0 <= i < |tl.tracks|
        ensures a.tracks[i] == b.tracks[i]
      {
        SpeedSpeedClips(tl.tracks[i].clips, g, k);
      }
      assert a.tracks == b.tracks;
    }
  }

  lemma SpeedMerge(tl: Timeline, ids: seq<string>, k: real)
    requires k > 0.0
    ensures MergeTimeline(Sped(tl, k), ids) == Sped(MergeTimeline(tl, ids), k)
  {
    var a := MergeTimeline(Sped(tl, k), ids);
    var b := Sped(MergeTimeline(tl, ids), k);
    forall i | 0 <= i < |tl.tracks|
      ensures a.tracks[i] == b.tracks[i]
    {
      SpeedMergeClips(tl.tracks[i].clips, ids, k);
    }
    assert a.tracks == b.tracks;
  }

  lemma SpeedCommutesWithEdit(tl: Timeline, op: EditOperation, k: real)
    requires k > 0.0
    ensures ApplyEdit(Sped(tl, k), SpedOp(op, k)) == SpedResult(ApplyEdit(tl, op), k)
  {
    match op
    case Trim(start, end) => SpeedTrim(tl, start, end, k);
    case Split(at) => SpeedSplit(tl, at, k);
    case Speed(g) => SpeedSpeed(tl, g, k);
    case Merge(ids) => SpeedMerge(tl, ids, k);
    case _ =>
  }

  /**
   * Editing the sped-up timeline with scaled times is editing first and speeding
   * up last; in particular one fails exactly when the other does.
   */
  lemma {:induction false} SpeedCommutesWithEdits(tl: Timeline, ops: seq<EditOperation>, k: real)
    requires k > 0.0
    ensures ApplyEdits(Sped(tl, k), SpedOps(ops, k)) == SpedResult(ApplyEdits(tl, ops), k)
    decreases |ops|
  {
    if ops != [] {
      SpeedCommutesWithEdit(tl, ops[0], k);
      assert SpedOps(ops, k)[1..] == SpedOps(ops[1..], k);
      match ApplyEdit(tl, ops[0]) {
        case Err(_) =>
        case Ok(next) => SpeedCommutesWithEdits(next, ops[1..], k);
      }
    }
  }
}
