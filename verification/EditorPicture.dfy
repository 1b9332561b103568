/** What the edits do to the picture: they stay in range, compose, and show the same footage. */
module EditorPicture {
  import opened Common
  import opened Timeline
  import opened TimelineSorting
  import opened EditorSpeed

  // ------------------------------------------------------------- in range

  ghost predicate ClipsInside(clips: seq<Clip>, duration: Seconds) {
    forall c :: c in clips ==> 0.0 <= c.startSeconds <= c.endSeconds <= duration
  }

  ghost predicate MarkersInside(markers: seq<Marker>, duration: Seconds) {
    forall m :: m in markers ==> 0.0 <= m.atSeconds <= duration
  }

  /** All clips and markers lie within the duration. */
  ghost predicate Inside(tl: Timeline) {
    && 0.0 <= tl.durationSeconds
    && (forall i :: 0 <= i < |tl.tracks| ==> ClipsInside(tl.tracks[i].clips, tl.durationSeconds))
    && MarkersInside(tl.markers, tl.durationSeconds)
  }

  lemma {:induction false} TrimClipsInside(clips: seq<Clip>, start: Seconds, end: Seconds)
    requires 0.0 <= start
    ensures ClipsInside(TrimClips(clips, start, end), Max(0.0, end - start))
  {
    if clips != [] {
      TrimClipsInside(clips[1..], start, end);
      assert ClipsInside(TrimClip(clips[0], start, end), Max(0.0, end - start));
    }
  }

  lemma {:induction false} TrimMarkersInside(markers: seq<Marker>, start: Seconds, end: Seconds)
    requires 0.0 <= start
    ensures MarkersInside(TrimMarkers(markers, start, end), Max(0.0, end - start))
  {
    if markers != [] {
      TrimMarkersInside(markers[1..], start, end);
      TrimMarkersStep(markers, start, end);
    }
  }

  lemma {:induction false} SplitClipsInside(clips: seq<Clip>, at: Seconds, duration: Seconds)
    requires ClipsInside(clips, duration)
    ensures ClipsInside(SplitClips(clips, at), duration)
  {
    if clips != [] {
      assert clips[0] in clips;
      SplitClipsInside(clips[1..], at, duration);
    }
  }

  lemma SpeedInside(tl: Timeline, k: real)
    requires Inside(tl) && k > 0.0
    ensures Inside(Sped(tl, k))
  {
    var s := Sped(tl, k);
    DivideSign(tl.durationSeconds, k);
    forall i, c | 0 <= i < |s.tracks| && c in s.tracks[i].clips
      ensures 0.0 <= c.startSeconds <= c.endSeconds <= s.durationSeconds
    {
      var clips := tl.tracks[i].clips;
      assert ClipsInside(clips, tl.durationSeconds);
      SpeedClipsAt(clips, k);
      var j :| 0 <= j < |clips| && c == SpeedClip(clips[j], k);
      assert clips[j] in clips;
      DivideSign(clips[j].startSeconds, k);
      DivideOrder(clips[j].startSeconds, clips[j].endSeconds, k);
      DivideOrder(clips[j].endSeconds, tl.durationSeconds, k);
    }
    SpeedMarkersAt(tl.markers, k);
    forall m | m in s.markers
      ensures 0.0 <= m.atSeconds <= s.durationSeconds
    {
      var j :| 0 <= j < |tl.markers| && m == s.markers[j];
      assert tl.markers[j] in tl.markers;
      DivideSign(tl.markers[j].atSeconds, k);
      DivideOrder(tl.markers[j].atSeconds, tl.durationSeconds, k);
    }
  }

  lemma {:induction false} FilteredClips(clips: seq<Clip>, ids: seq<string>)
    ensures forall c :: c in MatchedClips(clips, ids) <==> c in clips && c.id in ids
    ensures forall c :: c in OtherClips(clips, ids) <==> c in clips && c.id !in ids
  {
    if clips != [] {
      FilteredClips(clips[1..], ids);
      assert clips == [clips[0]] + clips[1..];
    }
  }

  lemma {:induction false} ExtremesBound(clips: seq<Clip>)
    requires clips != []
    ensures exists c :: c in clips && c.startSeconds == MinStart(clips)
    ensures exists c :: c in clips && c.endSeconds == MaxEnd(clips)
    ensures forall c :: c in clips ==> MinStart(clips) <= c.startSeconds && c.endSeconds <= MaxEnd(clips)
  {
    assert clips[0] in clips;
    if |clips| > 1 {
      ExtremesBound(clips[1..]);
      assert clips == [clips[0]] + clips[1..];
    }
  }

  /** The clip that replaces the matched ones. */
  function MergedClip(matched: seq<Clip>): Clip
    requires matched != []
  {
    matched[0].(startSeconds := MinStart(matched), endSeconds := MaxEnd(matched))
  }

  lemma MergedMembers(clips: seq<Clip>, ids: seq<string>)
    ensures var matched := MatchedClips(clips, ids);
            |matched| >= 2 ==> forall c :: c in MergeClips(clips, ids) <==>
              (c in clips && c.id !in ids) || c == MergedClip(matched)
  {
    var matched := MatchedClips(clips, ids);
    FilteredClips(clips, ids);
    if |matched| >= 2 {
      SortIsStable(OtherClips(clips, ids) + [MergedClip(matched)]);
    }
  }

  lemma {:induction false} FirstMatched(clips: seq<Clip>, ids: seq<string>, i: nat)
    requires i < |clips| && clips[i].id in ids && forall k :: 0 <= k < i ==> clips[k].id !in ids
    ensures MatchedClips(clips, ids) == [clips[i]] + MatchedClips(clips[i + 1..], ids)
  {
    hide MatchedClips;
    FilterStep(clips, ids);
    if i > 0 {
      assert clips[0].id !in ids;
      FirstMatched(clips[1..], ids, i - 1);
      assert clips[1..][i..] == clips[i + 1..];
    }
  }

  /**
   * A merge of a second clip or more leaves, sorted by start, the other clips and one
   * with the first one's id that reaches from the earliest start to the latest end.
   */
  lemma MergeLeavesOne(clips: seq<Clip>, ids: seq<string>, i: nat, j: nat) returns (merged: Clip)
    requires i < j < |clips| && clips[i].id in ids && clips[j].id in ids
    requires forall k :: 0 <= k < i ==> clips[k].id !in ids
    ensures SortedByStart(MergeClips(clips, ids))
    ensures forall c :: c in MergeClips(clips, ids) <==> c == merged || (c in clips && c.id !in ids)
    ensures merged.id == clips[i].id
    ensures exists c :: c in clips && c.id in ids && c.startSeconds == merged.startSeconds
    ensures exists c :: c in clips && c.id in ids && c.endSeconds == merged.endSeconds
    ensures forall c :: c in clips && c.id in ids ==>
              merged.startSeconds <= c.startSeconds && c.endSeconds <= merged.endSeconds
  {
    var matched := MatchedClips(clips, ids);
    FirstMatched(clips, ids, i);
    FilteredClips(clips[i + 1..], ids);
    assert clips[i + 1..][j - i - 1] in MatchedClips(clips[i + 1..], ids);
    merged := MergedClip(matched);
    FilteredClips(clips, ids);
    ExtremesBound(matched);
    MergedMembers(clips, ids);
    SortIsStable(OtherClips(clips, ids) + [merged]);
  }

  function FirstIn(clips: seq<Clip>, ids: seq<string>, i: nat): (first: nat)
    requires i < |clips| && clips[i].id in ids
    ensures first <= i && clips[first].id in ids && forall k :: 0 <= k < first ==> clips[k].id !in ids
  {
    if clips[0].id in ids then 0 else 1 + FirstIn(clips[1..], ids, i - 1)
  }

  lemma {:induction false} TwoMatched(clips: seq<Clip>, ids: seq<string>) returns (i: nat, j: nat)
    requires |MatchedClips(clips, ids)| >= 2
    ensures i < j < |clips| && clips[i].id in ids && clips[j].id in ids
  {
    FilteredClips(clips, ids);
    assert MatchedClips(clips, ids)[0] in MatchedClips(clips, ids);
    var some :| 0 <= some < |clips| && clips[some].id in ids;
    i := FirstIn(clips, ids, some);
    var rest := clips[i + 1..];
    FirstMatched(clips, ids, i);
    FilteredClips(rest, ids);
    assert MatchedClips(rest, ids)[0] in MatchedClips(rest, ids);
    var k :| 0 <= k < |rest| && rest[k].id in ids;
    j := i + 1 + k;
  }

  /** A merge of fewer clips than two changes nothing. */
  lemma MergeNeedsTwo(clips: seq<Clip>, ids: seq<string>)
    requires forall i, j :: 0 <= i < j < |clips| && clips[i].id in ids ==> clips[j].id !in ids
    ensures MergeClips(clips, ids) == clips
  {
    if |MatchedClips(clips, ids)| >= 2 {
      var i, j := TwoMatched(clips, ids);
    }
  }

  lemma MergeClipsInside(clips: seq<Clip>, ids: seq<string>, duration: Seconds)
    requires ClipsInside(clips, duration)
    ensures ClipsInside(MergeClips(clips, ids), duration)
  {
    var matched := MatchedClips(clips, ids);
    if |matched| >= 2 {
      FilteredClips(clips, ids);
      MergedMembers(clips, ids);
      ExtremesBound(matched);
      assert matched[0] in matched;
    }
  }

  lemma EditStaysInside(tl: Timeline, op: EditOperation)
    requires Inside(tl) && ApplyEdit(tl, op).Ok?
    ensures Inside(ApplyEdit(tl, op).value)
  {
    var r := ApplyEdit(tl, op).value;
    match op
    case Trim(start, end) =>
      forall i | 0 <= i < |r.tracks|
        ensures ClipsInside(r.tracks[i].clips, r.durationSeconds)
      {
        TrimClipsInside(tl.tracks[i].clips, start, Min(end, tl.durationSeconds));
      }
      TrimMarkersInside(tl.markers, start, Min(end, tl.durationSeconds));
    case Split(at) =>
      forall i | 0 <= i < |r.tracks|
        ensures ClipsInside(r.tracks[i].clips, r.durationSeconds)
      {
        SplitClipsInside(tl.tracks[i].clips, at, tl.durationSeconds);
      }
    case Speed(k) => SpeedInside(tl, k);
    case Merge(ids) =>
      forall i | 0 <= i < |r.tracks|
        ensures ClipsInside(r.tracks[i].clips, r.durationSeconds)
      {
        MergeClipsInside(tl.tracks[i].clips, ids, tl.durationSeconds);
      }
    case _ =>
  }

  /** Any list of edits that goes through keeps every clip and marker within the duration. */
  lemma {:induction false} EditsStayInside(tl: Timeline, ops: seq<EditOperation>)
    requires Inside(tl) && ApplyEdits(tl, ops).Ok?
    ensures Inside(ApplyEdits(tl, ops).value)
    decreases |ops|
  {
    if ops != [] {
      EditStaysInside(tl, ops[0]);
      EditsStayInside(ApplyEdit(tl, ops[0]).value, ops[1..]);
    }
  }

  // ---------------------------------------------------------- two trims

  lemma {:induction false} TrimClipsConcat(a: seq<Clip>, b: seq<Clip>, start: Seconds, end: Seconds)
    ensures TrimClips(a + b, start, end) == TrimClips(a, start, end) + TrimClips(b, start, end)
  {
    if a == [] {
      assert [] + b == b;
    } else {
      assert (a + b)[1..] == a[1..] + b;
      TrimClipsConcat(a[1..], b, start, end);
    }
  }

  lemma {:induction false} TrimTwiceClips(clips: seq<Clip>, a: Seconds, e: Seconds, c: Seconds, e': Seconds)
    requires a >= 0.0 && c >= 0.0 && e' <= Max(0.0, e - a) && (e >= a || e' <= 0.0)
    ensures TrimClips(TrimClips(clips, a, e), c, e') == TrimClips(clips, a + c, a + e')
  {
    if clips != [] {
      TrimTwiceClips(clips[1..], a, e, c, e');
      TrimClipsConcat(TrimClip(clips[0], a, e), TrimClips(clips[1..], a, e), c, e');
      var once := TrimClip(clips[0], a, e);
      if once != [] {
        assert once == [once[0]] + [] && TrimClips([], c, e') == [];
        assert TrimClips(once, c, e') == TrimClip(once[0], c, e');
      }
      assert TrimClips(once, c, e') == TrimClip(clips[0], a + c, a + e');
    }
  }

  lemma NoMarkersTrimmed(start: Seconds, end: Seconds)
    ensures TrimMarkers([], start, end) == []
  {
  }

  lemma {:induction false} TrimTwiceMarkers(markers: seq<Marker>, a: Seconds, e: Seconds, c: Seconds, e': Seconds)
    requires a >= 0.0 && c >= 0.0 && e' <= Max(0.0, e - a) && (e >= a || e' < c)
    ensures TrimMarkers(TrimMarkers(markers, a, e), c, e') == TrimMarkers(markers, a + c, a + e')
  {
    hide TrimMarkers;
    NoMarkersTrimmed(a, e);
    NoMarkersTrimmed(c, e');
    NoMarkersTrimmed(a + c, a + e');
    if markers != [] {
      TrimTwiceMarkers(markers[1..], a, e, c, e');
      TrimMarkersStep(markers, a, e);
      TrimMarkersStep(markers, a + c, a + e');
      var once, rest := TrimMarkers(markers, a, e), TrimMarkers(markers[1..], a, e);
      if a <= markers[0].atSeconds <= e {
        assert once[1..] == rest;
        TrimMarkersStep(once, c, e');
      } else {
        assert once == rest;
      }
    }
  }

  lemma {:induction false} TrimBeyond(clips: seq<Clip>, markers: seq<Marker>, start: Seconds, end: Seconds)
    ensures end <= start ==> TrimClips(clips, start, end) == []
    ensures end < start ==> TrimMarkers(markers, start, end) == []
    decreases |clips| + |markers|
  {
    if clips != [] && end <= start {
      TrimBeyond(clips[1..], [], start, end);
    }
    if markers != [] && end < start {
      TrimBeyond([], markers[1..], start, end);
      TrimMarkersStep(markers, start, end);
    }
  }

  lemma ApplyOne(tl: Timeline, op: EditOperation)
    ensures ApplyEdits(tl, [op]) == ApplyEdit(tl, op)
  {
    assert [op][1..] == [];
  }

  /** The window two trims leave, in terms of the first one's end `e` and the duration it leaves. */
  lemma TrimTwiceOnTrack(clips: seq<Clip>, markers: seq<Marker>, a: Seconds, e: Seconds, c: Seconds, d: Seconds)
    requires 0.0 <= a && 0.0 <= c < d
    ensures var e', z := Min(d, Max(0.0, e - a)), Min(a + d, e);
            TrimClips(TrimClips(clips, a, e), c, e') == TrimClips(clips, a + c, z) &&
            TrimMarkers(TrimMarkers(markers, a, e), c, e') == TrimMarkers(markers, a + c, z)
  {
    var e', z := Min(d, Max(0.0, e - a)), Min(a + d, e);
    if e >= a {
      assert a + e' == z;
      TrimTwiceClips(clips, a, e, c, e');
      TrimTwiceMarkers(markers, a, e, c, e');
    } else {
      TrimBeyond(clips, markers, a, e);
      TrimBeyond(clips, markers, a + c, z);
    }
  }

  lemma TrimTwiceAgrees(tl: Timeline, a: Seconds, b: Seconds, c: Seconds, d: Seconds)
    requires 0.0 <= a < b && 0.0 <= c < d && a + c < b
    ensures ApplyEdit(ApplyEdit(tl, Trim(a, b)).value, Trim(c, d)) == ApplyEdit(tl, Trim(a + c, Min(a + d, b)))
  {
    hide TrimClips, TrimMarkers;
    var e := Min(b, tl.durationSeconds);
    var mid := TrimTimeline(tl, a, b).value;
    var x, y := TrimTimeline(mid, c, d).value, TrimTimeline(tl, a + c, Min(a + d, b)).value;
    assert Min(Min(a + d, b), tl.durationSeconds) == Min(a + d, e);
    TrimTwiceOnTrack([], tl.markers, a, e, c, d);
    forall i | 0 <= i < |tl.tracks|
      ensures x.tracks[i] == y.tracks[i]
    {
      TrimTwiceOnTrack(tl.tracks[i].clips, [], a, e, c, d);
    }
    assert x.tracks == y.tracks;
  }

  /**
   * Two trims are one trim of the intersected window, exactly when the second
   * starts before the first one's end; past it nothing is left to show.
   */
  lemma TrimTwice(tl: Timeline, a: Seconds, b: Seconds, c: Seconds, d: Seconds)
    requires 0.0 <= a < b && 0.0 <= c < d
    ensures ApplyEdit(tl, Trim(a + c, Min(a + d, b))).Ok? <==> a + c < b
    ensures ApplyEdits(tl, [Trim(a, b), Trim(c, d)]).Ok?
    ensures a + c < b ==>
              ApplyEdits(tl, [Trim(a, b), Trim(c, d)]) == ApplyEdit(tl, Trim(a + c, Min(a + d, b)))
    ensures a + c >= b ==>
              var r := ApplyEdits(tl, [Trim(a, b), Trim(c, d)]).value;
              r.durationSeconds == 0.0 && forall i :: 0 <= i < |r.tracks| ==> r.tracks[i].clips == []
  {
    var ops := [Trim(a, b), Trim(c, d)];
    var mid := TrimTimeline(tl, a, b).value;
    assert ops[1..] == [Trim(c, d)] && ops[1..][1..] == [];
    ApplyOne(mid, Trim(c, d));
    assert ApplyEdits(tl, ops) == ApplyEdits(mid, [Trim(c, d)]);
    if a + c < b {
      TrimTwiceAgrees(tl, a, b, c, d);
    } else {
      var e' := Min(d, mid.durationSeconds);
      forall i | 0 <= i < |mid.tracks|
        ensures TrimClips(mid.tracks[i].clips, c, e') == []
      {
        TrimBeyond(mid.tracks[i].clips, [], c, e');
      }
    }
  }

  // ---------------------------------------------------------- the footage

  predicate Covers(c: Clip, t: Seconds) {
    c.startSeconds <= t < c.endSeconds
  }

  /** The ids of the clips of the track that show footage at time `t`, in order. */
  function LitAt(clips: seq<Clip>, t: Seconds): seq<string> {
    if clips == [] then [] else (if Covers(clips[0], t) then [clips[0].id] else []) + LitAt(clips[1..], t)
  }

  lemma {:induction false} LitConcat(a: seq<Clip>, b: seq<Clip>, t: Seconds)
    ensures LitAt(a + b, t) == LitAt(a, t) + LitAt(b, t)
  {
    if a == [] {
      assert [] + b == b;
    } else {
      assert (a + b)[1..] == a[1..] + b;
      LitConcat(a[1..], b, t);
    }
  }

  lemma {:induction false} LitMeans(clips: seq<Clip>, t: Seconds)
    ensures LitAt(clips, t) != [] <==> exists c :: c in clips && Covers(c, t)
  {
    if clips != [] {
      LitMeans(clips[1..], t);
      assert clips == [clips[0]] + clips[1..];
    }
  }

  /** The id of the clip, or of a part that splits made of it: each second part has `#2` appended. */
  ghost predicate PartOf(part: string, id: string)
    decreases |part|
  {
    part == id || (|part| >= 2 && part[|part| - 2..] == "#2" && PartOf(part[..|part| - 2], id))
  }

  lemma {:induction false} PartOfPart(a: string, b: string, c: string)
    requires PartOf(a, b) && PartOf(b, c)
    ensures PartOf(a, c)
    decreases |a|
  {
    if a != b {
      PartOfPart(a[..|a| - 2], b, c);
    }
  }

  /** The same clips one by one, or parts of them. */
  ghost predicate PartsOf(parts: seq<string>, ids: seq<string>) {
    |parts| == |ids| && forall i :: 0 <= i < |parts| ==> PartOf(parts[i], ids[i])
  }

  lemma PartsOfParts(a: seq<string>, b: seq<string>, c: seq<string>)
    requires PartsOf(a, b) && PartsOf(b, c)
    ensures PartsOf(a, c)
  {
    forall i | 0 <= i < |a|
      ensures PartOf(a[i], c[i])
    {
      PartOfPart(a[i], b[i], c[i]);
    }
  }

  lemma {:induction false} TrimLights(clips: seq<Clip>, start: Seconds, end: Seconds, t: Seconds)
    requires 0.0 <= t < end - start
    ensures LitAt(TrimClips(clips, start, end), t) == LitAt(clips, t + start)
  {
    if clips != [] {
      var once := TrimClip(clips[0], start, end);
      TrimLights(clips[1..], start, end, t);
      LitConcat(once, TrimClips(clips[1..], start, end), t);
      assert once == [] || once[1..] == [];
      assert LitAt(once, t) == if Covers(clips[0], t + start) then [clips[0].id] else [];
    }
  }

  lemma {:induction false} SplitLights(clips: seq<Clip>, at: Seconds, t: Seconds)
    ensures PartsOf(LitAt(SplitClips(clips, at), t), LitAt(clips, t))
  {
    if clips != [] {
      var c, parts := clips[0], SplitClip(clips[0], at);
      SplitLights(clips[1..], at, t);
      LitConcat(parts, SplitClips(clips[1..], at), t);
      if Spans(c, at) {
        assert parts[1..] == [parts[1]] && parts[1..][1..] == [];
      }
      assert SecondId(c.id)[..|SecondId(c.id)| - 2] == c.id;
      assert LitAt(parts, t) == if !Covers(c, t) then [] else if Spans(c, at) && at <= t then [SecondId(c.id)] else [c.id];
    }
  }

  lemma SpeedCovers(c: Clip, k: real, t: Seconds)
    requires k > 0.0
    ensures Covers(SpeedClip(c, k), t) <==> Covers(c, t * k)
  {
    assert (t * k) / k == t;
    DivideOrder(c.startSeconds, t * k, k);
    DivideOrder(t * k, c.endSeconds, k);
  }

  lemma {:induction false} SpeedLights(clips: seq<Clip>, k: real, t: Seconds)
    requires k > 0.0
    ensures LitAt(SpeedClips(clips, k), t) == LitAt(clips, t * k)
  {
    hide Covers;
    if clips != [] {
      SpeedLights(clips[1..], k, t);
      SpeedClipsAt(clips, k);
      SpeedClipsAt(clips[1..], k);
      assert SpeedClips(clips, k)[1..] == SpeedClips(clips[1..], k);
      SpeedCovers(clips[0], k, t);
    }
  }

  lemma MergeLights(clips: seq<Clip>, ids: seq<string>, t: Seconds)
    requires LitAt(clips, t) != []
    ensures LitAt(MergeClips(clips, ids), t) != []
  {
    var matched, r := MatchedClips(clips, ids), MergeClips(clips, ids);
    if |matched| >= 2 {
      LitMeans(clips, t);
      var c :| c in clips && Covers(c, t);
      FilteredClips(clips, ids);
      MergedMembers(clips, ids);
      ExtremesBound(matched);
      var shown := if c.id in ids then MergedClip(matched) else c;
      assert shown in r && Covers(shown, t);
      LitMeans(r, t);
    }
  }

  /** The time in the timeline before the edit that is shown at `t` after it. */
  function TimeBefore(op: EditOperation, t: Seconds): Seconds {
    match op
    case Trim(start, _) => t + start
    case Speed(k) => t * k
    case _ => t
  }

  function SourceTime(ops: seq<EditOperation>, t: Seconds): Seconds {
    if ops == [] then t else TimeBefore(ops[0], SourceTime(ops[1..], t))
  }

  predicate HasMerge(ops: seq<EditOperation>) {
    ops != [] && (ops[0].Merge? || HasMerge(ops[1..]))
  }

  /** The track after, at `t`, and before, at `s`: the same clips lit, or parts of them; when merged, not gone dark. */
  ghost predicate ShowsSame(after: Track, t: Seconds, before: Track, s: Seconds, merged: bool) {
    && after.id == before.id && after.kind == before.kind
    && (!merged ==> PartsOf(LitAt(after.clips, t), LitAt(before.clips, s)))
    && (LitAt(before.clips, s) != [] ==> LitAt(after.clips, t) != [])
  }

  lemma PartsOfThemselves(ids: seq<string>)
    ensures PartsOf(ids, ids)
  {
  }

  lemma EditShowsTrack(tl: Timeline, op: EditOperation, t: Seconds, i: nat)
    requires ApplyEdit(tl, op).Ok? && 0.0 <= t < ApplyEdit(tl, op).value.durationSeconds && i < |tl.tracks|
    ensures |ApplyEdit(tl, op).value.tracks| == |tl.tracks|
    ensures ShowsSame(ApplyEdit(tl, op).value.tracks[i], t, tl.tracks[i], TimeBefore(op, t), op.Merge?)
  {
    hide LitAt, PartOf;
    PartsOfThemselves(LitAt(tl.tracks[i].clips, TimeBefore(op, t)));
    match op
    case Trim(start, end) => TrimLights(tl.tracks[i].clips, start, Min(end, tl.durationSeconds), t);
    case Split(at) => SplitLights(tl.tracks[i].clips, at, t);
    case Speed(k) =>
      SpeedLights(tl.tracks[i].clips, k, t);
      assert ApplyEdit(tl, op).value.tracks[i].clips == SpeedClips(tl.tracks[i].clips, k);
      assert TimeBefore(op, t) == t * k;
    case Merge(ids) =>
      if LitAt(tl.tracks[i].clips, t) != [] {
        MergeLights(tl.tracks[i].clips, ids, t);
      }
    case _ =>
  }

  lemma ShowsSameChains(a: Track, t: Seconds, b: Track, s: Seconds, m: bool, c: Track, r: Seconds, n: bool)
    requires ShowsSame(a, t, b, s, m) && ShowsSame(b, s, c, r, n)
    ensures ShowsSame(a, t, c, r, m || n)
  {
    hide LitAt, PartOf;
    if !m && !n {
      PartsOfParts(LitAt(a.clips, t), LitAt(b.clips, s), LitAt(c.clips, r));
    }
  }

  /** A time within a duration divided by a factor is, times the factor, within the duration. */
  lemma TimesFactor(t: Seconds, duration: Seconds, k: real)
    requires k > 0.0 && 0.0 <= t < duration / k
    ensures 0.0 <= t * k < duration
  {
    assert (t * k) / k == t;
    DivideOrder(t * k, duration, k);
  }

  lemma TimeBeforeInRange(tl: Timeline, op: EditOperation, t: Seconds)
    requires ApplyEdit(tl, op).Ok? && 0.0 <= t < ApplyEdit(tl, op).value.durationSeconds
    ensures 0.0 <= TimeBefore(op, t) < tl.durationSeconds
  {
    if op.Speed? {
      TimesFactor(t, tl.durationSeconds, op.factor);
    }
  }

  /**
   * Every moment of an edited timeline shows the footage of one moment of its
   * source: without merges exactly the same clips on every track, or parts that
   * splits made of them, and with merges no track goes dark where the source had
   * footage.
   */
  lemma {:induction false} EditsShowSource(tl: Timeline, ops: seq<EditOperation>, t: Seconds)
    requires ApplyEdits(tl, ops).Ok? && 0.0 <= t < ApplyEdits(tl, ops).value.durationSeconds
    ensures 0.0 <= SourceTime(ops, t) < tl.durationSeconds
    ensures |ApplyEdits(tl, ops).value.tracks| == |tl.tracks|
    ensures forall i | 0 <= i < |tl.tracks| ::
              ShowsSame(ApplyEdits(tl, ops).value.tracks[i], t, tl.tracks[i], SourceTime(ops, t), HasMerge(ops))
    decreases |ops|
  {
    hide LitAt, PartsOf;
    if ops != [] {
      var next, s := ApplyEdit(tl, ops[0]).value, SourceTime(ops[1..], t);
      EditsShowSource(next, ops[1..], t);
      TimeBeforeInRange(tl, ops[0], s);
      NextTracks(tl, ops[0]);
      assert ApplyEdits(tl, ops) == ApplyEdits(next, ops[1..]);
      var r := ApplyEdits(next, ops[1..]).value;
      forall i | 0 <= i < |tl.tracks|
        ensures ShowsSame(r.tracks[i], t, tl.tracks[i], SourceTime(ops, t), HasMerge(ops))
      {
        EditShowsTrack(tl, ops[0], s, i);
        ShowsSameChains(r.tracks[i], t, next.tracks[i], s, HasMerge(ops[1..]), tl.tracks[i], SourceTime(ops, t), ops[0].Merge?);
      }
    } else {
      assert ApplyEdits(tl, ops) == Ok(tl) && SourceTime(ops, t) == t;
      forall i | 0 <= i < |tl.tracks|
        ensures ShowsSame(tl.tracks[i], t, tl.tracks[i], t, false)
      {
        PartsOfThemselves(LitAt(tl.tracks[i].clips, t));
      }
    }
  }

  lemma NextTracks(tl: Timeline, op: EditOperation)
    requires ApplyEdit(tl, op).Ok?
    ensures |ApplyEdit(tl, op).value.tracks| == |tl.tracks|
  {
  }
}
