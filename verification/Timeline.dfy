/** Timelines, the edit operations over them, and the reducer that applies an edit. */
module Timeline {
  import opened Common

  /** Times are in seconds; arithmetic on them is exact. */
  type Seconds = real

  datatype Clip = Clip(id: string, startSeconds: Seconds, endSeconds: Seconds)

  datatype TrackKind = Screen | Camera | Audio

  datatype Track = Track(id: string, kind: TrackKind, clips: seq<Clip>)

  datatype Marker = Marker(atSeconds: Seconds, kind: string, text: Option<string>)

  datatype Timeline = Timeline(durationSeconds: Seconds, tracks: seq<Track>, markers: seq<Marker>)

  datatype EditOperation =
    | Trim(startSeconds: Seconds, endSeconds: Seconds)
    | Split(atSeconds: Seconds)
    | Merge(clipIds: seq<string>)
    | Speed(factor: real)
    | Crop(x: real, y: real, width: real, height: real)
    | Caption(captionAt: Seconds, caption: string)
    | Annotate(annotateAt: Seconds, annotation: string)

  datatype RangeError = RangeError

  type Edited = Result<Timeline, RangeError>

  function Min(a: real, b: real): real { if a <= b then a else b }

  function Max(a: real, b: real): real { if a >= b then a else b }

  // ----------------------------------------------- array operations in use

  function Map<A, B>(s: seq<A>, f: A -> B): seq<B> {
    if s == [] then [] else [f(s[0])] + Map(s[1..], f)
  }

  function Filter<A>(s: seq<A>, keep: A -> bool): seq<A> {
    if s == [] then [] else (if keep(s[0]) then [s[0]] else []) + Filter(s[1..], keep)
  }

  function FlatMap<A, B>(s: seq<A>, f: A -> seq<B>): seq<B> {
    if s == [] then [] else f(s[0]) + FlatMap(s[1..], f)
  }

  function MapTrackClips(tracks: seq<Track>, f: seq<Clip> -> seq<Clip>): seq<Track> {
    seq(|tracks|, i requires 0 <= i < |tracks| => tracks[i].(clips := f(tracks[i].clips)))
  }

  /** `sort(byStart)`: a stable sort, here by inserting each clip behind those that start no later. */
  function SortByStart(clips: seq<Clip>): seq<Clip> {
    if clips == [] then []
    else InsertByStart(SortByStart(clips[..|clips| - 1]), clips[|clips| - 1])
  }

  function InsertByStart(sorted: seq<Clip>, c: Clip): seq<Clip> {
    if sorted == [] || sorted[|sorted| - 1].startSeconds <= c.startSeconds then sorted + [c]
    else InsertByStart(sorted[..|sorted| - 1], c) + [sorted[|sorted| - 1]]
  }

  // --------------------------------------------------------------- the edits

  /** The part of a clip inside the window, moved to begin at its start. */
  function TrimClip(c: Clip, start: Seconds, effectiveEnd: Seconds): seq<Clip> {
    var lo := Max(c.startSeconds, start);
    var hi := Min(c.endSeconds, effectiveEnd);
    if hi > lo then [c.(startSeconds := lo - start, endSeconds := hi - start)] else []
  }

  function TrimClips(clips: seq<Clip>, start: Seconds, effectiveEnd: Seconds): seq<Clip> {
    FlatMap(clips, (c: Clip) => TrimClip(c, start, effectiveEnd))
  }

  function TrimMarkers(markers: seq<Marker>, start: Seconds, effectiveEnd: Seconds): seq<Marker> {
    Map(Filter(markers, (m: Marker) => start <= m.atSeconds <= effectiveEnd),
        (m: Marker) => m.(atSeconds := m.atSeconds - start))
  }

  function TrimTimeline(tl: Timeline, start: Seconds, end: Seconds): Edited {
    if !(start >= 0.0) || !(end > start) then Err(RangeError)
    else
      var effectiveEnd := Min(end, tl.durationSeconds);
      Ok(Timeline(
           Max(0.0, effectiveEnd - start),
           MapTrackClips(tl.tracks, clips => TrimClips(clips, start, effectiveEnd)),
           TrimMarkers(tl.markers, start, effectiveEnd)))
  }

  predicate Spans(c: Clip, at: Seconds) {
    c.startSeconds < at < c.endSeconds
  }

  function SecondId(id: string): string {
    id + "#2"
  }

  function SplitClip(c: Clip, at: Seconds): seq<Clip> {
    if Spans(c, at) then [c.(endSeconds := at), c.(id := SecondId(c.id), startSeconds := at)] else [c]
  }

  function SplitClips(clips: seq<Clip>, at: Seconds): seq<Clip> {
    FlatMap(clips, (c: Clip) => SplitClip(c, at))
  }

  function SplitTimeline(tl: Timeline, at: Seconds): Edited {
    if !(at > 0.0) || !(at < tl.durationSeconds) then Err(RangeError)
    else Ok(tl.(tracks := MapTrackClips(tl.tracks, clips => SplitClips(clips, at))))
  }

  function SpeedClip(c: Clip, factor: real): Clip
    requires factor > 0.0
  {
    c.(startSeconds := c.startSeconds / factor, endSeconds := c.endSeconds / factor)
  }

  function SpeedClips(clips: seq<Clip>, factor: real): seq<Clip>
    requires factor > 0.0
  {
    Map(clips, (c: Clip) => SpeedClip(c, factor))
  }

  function SpeedMarkers(markers: seq<Marker>, factor: real): seq<Marker>
    requires factor > 0.0
  {
    Map(markers, (m: Marker) => m.(atSeconds := m.atSeconds / factor))
  }

  function SpeedTimeline(tl: Timeline, factor: real): Edited {
    if !(factor > 0.0) then Err(RangeError)
    else
      Ok(Timeline(
           tl.durationSeconds / factor,
           MapTrackClips(tl.tracks, clips => SpeedClips(clips, factor)),
           SpeedMarkers(tl.markers, factor)))
  }

  function MinStart(clips: seq<Clip>): Seconds
    requires clips != []
  {
    if |clips| == 1 then clips[0].startSeconds else Min(clips[0].startSeconds, MinStart(clips[1..]))
  }

  function MaxEnd(clips: seq<Clip>): Seconds
    requires clips != []
  {
    if |clips| == 1 then clips[0].endSeconds else Max(clips[0].endSeconds, MaxEnd(clips[1..]))
  }

  function MatchedClips(clips: seq<Clip>, ids: seq<string>): seq<Clip> {
    Filter(clips, (c: Clip) => c.id in ids)
  }

  function OtherClips(clips: seq<Clip>, ids: seq<string>): seq<Clip> {
    Filter(clips, (c: Clip) => c.id !in ids)
  }

  /** The two filters of a merge, clip by clip. */
  lemma FilterStep(clips: seq<Clip>, ids: seq<string>)
    requires clips != []
    ensures MatchedClips(clips, ids) ==
              if clips[0].id in ids then [clips[0]] + MatchedClips(clips[1..], ids) else MatchedClips(clips[1..], ids)
    ensures OtherClips(clips, ids) ==
              if clips[0].id in ids then OtherClips(clips[1..], ids) else [clips[0]] + OtherClips(clips[1..], ids)
  {
    assert [] + MatchedClips(clips[1..], ids) == MatchedClips(clips[1..], ids);
    assert [] + OtherClips(clips[1..], ids) == OtherClips(clips[1..], ids);
  }

  function MergeClips(clips: seq<Clip>, ids: seq<string>): seq<Clip> {
    var matched := MatchedClips(clips, ids);
    if |matched| < 2 then clips
    else
      var merged := matched[0].(startSeconds := MinStart(matched), endSeconds := MaxEnd(matched));
      SortByStart(OtherClips(clips, ids) + [merged])
  }

  function MergeTimeline(tl: Timeline, clipIds: seq<string>): Timeline {
    tl.(tracks := MapTrackClips(tl.tracks, clips => MergeClips(clips, clipIds)))
  }

  /** Apply one edit operation. */
  function ApplyEdit(tl: Timeline, op: EditOperation): Edited {
    match op
    case Trim(start, end) => TrimTimeline(tl, start, end)
    case Split(at) => SplitTimeline(tl, at)
    case Speed(factor) => SpeedTimeline(tl, factor)
    case Merge(clipIds) => Ok(MergeTimeline(tl, clipIds))
    case Crop(_, _, _, _) => Ok(tl)
    case Caption(_, _) => Ok(tl)
    case Annotate(_, _) => Ok(tl)
  }

  /** Fold an operation list over a timeline; the first error ends it. */
  function ApplyEdits(tl: Timeline, ops: seq<EditOperation>): Edited
    decreases |ops|
  {
    if ops == [] then Ok(tl)
    else
      match ApplyEdit(tl, ops[0])
      case Err(e) => Err(e)
      case Ok(next) => ApplyEdits(next, ops[1..])
  }

  lemma {:induction false} ApplyEditsAppends(tl: Timeline, ops: seq<EditOperation>, more: seq<EditOperation>)
    ensures ApplyEdits(tl, ops + more) ==
              match ApplyEdits(tl, ops)
              case Err(e) => Err(e)
              case Ok(mid) => ApplyEdits(mid, more)
    decreases |ops|
  {
    if ops == [] {
      assert [] + more == more;
    } else {
      assert (ops + more)[1..] == ops[1..] + more;
      match ApplyEdit(tl, ops[0]) {
        case Err(_) =>
        case Ok(next) => ApplyEditsAppends(next, ops[1..], more);
      }
    }
  }
}
