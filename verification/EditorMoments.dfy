/** Which edit lists go through, which moments of the source they keep, and where its markers end up. */
module EditorMoments {
  import opened Common
  import opened Timeline
  import opened EditorSpeed
  import opened EditorPicture

  // ------------------------------------------------------- going through

  /** The operation's numbers are in range for a timeline of the duration. */
  predicate InRange(op: EditOperation, duration: Seconds) {
    match op
    case Trim(start, end) => 0.0 <= start < end
    case Split(at) => 0.0 < at < duration
    case Speed(factor) => factor > 0.0
    case _ => true
  }

  /** A list goes through exactly when every operation is in range for what the ones before it leave. */
  lemma {:induction false} EditsGoThroughIff(tl: Timeline, ops: seq<EditOperation>)
    ensures ApplyEdits(tl, ops).Ok? <==>
              forall i :: 0 <= i < |ops| ==>
                ApplyEdits(tl, ops[..i]).Ok? && InRange(ops[i], ApplyEdits(tl, ops[..i]).value.durationSeconds)
    decreases |ops|
  {
    if ops != [] {
      var n := |ops| - 1;
      var front := ops[..n];
      assert ops == front + [ops[n]];
      ApplyEditsAppends(tl, front, [ops[n]]);
      EditsGoThroughIff(tl, front);
      forall i | 0 <= i < n
        ensures ops[..i] == front[..i]
      {
      }
      if ApplyEdits(tl, front).Ok? {
        ApplyOne(ApplyEdits(tl, front).value, ops[n]);
      }
    }
  }

  // ------------------------------------------------------------- moments

  /** The time at which what was shown at `s` before the edit is shown after it. */
  function TimeAfter(op: EditOperation, s: Seconds): Seconds {
    match op
    case Trim(start, _) => s - start
    case Speed(k) => if k > 0.0 then s / k else s
    case _ => s
  }

  function ResultTime(ops: seq<EditOperation>, s: Seconds): Seconds
    decreases |ops|
  {
    if ops == [] then s else ResultTime(ops[1..], TimeAfter(ops[0], s))
  }

  /** Each moment of the source has its one time in the result, and the other way round. */
  lemma {:induction false} SourceTimeInverts(tl: Timeline, ops: seq<EditOperation>, t: Seconds)
    requires ApplyEdits(tl, ops).Ok?
    ensures SourceTime(ops, ResultTime(ops, t)) == t && ResultTime(ops, SourceTime(ops, t)) == t
    decreases |ops|
  {
    hide ApplyEdit, TimeBefore, TimeAfter;
    if ops != [] {
      var op, next := ops[0], ApplyEdit(tl, ops[0]).value;
      SourceTimeInverts(next, ops[1..], TimeAfter(op, t));
      SourceTimeInverts(next, ops[1..], t);
      TimeInverts(tl, op, t);
      TimeInverts(tl, op, SourceTime(ops[1..], t));
    }
  }

  lemma TimeInverts(tl: Timeline, op: EditOperation, t: Seconds)
    requires ApplyEdit(tl, op).Ok?
    ensures TimeBefore(op, TimeAfter(op, t)) == t && TimeAfter(op, TimeBefore(op, t)) == t
  {
    if op.Speed? {
      assert (t / op.factor) * op.factor == t && (t * op.factor) / op.factor == t;
    }
  }

  /** The moment shown at `t` lies in every trim window it meets, the windows' ends included or not. */
  ghost predicate InWindows(ops: seq<EditOperation>, t: Seconds, closed: bool) {
    forall j :: 0 <= j < |ops| && ops[j].Trim? ==>
      ops[j].startSeconds <= SourceTime(ops[j..], t) &&
      (SourceTime(ops[j..], t) < ops[j].endSeconds || (closed && SourceTime(ops[j..], t) == ops[j].endSeconds))
  }

  lemma WindowsStep(ops: seq<EditOperation>, t: Seconds, closed: bool)
    requires ops != []
    ensures InWindows(ops, t, closed) <==>
              InWindows(ops[1..], t, closed) &&
              (ops[0].Trim? ==>
                 ops[0].startSeconds <= SourceTime(ops, t) &&
                 (SourceTime(ops, t) < ops[0].endSeconds || (closed && SourceTime(ops, t) == ops[0].endSeconds)))
  {
    hide SourceTime;
    assert ops[0..] == ops;
    forall j | 0 < j < |ops|
      ensures ops[j] == ops[1..][j - 1] && ops[j..] == ops[1..][j - 1..]
    {
    }
    if InWindows(ops, t, closed) {
      forall i | 0 <= i < |ops[1..]| && ops[1..][i].Trim?
        ensures var s := SourceTime(ops[1..][i..], t);
                ops[1..][i].startSeconds <= s && (s < ops[1..][i].endSeconds || (closed && s == ops[1..][i].endSeconds))
      {
        assert ops[i + 1..] == ops[1..][i..] && ops[i + 1] == ops[1..][i];
      }
    }
  }

  /** One edit keeps the moments in its window, and those alone. */
  lemma EditKeepsMoments(tl: Timeline, op: EditOperation, t: Seconds)
    requires ApplyEdit(tl, op).Ok?
    ensures 0.0 <= t < ApplyEdit(tl, op).value.durationSeconds <==>
              0.0 <= TimeBefore(op, t) < tl.durationSeconds &&
              (op.Trim? ==> op.startSeconds <= TimeBefore(op, t) < op.endSeconds)
  {
    if op.Speed? {
      assert (t * op.factor) / op.factor == t;
      DivideOrder(t * op.factor, tl.durationSeconds, op.factor);
      DivideSign(t * op.factor, op.factor);
    }
  }

  /**
   * The moments of the result are exactly those of the source that lie in every
   * trim window: nothing else is lost and nothing is added, so this is how long
   * the result is.
   */
  lemma {:induction false} EditsKeepMoments(tl: Timeline, ops: seq<EditOperation>, t: Seconds)
    requires ApplyEdits(tl, ops).Ok?
    ensures 0.0 <= t < ApplyEdits(tl, ops).value.durationSeconds <==>
              0.0 <= SourceTime(ops, t) < tl.durationSeconds && InWindows(ops, t, false)
    decreases |ops|
  {
    if ops != [] {
      hide ApplyEdit, TimeBefore, InWindows;
      EditsKeepMoments(ApplyEdit(tl, ops[0]).value, ops[1..], t);
      EditKeepsMoments(tl, ops[0], SourceTime(ops[1..], t));
      WindowsStep(ops, t, false);
    }
  }

  // ------------------------------------------------------------- markers

  predicate HasTrim(ops: seq<EditOperation>) {
    ops != [] && (ops[0].Trim? || HasTrim(ops[1..]))
  }

  /** No trim cuts the marker off: it lies in every window, and none is past the end of the timeline. */
  ghost predicate Stays(ops: seq<EditOperation>, m: Marker, duration: Seconds) {
    InWindows(ops, ResultTime(ops, m.atSeconds), true) && (HasTrim(ops) ==> m.atSeconds <= duration)
  }

  /** The markers after are those before that stay, in order, each with its kind and text at its time. */
  ghost predicate ShowsMarkers(after: seq<Marker>, before: seq<Marker>, ops: seq<EditOperation>, duration: Seconds)
    decreases |before|
  {
    if before == [] then after == []
    else if Stays(ops, before[0], duration) then
      && after != []
      && after[0].kind == before[0].kind && after[0].text == before[0].text
      && SourceTime(ops, after[0].atSeconds) == before[0].atSeconds
      && ShowsMarkers(after[1..], before[1..], ops, duration)
    else ShowsMarkers(after, before[1..], ops, duration)
  }

  lemma WindowOf(op: EditOperation, t: Seconds, closed: bool)
    ensures SourceTime([op], t) == TimeBefore(op, t) && ResultTime([op], t) == TimeAfter(op, t)
    ensures InWindows([op], t, closed) <==>
              (op.Trim? ==> op.startSeconds <= TimeBefore(op, t) &&
                            (TimeBefore(op, t) < op.endSeconds || (closed && TimeBefore(op, t) == op.endSeconds)))
    ensures HasTrim([op]) == op.Trim?
  {
    assert [op][1..] == [];
    WindowsStep([op], t, closed);
  }

  lemma {:induction false} TrimShowsMarkers(markers: seq<Marker>, start: Seconds, end: Seconds, duration: Seconds)
    ensures ShowsMarkers(TrimMarkers(markers, start, Min(end, duration)), markers, [Trim(start, end)], duration)
    decreases |markers|
  {
    hide TrimMarkers, SourceTime, ResultTime, InWindows, HasTrim;
    var e := Min(end, duration);
    if markers == [] {
      NoMarkersTrimmed(start, e);
    } else {
      var once, rest := TrimMarkers(markers, start, e), TrimMarkers(markers[1..], start, e);
      TrimShowsMarkers(markers[1..], start, end, duration);
      TrimMarkersStep(markers, start, e);
      WindowOf(Trim(start, end), markers[0].atSeconds - start, true);
      WindowOf(Trim(start, end), markers[0].atSeconds, true);
      if start <= markers[0].atSeconds <= e {
        assert once[1..] == rest;
      } else {
        assert once == rest;
      }
    }
  }

  lemma {:induction false} SpeedShowsMarkers(markers: seq<Marker>, k: real, duration: Seconds)
    requires k > 0.0
    ensures ShowsMarkers(SpeedMarkers(markers, k), markers, [Speed(k)], duration)
    decreases |markers|
  {
    if markers != [] {
      hide SourceTime, ResultTime, InWindows, HasTrim;
      var sped := SpeedMarkers(markers, k);
      SpeedShowsMarkers(markers[1..], k, duration);
      SpeedMarkersAt(markers, k);
      SpeedMarkersAt(markers[1..], k);
      assert sped[1..] == SpeedMarkers(markers[1..], k);
      WindowOf(Speed(k), markers[0].atSeconds / k, true);
      WindowOf(Speed(k), markers[0].atSeconds, true);
      assert (markers[0].atSeconds / k) * k == markers[0].atSeconds;
    }
  }

  lemma {:induction false} OthersShowMarkers(markers: seq<Marker>, op: EditOperation, duration: Seconds)
    requires !op.Trim? && !op.Speed?
    ensures ShowsMarkers(markers, markers, [op], duration)
    decreases |markers|
  {
    if markers != [] {
      hide SourceTime, ResultTime, InWindows, HasTrim;
      OthersShowMarkers(markers[1..], op, duration);
      WindowOf(op, markers[0].atSeconds, true);
    }
  }

  lemma EditShowsMarkers(tl: Timeline, op: EditOperation)
    requires ApplyEdit(tl, op).Ok?
    ensures ShowsMarkers(ApplyEdit(tl, op).value.markers, tl.markers, [op], tl.durationSeconds)
  {
    match op
    case Trim(start, end) => TrimShowsMarkers(tl.markers, start, end, tl.durationSeconds);
    case Speed(k) => SpeedShowsMarkers(tl.markers, k, tl.durationSeconds);
    case _ => OthersShowMarkers(tl.markers, op, tl.durationSeconds);
  }

  /** A marker stays through a list when it stays through the first operation and then through the others. */
  lemma StaysStep(tl: Timeline, ops: seq<EditOperation>, m: Marker)
    requires ops != [] && ApplyEdits(tl, ops).Ok?
    ensures var next, moved := ApplyEdit(tl, ops[0]).value, m.(atSeconds := TimeAfter(ops[0], m.atSeconds));
            Stays(ops, m, tl.durationSeconds) <==>
              Stays([ops[0]], m, tl.durationSeconds) && Stays(ops[1..], moved, next.durationSeconds)
  {
    hide InWindows, SourceTime;
    var op, t := ops[0], ResultTime(ops, m.atSeconds);
    WindowsStep(ops, t, true);
    SourceTimeInverts(tl, ops, m.atSeconds);
    WindowOf(op, TimeAfter(op, m.atSeconds), true);
    WindowOf(op, m.atSeconds, true);
    ApplyOne(tl, op);
    SourceTimeInverts(tl, [op], m.atSeconds);
    if op.Speed? {
      DivideOrder(m.atSeconds, tl.durationSeconds, op.factor);
    }
  }

  lemma {:induction false} ShowsMarkersChains(tl: Timeline, ops: seq<EditOperation>,
                                              after: seq<Marker>, mid: seq<Marker>, before: seq<Marker>)
    requires ops != [] && ApplyEdits(tl, ops).Ok?
    requires ShowsMarkers(mid, before, [ops[0]], tl.durationSeconds)
    requires ShowsMarkers(after, mid, ops[1..], ApplyEdit(tl, ops[0]).value.durationSeconds)
    ensures ShowsMarkers(after, before, ops, tl.durationSeconds)
    decreases |before|
  {
    hide Stays, SourceTime, ResultTime, ApplyEdit, TimeBefore, TimeAfter;
    if before != [] {
      var op := ops[0];
      StaysStep(tl, ops, before[0]);
      if Stays([op], before[0], tl.durationSeconds) {
        WindowOf(op, mid[0].atSeconds, true);
        TimeInverts(tl, op, mid[0].atSeconds);
        assert mid[0] == before[0].(atSeconds := TimeAfter(op, before[0].atSeconds));
        var kept := Stays(ops[1..], mid[0], ApplyEdit(tl, op).value.durationSeconds);
        ShowsMarkersChains(tl, ops, if kept then after[1..] else after, mid[1..], before[1..]);
        if kept {
          SourceTimeStep(ops, after[0].atSeconds);
        }
      } else {
        ShowsMarkersChains(tl, ops, after, mid, before[1..]);
      }
    }
  }

  lemma SourceTimeStep(ops: seq<EditOperation>, t: Seconds)
    requires ops != []
    ensures SourceTime(ops, t) == TimeBefore(ops[0], SourceTime(ops[1..], t))
  {
  }

  /**
   * The markers of the result are exactly the source's markers that lie in every
   * trim window, in order and with kind and text as they were, each at the time
   * that shows its source time.
   */
  lemma {:induction false} EditsShowMarkers(tl: Timeline, ops: seq<EditOperation>)
    requires ApplyEdits(tl, ops).Ok?
    ensures ShowsMarkers(ApplyEdits(tl, ops).value.markers, tl.markers, ops, tl.durationSeconds)
    decreases |ops|
  {
    if ops == [] {
      AllMarkersShown(tl.markers, tl.durationSeconds);
    } else {
      var next := ApplyEdit(tl, ops[0]).value;
      EditShowsMarkers(tl, ops[0]);
      EditsShowMarkers(next, ops[1..]);
      ShowsMarkersChains(tl, ops, ApplyEdits(next, ops[1..]).value.markers, next.markers, tl.markers);
    }
  }

  lemma {:induction false} AllMarkersShown(markers: seq<Marker>, duration: Seconds)
    ensures ShowsMarkers(markers, markers, [], duration)
    decreases |markers|
  {
    if markers != [] {
      AllMarkersShown(markers[1..], duration);
    }
  }

  /** Without a trim every marker is there. */
  lemma {:induction false} UntrimmedKeepsMarkers(tl: Timeline, ops: seq<EditOperation>, k: nat)
    requires ApplyEdits(tl, ops).Ok? && !HasTrim(ops) && k < |tl.markers|
    ensures var r := ApplyEdits(tl, ops).value;
            |r.markers| == |tl.markers| &&
            r.markers[k].kind == tl.markers[k].kind && r.markers[k].text == tl.markers[k].text &&
            SourceTime(ops, r.markers[k].atSeconds) == tl.markers[k].atSeconds
  {
    EditsShowMarkers(tl, ops);
    AllStay(ApplyEdits(tl, ops).value.markers, tl.markers, ops, tl.durationSeconds, k);
  }

  lemma {:induction false} AllStay(after: seq<Marker>, before: seq<Marker>, ops: seq<EditOperation>, duration: Seconds, k: nat)
    requires ShowsMarkers(after, before, ops, duration) && !HasTrim(ops) && k < |before|
    ensures |after| == |before|
    ensures after[k].kind == before[k].kind && after[k].text == before[k].text
    ensures SourceTime(ops, after[k].atSeconds) == before[k].atSeconds
    decreases |before|
  {
    NoTrims(ops);
    if |before| > 1 {
      AllStay(after[1..], before[1..], ops, duration, if k > 0 then k - 1 else 0);
    }
  }

  lemma {:induction false} NoTrims(ops: seq<EditOperation>)
    requires !HasTrim(ops)
    ensures forall i :: 0 <= i < |ops| ==> !ops[i].Trim?
  {
    if ops != [] {
      NoTrims(ops[1..]);
      assert ops == [ops[0]] + ops[1..];
    }
  }
}
