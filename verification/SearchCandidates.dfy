/**
 * The candidates of a search: title matches and transcript matches merged into
 * one hit a video, in order of creation. The two selections are the database's;
 * a transcript is searched in the text of its JSON column.
 */
module SearchCandidates {
  import opened Common
  import opened SearchIndex
  import opened TranscriptText
  import Strings
  import TranscriptWords
  import UnsaidHits

  datatype Video = Video(id: string, organizationId: string, title: string, createdAt: string)

  datatype Transcript = Transcript(videoId: string, segments: seq<Segment>)

  datatype Match = Match(organizationId: string, id: string, position: Option<Seconds>)

  // -------------------------------------------------------- what is looked for

  /** `text.toLowerCase().includes(query.toLowerCase())`. */
  predicate Includes(fold: Fold, query: string, text: string) {
    StartsWith(fold, text, query) || (text != "" && Includes(fold, query, text[1..]))
  }

  /** The program's own test and the database's pattern agree on every text. */
  lemma {:induction false} IncludesAgreesWithLike(fold: Fold, query: string, text: string)
    ensures Includes(fold, query, text) <==> Like(fold, Needle(query), text)
  {
    var tail := EscapeLike(query) + "%";
    assert Needle(query)[1..] == tail;
    EscapedPrefix(fold, query, text);
    if text != "" {
      IncludesAgreesWithLike(fold, query, text[1..]);
    }
  }

  /** The start of the first segment that includes the query. */
  function FirstSaid(fold: Fold, query: string, segments: seq<Segment>): Option<Seconds> {
    if segments == [] then None
    else if Includes(fold, query, segments[0].text) then Some(segments[0].start)
    else FirstSaid(fold, query, segments[1..])
  }

  /** It is the start of a segment that includes the query, and none before it does. */
  lemma {:induction false} FirstSaidMeans(fold: Fold, query: string, segments: seq<Segment>)
    ensures FirstSaid(fold, query, segments).None? <==>
              forall i :: 0 <= i < |segments| ==> !Includes(fold, query, segments[i].text)
    ensures FirstSaid(fold, query, segments).Some? ==>
              exists i :: 0 <= i < |segments| && Includes(fold, query, segments[i].text) &&
                FirstSaid(fold, query, segments) == Some(segments[i].start) &&
                forall j :: 0 <= j < i ==> !Includes(fold, query, segments[j].text)
  {
    hide Includes;
    if segments != [] && !Includes(fold, query, segments[0].text) {
      var rest := segments[1..];
      FirstSaidMeans(fold, query, rest);
      assert forall i :: 0 < i < |segments| ==> segments[i] == rest[i - 1];
      if FirstSaid(fold, query, rest).Some? {
        var i :| 0 <= i < |rest| && Includes(fold, query, rest[i].text) &&
          FirstSaid(fold, query, rest) == Some(rest[i].start) &&
          forall j :: 0 <= j < i ==> !Includes(fold, query, rest[j].text);
        assert segments[i + 1] == rest[i];
      } else {
        assert forall i :: 0 <= i < |rest| ==> rest[i] == segments[i + 1];
      }
    }
  }

  /** The transcript is one of the video's, and the query occurs in its stored text. */
  ghost predicate Mentions(fold: Fold, query: string, t: Transcript, v: Video) {
    t.videoId == v.id && Occurs(fold, query, StoredText(t.segments))
  }

  ghost predicate Mentioned(fold: Fold, query: string, transcripts: seq<Transcript>, v: Video) {
    exists t :: t in transcripts && Mentions(fold, query, t, v)
  }

  /** The video should be found. */
  ghost predicate Found(fold: Fold, query: string, transcripts: seq<Transcript>, v: Video) {
    Occurs(fold, query, v.title) || Mentioned(fold, query, transcripts, v)
  }

  /** Where playing should start: as the last mentioning transcript with a matching segment says. */
  ghost function Position(fold: Fold, query: string, transcripts: seq<Transcript>, v: Video): Option<Seconds> {
    if transcripts == [] then None
    else
      var t := Last(transcripts);
      if Mentions(fold, query, t, v) && FirstSaid(fold, query, t.segments).Some? then FirstSaid(fold, query, t.segments)
      else Position(fold, query, Front(transcripts), v)
  }

  /** It comes from a transcript that mentions the video and says the query, and no later one does. */
  lemma {:induction false} PositionMeans(fold: Fold, query: string, transcripts: seq<Transcript>, v: Video)
    ensures Position(fold, query, transcripts, v).None? <==>
              forall i :: 0 <= i < |transcripts| ==>
                !(Mentions(fold, query, transcripts[i], v) && FirstSaid(fold, query, transcripts[i].segments).Some?)
    ensures Position(fold, query, transcripts, v).Some? ==>
              exists i :: 0 <= i < |transcripts| && Mentions(fold, query, transcripts[i], v) &&
                FirstSaid(fold, query, transcripts[i].segments) == Position(fold, query, transcripts, v) &&
                forall j :: i < j < |transcripts| ==>
                  !(Mentions(fold, query, transcripts[j], v) && FirstSaid(fold, query, transcripts[j].segments).Some?)
    decreases |transcripts|
  {
    hide Mentions, FirstSaid;
    if transcripts != [] {
      var before := Front(transcripts);
      PositionMeans(fold, query, before, v);
      assert forall i :: 0 <= i < |before| ==> transcripts[i] == before[i];
      assert Last(transcripts) == transcripts[|before|];
      if Position(fold, query, before, v).Some? {
        var i :| 0 <= i < |before| && Mentions(fold, query, before[i], v) &&
          FirstSaid(fold, query, before[i].segments) == Position(fold, query, before, v) &&
          forall j :: i < j < |before| ==>
            !(Mentions(fold, query, before[j], v) && FirstSaid(fold, query, before[j].segments).Some?);
        assert transcripts[i] == before[i];
      }
    }
  }

  /** Created before, or at the same time with a lesser id. */
  predicate Earlier(aCreated: string, aId: string, bCreated: string, bId: string) {
    Strings.Less(aCreated, bCreated) || (aCreated == bCreated && Strings.Less(aId, bId))
  }

  ghost predicate InOrder(videos: seq<Video>) {
    forall i, j :: 0 <= i < j < |videos| ==> Earlier(videos[i].createdAt, videos[i].id, videos[j].createdAt, videos[j].id)
  }

  ghost predicate DistinctIds(videos: seq<Video>) {
    forall v, w :: v in videos && w in videos && v.id == w.id ==> v == w
  }

  // --------------------------------------------------------- the two selections

  function TitleRows(fold: Fold, needle: string, videos: seq<Video>): seq<Video> {
    if videos == [] then []
    else TitleRows(fold, needle, Front(videos)) + if Like(fold, needle, Last(videos).title) then [Last(videos)] else []
  }

  /** A transcript joined to its video, with the text of its column. */
  datatype TranscriptRow = TranscriptRow(video: Video, raw: string)

  function VideoWith(videos: seq<Video>, id: string): Option<Video> {
    if videos == [] then None
    else if Last(videos).id == id then Some(Last(videos))
    else VideoWith(Front(videos), id)
  }

  function TranscriptRows(fold: Fold, needle: string, videos: seq<Video>, transcripts: seq<Transcript>): seq<TranscriptRow>
    decreases |transcripts|
  {
    if transcripts == [] then []
    else
      var t := Last(transcripts);
      TranscriptRows(fold, needle, videos, Front(transcripts)) +
      if Like(fold, needle, StoredText(t.segments)) && VideoWith(videos, t.videoId).Some?
      then [TranscriptRow(VideoWith(videos, t.videoId).value, StoredText(t.segments))] else []
  }

  lemma {:induction false} TitleRowsAre(fold: Fold, query: string, videos: seq<Video>)
    ensures forall v :: v in TitleRows(fold, Needle(query), videos) <==> v in videos && Occurs(fold, query, v.title)
    decreases |videos|
  {
    if videos != [] {
      TitleRowsAre(fold, query, Front(videos));
      NeedleMatchesOccurrences(fold, query, Last(videos).title);
      assert videos == Front(videos) + [Last(videos)];
    }
  }

  lemma {:induction false} VideoWithFinds(videos: seq<Video>, id: string)
    ensures VideoWith(videos, id).Some? ==> VideoWith(videos, id).value in videos && VideoWith(videos, id).value.id == id
    ensures VideoWith(videos, id).None? ==> forall v :: v in videos ==> v.id != id
  {
    if videos != [] {
      VideoWithFinds(Front(videos), id);
      assert videos == Front(videos) + [Last(videos)];
    }
  }

  // ---------------------------------------------------------------- the merging

  /** The start of the first segment, read from a row's text, that includes the query. */
  function RowSays(fold: Fold, query: string, row: TranscriptRow): Option<Seconds> {
    FirstSaid(fold, query, ParseSegments(row.raw))
  }

  /** What the rows read so far say of a video's position. */
  function PositionInRows(fold: Fold, query: string, rows: seq<TranscriptRow>, v: Video): Option<Seconds> {
    if rows == [] then None
    else if Last(rows).video == v && RowSays(fold, query, Last(rows)).Some?
    then RowSays(fold, query, Last(rows))
    else PositionInRows(fold, query, Front(rows), v)
  }

  predicate InRows(rows: seq<TranscriptRow>, v: Video) {
    rows != [] && (Last(rows).video == v || InRows(Front(rows), v))
  }

  lemma MentionedStep(fold: Fold, query: string, before: seq<Transcript>, t: Transcript, v: Video)
    ensures Mentioned(fold, query, before + [t], v) <==> Mentioned(fold, query, before, v) || Mentions(fold, query, t, v)
  {
    hide Mentions;
    if Mentioned(fold, query, before, v) {
      var u :| u in before && Mentions(fold, query, u, v);
      assert u in before + [t];
    }
    assert t in before + [t];
  }

  /** One more transcript selects at most one more row. */
  lemma OneMoreTranscript(fold: Fold, needle: string, query: string, videos: seq<Video>, before: seq<Transcript>,
                          t: Transcript, v: Video)
    ensures TranscriptRows(fold, needle, videos, before + [t]) ==
            TranscriptRows(fold, needle, videos, before) +
            if Like(fold, needle, StoredText(t.segments)) && VideoWith(videos, t.videoId).Some?
            then [TranscriptRow(VideoWith(videos, t.videoId).value, StoredText(t.segments))] else []
    ensures Position(fold, query, before + [t], v) ==
            if Mentions(fold, query, t, v) && FirstSaid(fold, query, t.segments).Some? then FirstSaid(fold, query, t.segments)
            else Position(fold, query, before, v)
  {
    assert Front(before + [t]) == before && Last(before + [t]) == t;
  }

  lemma OneMoreRow(fold: Fold, query: string, rows: seq<TranscriptRow>, row: TranscriptRow, v: Video)
    ensures PositionInRows(fold, query, rows + [row], v) ==
            if row.video == v && RowSays(fold, query, row).Some? then RowSays(fold, query, row)
            else PositionInRows(fold, query, rows, v)
    ensures InRows(rows + [row], v) <==> row.video == v || InRows(rows, v)
  {
    assert Front(rows + [row]) == rows && Last(rows + [row]) == row;
  }

  lemma {:induction false} RowsTellTranscripts(fold: Fold, query: string, videos: seq<Video>, transcripts: seq<Transcript>, v: Video)
    requires DistinctIds(videos) && v in videos
    ensures var rows := TranscriptRows(fold, Needle(query), videos, transcripts);
            PositionInRows(fold, query, rows, v) == Position(fold, query, transcripts, v) &&
            (InRows(rows, v) <==> Mentioned(fold, query, transcripts, v))
    decreases |transcripts|
  {
    if transcripts != [] {
      var before, t := Front(transcripts), Last(transcripts);
      assert transcripts == before + [t];
      RowsTellTranscripts(fold, query, videos, before, v);
      OneMoreTellsOneMore(fold, query, videos, before, t, v);
    }
  }

  lemma OneMoreTellsOneMore(fold: Fold, query: string, videos: seq<Video>, before: seq<Transcript>, t: Transcript, v: Video)
    requires DistinctIds(videos) && v in videos
    requires var rows := TranscriptRows(fold, Needle(query), videos, before);
             PositionInRows(fold, query, rows, v) == Position(fold, query, before, v) &&
             (InRows(rows, v) <==> Mentioned(fold, query, before, v))
    ensures var rows := TranscriptRows(fold, Needle(query), videos, before + [t]);
            PositionInRows(fold, query, rows, v) == Position(fold, query, before + [t], v) &&
            (InRows(rows, v) <==> Mentioned(fold, query, before + [t], v))
  {
    hide Like, Occurs, Needle, FirstSaid, Mentioned, VideoWith, TranscriptRows, PositionInRows, Position, InRows,
         StoredText, ParseSegments;
    OneMoreTranscript(fold, Needle(query), query, videos, before, t, v);
    MentionedStep(fold, query, before, t, v);
    NeedleMatchesOccurrences(fold, query, StoredText(t.segments));
    ParseStored(t.segments);
    VideoWithFinds(videos, t.videoId);
    var rows := TranscriptRows(fold, Needle(query), videos, before);
    if Like(fold, Needle(query), StoredText(t.segments)) && VideoWith(videos, t.videoId).Some? {
      var row := TranscriptRow(VideoWith(videos, t.videoId).value, StoredText(t.segments));
      OneMoreRow(fold, query, rows, row, v);
      assert Mentions(fold, query, t, v) <==> row.video == v;
    } else {
      assert rows + [] == rows;
    }
  }

  datatype Entry = Entry(organizationId: string, createdAt: string, position: Option<Seconds>)

  /** The entries are exactly those of the videos in `listed` or in the rows read, positioned as the rows say. */
  ghost predicate Merged(fold: Fold, query: string, videos: seq<Video>, listed: seq<Video>, rows: seq<TranscriptRow>,
                         byId: map<string, Entry>) {
    && (forall v :: v in videos && v.id in byId ==>
          byId[v.id] == Entry(v.organizationId, v.createdAt, PositionInRows(fold, query, rows, v)))
    && (forall v :: v in videos ==> (v.id in byId <==> v in listed || InRows(rows, v)))
    && (forall id :: id in byId ==> exists v :: v in videos && v.id == id)
  }

  lemma NothingMerged(fold: Fold, query: string, videos: seq<Video>)
    ensures Merged(fold, query, videos, [], [], map[])
  {
  }

  lemma TitleStep(fold: Fold, query: string, videos: seq<Video>, listed: seq<Video>, byId: map<string, Entry>, v: Video)
    requires DistinctIds(videos) && Merged(fold, query, videos, listed, [], byId) && v in videos
    ensures Merged(fold, query, videos, listed + [v], [], byId[v.id := Entry(v.organizationId, v.createdAt, None)])
  {
  }

  lemma RowStep(fold: Fold, query: string, videos: seq<Video>, listed: seq<Video>, rows: seq<TranscriptRow>,
                byId: map<string, Entry>, row: TranscriptRow)
    requires DistinctIds(videos) && Merged(fold, query, videos, listed, rows, byId) && row.video in videos
    ensures var v, said := row.video, RowSays(fold, query, row);
            var entry := if v.id in byId then byId[v.id] else Entry(v.organizationId, v.createdAt, None);
            Merged(fold, query, videos, listed, rows + [row],
                   byId[v.id := if said.Some? then entry.(position := said) else entry])
  {
    hide FirstSaid;
    var more := rows + [row];
    assert Front(more) == rows && Last(more) == row;
    if row.video.id !in byId {
      NotInRows(fold, query, rows, row.video);
    }
  }

  /** The rows of both selections merged by video id, a transcript's position taking the place of none. */
  method Merge(fold: Fold, query: string, ghost videos: seq<Video>, titles: seq<Video>, rows: seq<TranscriptRow>)
    returns (byId: map<string, Entry>)
    requires DistinctIds(videos)
    requires forall v :: v in titles ==> v in videos
    requires forall r :: r in rows ==> r.video in videos
    ensures Merged(fold, query, videos, titles, rows, byId)
  {
    hide FirstSaid, Merged;
    byId := map[];
    NothingMerged(fold, query, videos);
    for i := 0 to |titles|
      invariant Merged(fold, query, videos, titles[..i], [], byId)
    {
      TitleStep(fold, query, videos, titles[..i], byId, titles[i]);
      assert titles[..i + 1] == titles[..i] + [titles[i]];
      byId := byId[titles[i].id := Entry(titles[i].organizationId, titles[i].createdAt, None)];
    }
    assert titles[..|titles|] == titles;
    for j := 0 to |rows|
      invariant Merged(fold, query, videos, titles, rows[..j], byId)
    {
      RowStep(fold, query, videos, titles, rows[..j], byId, rows[j]);
      assert rows[..j + 1] == rows[..j] + [rows[j]];
      var v, said := rows[j].video, RowSays(fold, query, rows[j]);
      var entry := if v.id in byId then byId[v.id] else Entry(v.organizationId, v.createdAt, None);
      if said.Some? {
        entry := entry.(position := said);
      }
      byId := byId[v.id := entry];
    }
    assert rows[..|rows|] == rows;
  }

  lemma {:induction false} NotInRows(fold: Fold, query: string, rows: seq<TranscriptRow>, v: Video)
    requires !InRows(rows, v)
    ensures PositionInRows(fold, query, rows, v) == None
    decreases |rows|
  {
    if rows != [] {
      NotInRows(fold, query, Front(rows), v);
    }
  }

  /** The ids of the entries, earliest first. */
  method SortedIds(byId: map<string, Entry>) returns (ids: seq<string>)
    ensures forall id :: id in ids <==> id in byId
    ensures forall i, j :: 0 <= i < j < |ids| ==> Earlier(byId[ids[i]].createdAt, ids[i], byId[ids[j]].createdAt, ids[j])
  {
    ids := [];
    var rest := byId.Keys;
    while rest != {}
      invariant rest <= byId.Keys
      invariant forall id :: id in ids <==> id in byId && id !in rest
      invariant forall i, j :: 0 <= i < j < |ids| ==> Earlier(byId[ids[i]].createdAt, ids[i], byId[ids[j]].createdAt, ids[j])
      invariant forall x, y :: x in ids && y in rest ==> Earlier(byId[x].createdAt, x, byId[y].createdAt, y)
      decreases rest
    {
      hide Earlier;
      var least := EarliestId(byId, rest);
      ids := ids + [least];
      rest := rest - {least};
    }
  }

  method EarliestId(byId: map<string, Entry>, among: set<string>) returns (least: string)
    requires among != {} && among <= byId.Keys
    ensures least in among
    ensures forall id :: id in among && id != least ==> Earlier(byId[least].createdAt, least, byId[id].createdAt, id)
  {
    hide Earlier;
    least :| least in among;
    var rest := among - {least};
    while rest != {}
      invariant least in among && rest <= among && least !in rest
      invariant forall id :: id in among && id !in rest && id != least ==>
                  Earlier(byId[least].createdAt, least, byId[id].createdAt, id)
      decreases rest
    {
      var id :| id in rest;
      rest := rest - {id};
      EarlierTotal(byId[least].createdAt, least, byId[id].createdAt, id);
      if Earlier(byId[id].createdAt, id, byId[least].createdAt, least) {
        forall x | x in among && x !in rest && x != id
          ensures Earlier(byId[id].createdAt, id, byId[x].createdAt, x)
        {
          if x != least {
            EarlierTransitive(byId[id].createdAt, id, byId[least].createdAt, least, byId[x].createdAt, x);
          }
        }
        least := id;
      }
    }
  }

  lemma EarlierTotal(a: string, aId: string, b: string, bId: string)
    ensures aId == bId || Earlier(a, aId, b, bId) || Earlier(b, bId, a, aId)
  {
    hide Strings.Less;
    Strings.LessTotal(a, b);
    Strings.LessTotal(aId, bId);
  }

  lemma EarlierTransitive(a: string, aId: string, b: string, bId: string, c: string, cId: string)
    requires Earlier(a, aId, b, bId) && Earlier(b, bId, c, cId)
    ensures Earlier(a, aId, c, cId)
  {
    hide Strings.Less;
    if Strings.Less(a, b) && Strings.Less(b, c) {
      Strings.LessTransitive(a, b, c);
    }
    if Strings.Less(aId, bId) && Strings.Less(bId, cId) {
      Strings.LessTransitive(aId, bId, cId);
    }
  }

  /** The entries as matches, in the order of their ids; `order` names the videos they stand for. */
  method ToMatches(byId: map<string, Entry>, ids: seq<string>, ghost videos: seq<Video>)
    returns (matches: seq<Match>, ghost order: seq<Video>)
    requires forall id :: id in ids ==> id in byId && exists v :: v in videos && v.id == id
    ensures |matches| == |order| == |ids|
    ensures forall k :: 0 <= k < |ids| ==> order[k] in videos && order[k].id == ids[k]
    ensures forall k :: 0 <= k < |ids| ==> matches[k] == Match(byId[ids[k]].organizationId, ids[k], byId[ids[k]].position)
  {
    matches, order := [], [];
    for i := 0 to |ids|
      invariant |matches| == |order| == i
      invariant forall k :: 0 <= k < i ==> order[k] in videos && order[k].id == ids[k]
      invariant forall k :: 0 <= k < i ==> matches[k] == Match(byId[ids[k]].organizationId, ids[k], byId[ids[k]].position)
    {
      assert ids[i] in ids;
      ghost var v :| v in videos && v.id == ids[i];
      matches := matches + [Match(byId[ids[i]].organizationId, ids[i], byId[ids[i]].position)];
      order := order + [v];
    }
  }

  /** The hit a video should be. */
  ghost function HitFor(fold: Fold, query: string, transcripts: seq<Transcript>, v: Video): Match {
    Match(v.organizationId, v.id, Position(fold, query, transcripts, v))
  }

  /** Hits stand in the order of their videos. */
  ghost predicate HitsInOrder(videos: seq<Video>, hits: seq<Match>) {
    forall i, j, v, w | 0 <= i < j < |hits| && v in videos && w in videos && v.id == hits[i].id && w.id == hits[j].id ::
      Earlier(v.createdAt, v.id, w.createdAt, w.id)
  }

  lemma HitsAreInOrder(videos: seq<Video>, order: seq<Video>, hits: seq<Match>)
    requires DistinctIds(videos) && InOrder(order) && |hits| == |order|
    requires forall k :: 0 <= k < |hits| ==> order[k] in videos && hits[k].id == order[k].id
    ensures HitsInOrder(videos, hits)
  {
    hide Earlier;
  }

  /**
   * One hit for each video whose title or stored transcript text the query occurs
   * in, earliest first, with the position of the words where a segment says them.
   */
  method Query(fold: Fold, query: string, videos: seq<Video>, transcripts: seq<Transcript>) returns (hits: seq<Match>)
    requires DistinctIds(videos)
    ensures forall v :: v in videos && Found(fold, query, transcripts, v) ==> HitFor(fold, query, transcripts, v) in hits
    ensures forall m :: m in hits ==>
              exists v :: v in videos && Found(fold, query, transcripts, v) && m == HitFor(fold, query, transcripts, v)
    ensures HitsInOrder(videos, hits)
    ensures forall v :: v in videos ==>
              ((exists m :: m in hits && m.id == v.id && m.organizationId == v.organizationId) <==>
                 Occurs(fold, query, v.title) ||
                 exists t :: t in transcripts && t.videoId == v.id && Occurs(fold, query, StoredText(t.segments)))
  {
    hide Like, Earlier, Position, Found, Merged, TitleRows, TranscriptRows, HitsInOrder, Occurs, StoredText;
    var titles := TitleRows(fold, Needle(query), videos);
    var rows := TranscriptRows(fold, Needle(query), videos, transcripts);
    TitleRowsAre(fold, query, videos);
    RowsAreOfVideos(fold, Needle(query), videos, transcripts);
    var byId := Merge(fold, query, videos, titles, rows);
    EntriesAreFound(fold, query, videos, transcripts, byId);
    var ids := SortedIds(byId);
    ghost var order;
    hits, order := ToMatches(byId, ids, videos);
    HitsAreFor(fold, query, videos, transcripts, byId, ids, order, hits);
    HitsTell(fold, query, videos, transcripts, hits);
  }

  lemma HitsAreFor(fold: Fold, query: string, videos: seq<Video>, transcripts: seq<Transcript>, byId: map<string, Entry>,
                   ids: seq<string>, order: seq<Video>, hits: seq<Match>)
    requires DistinctIds(videos) && |hits| == |order| == |ids|
    requires forall v :: v in videos ==> (v.id in byId <==> Found(fold, query, transcripts, v))
    requires forall v :: v in videos && v.id in byId ==>
               byId[v.id] == Entry(v.organizationId, v.createdAt, Position(fold, query, transcripts, v))
    requires forall id :: id in ids <==> id in byId
    requires forall i, j :: 0 <= i < j < |ids| ==> Earlier(byId[ids[i]].createdAt, ids[i], byId[ids[j]].createdAt, ids[j])
    requires forall k :: 0 <= k < |ids| ==> order[k] in videos && order[k].id == ids[k]
    requires forall k :: 0 <= k < |ids| ==> hits[k] == Match(byId[ids[k]].organizationId, ids[k], byId[ids[k]].position)
    ensures forall v :: v in videos && Found(fold, query, transcripts, v) ==> HitFor(fold, query, transcripts, v) in hits
    ensures forall m :: m in hits ==>
              exists v :: v in videos && Found(fold, query, transcripts, v) && m == HitFor(fold, query, transcripts, v)
    ensures HitsInOrder(videos, hits)
  {
    hide Earlier, Position, Found, HitsInOrder;
    assert forall k :: 0 <= k < |ids| ==> ids[k] in ids;
    assert forall k :: 0 <= k < |ids| ==>
        byId[ids[k]] == Entry(order[k].organizationId, order[k].createdAt, Position(fold, query, transcripts, order[k]));
    assert InOrder(order);
    HitsAreInOrder(videos, order, hits);
    forall v | v in videos && Found(fold, query, transcripts, v)
      ensures HitFor(fold, query, transcripts, v) in hits
    {
      assert v.id in ids;
      var k :| 0 <= k < |ids| && ids[k] == v.id;
      assert order[k] == v && hits[k] == HitFor(fold, query, transcripts, v);
    }
    forall m | m in hits
      ensures exists v :: v in videos && Found(fold, query, transcripts, v) && m == HitFor(fold, query, transcripts, v)
    {
      var k :| 0 <= k < |hits| && hits[k] == m;
      assert m == HitFor(fold, query, transcripts, order[k]) && Found(fold, query, transcripts, order[k]);
    }
  }

  lemma HitsTell(fold: Fold, query: string, videos: seq<Video>, transcripts: seq<Transcript>, hits: seq<Match>)
    requires DistinctIds(videos)
    requires forall v :: v in videos && Found(fold, query, transcripts, v) ==> HitFor(fold, query, transcripts, v) in hits
    requires forall m :: m in hits ==>
               exists v :: v in videos && Found(fold, query, transcripts, v) && m == HitFor(fold, query, transcripts, v)
    ensures forall v :: v in videos ==>
              ((exists m :: m in hits && m.id == v.id && m.organizationId == v.organizationId) <==>
                 Occurs(fold, query, v.title) ||
                 exists t :: t in transcripts && t.videoId == v.id && Occurs(fold, query, StoredText(t.segments)))
  {
    hide Occurs, Position, StoredText;
    forall v | v in videos
      ensures (exists m :: m in hits && m.id == v.id && m.organizationId == v.organizationId) <==>
              Found(fold, query, transcripts, v)
    {
      if m :| m in hits && m.id == v.id && m.organizationId == v.organizationId {
        var w :| w in videos && Found(fold, query, transcripts, w) && m == HitFor(fold, query, transcripts, w);
        assert w == v;
      }
      if Found(fold, query, transcripts, v) {
        assert HitFor(fold, query, transcripts, v).id == v.id;
      }
    }
  }

  lemma {:induction false} RowsAreOfVideos(fold: Fold, needle: string, videos: seq<Video>, transcripts: seq<Transcript>)
    ensures forall r :: r in TranscriptRows(fold, needle, videos, transcripts) ==> r.video in videos
    decreases |transcripts|
  {
    if transcripts != [] {
      RowsAreOfVideos(fold, needle, videos, Front(transcripts));
      VideoWithFinds(videos, Last(transcripts).videoId);
    }
  }

  lemma EntriesAreFound(fold: Fold, query: string, videos: seq<Video>, transcripts: seq<Transcript>, byId: map<string, Entry>)
    requires DistinctIds(videos)
    requires Merged(fold, query, videos, TitleRows(fold, Needle(query), videos),
                    TranscriptRows(fold, Needle(query), videos, transcripts), byId)
    ensures forall v :: v in videos ==> (v.id in byId <==> Found(fold, query, transcripts, v))
    ensures forall id :: id in byId ==> exists v :: v in videos && v.id == id
    ensures forall v :: v in videos && v.id in byId ==>
              byId[v.id] == Entry(v.organizationId, v.createdAt, Position(fold, query, transcripts, v))
  {
    hide Like, Mentions, Position, PositionInRows, InRows, TitleRows, TranscriptRows;
    TitleRowsAre(fold, query, videos);
    forall v | v in videos
      ensures v.id in byId <==> Found(fold, query, transcripts, v)
      ensures v.id in byId ==>
                byId[v.id] == Entry(v.organizationId, v.createdAt, Position(fold, query, transcripts, v))
    {
      RowsTellTranscripts(fold, query, videos, transcripts, v);
    }
  }

  // ------------------------------------------------------- what hits mean

  lemma {:induction false} SaidHasStart(fold: Fold, query: string, segments: seq<Segment>)
    ensures FirstSaid(fold, query, segments).Some? <==> TranscriptWords.Said(fold, query, segments)
  {
    hide Occurs;
    if segments != [] {
      var text, rest := segments[0].text, segments[1..];
      SaidHasStart(fold, query, rest);
      IncludesAgreesWithLike(fold, query, text);
      NeedleMatchesOccurrences(fold, query, text);
      assert forall i :: 0 <= i < |segments| ==> segments[i] == if i == 0 then segments[0] else rest[i - 1];
      assert forall i :: 0 <= i < |rest| ==> rest[i] == segments[i + 1];
    }
  }

  lemma {:induction false} MentionHasPosition(fold: Fold, query: string, transcripts: seq<Transcript>, t: Transcript, v: Video)
    requires t in transcripts && Mentions(fold, query, t, v) && FirstSaid(fold, query, t.segments).Some?
    ensures Position(fold, query, transcripts, v).Some?
    decreases |transcripts|
  {
    hide Mentions, FirstSaid;
    var before := Front(transcripts);
    assert transcripts == before + [Last(transcripts)];
    if t in before {
      MentionHasPosition(fold, query, before, t, v);
    }
  }

  /** A video in which words are said that escaping keeps is found, with a position to play from. */
  lemma SaidIsHit(fold: Fold, query: string, transcripts: seq<Transcript>, t: Transcript, v: Video)
    requires TranscriptWords.Ordinary(fold) && TranscriptWords.EscapingKeeps(query)
    requires t in transcripts && t.videoId == v.id && TranscriptWords.Said(fold, query, t.segments)
    ensures Found(fold, query, transcripts, v) && Position(fold, query, transcripts, v).Some?
  {
    hide TranscriptWords.Ordinary, TranscriptWords.EscapingKeeps, TranscriptWords.Said, Occurs, StoredText;
    TranscriptWords.SaidIsFound(fold, query, t.segments);
    SaidHasStart(fold, query, t.segments);
    MentionHasPosition(fold, query, transcripts, t, v);
  }

  /** The video is found, and neither its title nor any of its segments says the query. */
  ghost predicate FalseHit(fold: Fold, query: string, transcripts: seq<Transcript>, v: Video) {
    && Found(fold, query, transcripts, v) && !Occurs(fold, query, v.title)
    && forall t :: t in transcripts && t.videoId == v.id ==> !TranscriptWords.Said(fold, query, t.segments)
  }

  /** Exactly the queries that read as a stretch of stored punctuation or escapes find some video that says nothing of them. */
  lemma FalseHitIff(fold: Fold, query: string)
    requires TranscriptWords.Ordinary(fold) && query != ""
    ensures (exists transcripts, v :: FalseHit(fold, query, transcripts, v)) <==> UnsaidHits.ReadsUnsaid(fold, query)
  {
    hide TranscriptWords.Ordinary, TranscriptWords.Said, StoredText, UnsaidHits.ReadsUnsaid, Occurs;
    UnsaidHits.FoundUnsaidIff(fold, query);
    if transcripts: seq<Transcript>, v: Video :| FalseHit(fold, query, transcripts, v) {
      var t :| t in transcripts && Mentions(fold, query, t, v);
      assert TranscriptWords.Found(fold, query, t.segments);
    }
    if UnsaidHits.FoundUnsaid(fold, query) {
      var segments :| TranscriptWords.Found(fold, query, segments) && !TranscriptWords.Said(fold, query, segments);
      var t, v := Transcript("v", segments), Video("v", "o", "", "");
      UnsaidHits.LongerIsNotIn(fold, query, "");
      assert Mentions(fold, query, t, v) && t in [t];
      assert FalseHit(fold, query, [t], v);
    }
  }
}
