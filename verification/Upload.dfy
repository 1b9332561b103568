/**
 * Resumable uploads: sessions of ordered chunks, bounded integrity retries, idle
 * expiry, and the assembly of the acknowledged chunks into one media object.
 * A session's history records what its client was told; the stored records, the
 * chunk objects and the retry counts are proved to agree with it.
 */
module Upload {
  import opened Common
  import opened Strings

  type Id = string

  const ONE_MEBIBYTE := 1024 * 1024
  const MIN_CHUNK_BYTES := ONE_MEBIBYTE
  const MAX_CHUNK_BYTES := 100 * ONE_MEBIBYTE
  const UPLOAD_SESSION_LIFETIME_MS := 24 * 60 * 60 * 1000
  const MAX_CHUNK_INTEGRITY_ATTEMPTS := 3

  datatype Status = Open | Completed | Aborted | Expired

  datatype Session = Session(
    id: Id, organizationId: Id, videoId: Id, totalChunks: int, ackedChunks: int,
    lastAckAt: Option<int>, expiresAt: int, status: Status)

  datatype VideoStatus = Uploading | Queued | Other(name: string)

  datatype Video = Video(id: Id, organizationId: Id, sourceObjectKey: Option<string>, status: VideoStatus)

  datatype Chunk = Chunk(index: int, sizeBytes: int, data: Bytes, checksum: string)

  datatype ChunkAck = ChunkAck(
    sessionId: Id, index: int, acknowledged: int, total: int, alreadyAcknowledged: bool)

  datatype Error =
    | NotFound
    | ValidationFailed
    | ChunkSizeInvalid
    | ChunkInvalid(attempts: nat)
    | UploadFailed
    | SessionExpired
    | Conflict

  // ------------------------------------------------------------------ history

  /** What happened to one session, as far as its client can tell. */
  datatype Event =
    | Created(at: int)
    | Acknowledged(at: int, data: Bytes)
    | Rejected
    | Restarted

  /** The payloads acknowledged so far, in order. */
  function Payloads(h: seq<Event>): seq<Bytes> {
    if h == [] then []
    else
      var last := h[|h| - 1];
      Payloads(h[..|h| - 1]) + if last.Acknowledged? then [last.data] else []
  }

  /** The integrity failures since the session last advanced, or since the process last started. */
  function Strikes(h: seq<Event>): nat {
    if h == [] || !h[|h| - 1].Rejected? then 0 else 1 + Strikes(h[..|h| - 1])
  }

  /** The last acknowledgement, or the creation when there is none. */
  function LastActivity(h: seq<Event>): int {
    if h == [] then 0
    else
      match h[|h| - 1]
      case Created(at) => at
      case Acknowledged(at, _) => at
      case _ => LastActivity(h[..|h| - 1])
  }

  lemma HistoryGrows(h: seq<Event>, e: Event)
    ensures Payloads(h + [e]) == Payloads(h) + if e.Acknowledged? then [e.data] else []
    ensures Strikes(h + [e]) == if e.Rejected? then Strikes(h) + 1 else 0
    ensures LastActivity(h + [e]) == if e.Created? || e.Acknowledged? then e.at else LastActivity(h)
  {
    assert (h + [e])[..|h|] == h;
  }

  function Concat(parts: seq<Bytes>): Bytes {
    if parts == [] then [] else Concat(parts[..|parts| - 1]) + parts[|parts| - 1]
  }

  function TotalLength(parts: seq<Bytes>): nat {
    if parts == [] then 0 else |parts[0]| + TotalLength(parts[1..])
  }

  lemma {:induction false} LengthOfConcat(parts: seq<Bytes>)
    ensures |Concat(parts)| == TotalLength(parts)
    decreases |parts|
  {
    if parts != [] {
      var front, last := parts[..|parts| - 1], parts[|parts| - 1];
      LengthOfConcat(front);
      TotalLengthSnoc(front, last);
      assert parts == front + [last];
    }
  }

  lemma {:induction false} TotalLengthSnoc(front: seq<Bytes>, last: Bytes)
    ensures TotalLength(front + [last]) == TotalLength(front) + |last|
    decreases |front|
  {
    if front == [] {
      assert ([] + [last])[1..] == [];
    } else {
      assert (front + [last])[1..] == front[1..] + [last];
      TotalLengthSnoc(front[1..], last);
    }
  }

  /** Each part stands in the concatenation behind as many bytes as the parts before it have together. */
  lemma {:induction false} ConcatPlaces(parts: seq<Bytes>, i: nat)
    requires i < |parts|
    ensures var from := TotalLength(parts[..i]);
            from + |parts[i]| <= |Concat(parts)| == TotalLength(parts) && Concat(parts)[from..from + |parts[i]|] == parts[i]
    decreases |parts|
  {
    var front, last := parts[..|parts| - 1], parts[|parts| - 1];
    LengthOfConcat(parts);
    LengthOfConcat(front);
    if i < |front| {
      ConcatPlaces(front, i);
      assert front[..i] == parts[..i] && front[i] == parts[i];
      var from := TotalLength(parts[..i]);
      assert Concat(parts)[from..from + |parts[i]|] == Concat(front)[from..from + |parts[i]|];
    } else {
      assert parts[..i] == front;
    }
  }

  // --------------------------------------------------------------------- keys

  function ChunkKey(prefix: string, sid: Id, index: nat): string {
    prefix + "/" + sid + "/chunks/" + Decimal(index)
  }

  function SourceKey(prefix: string, sid: Id): string {
    prefix + "/" + sid + "/source"
  }

  function AttemptKey(sid: Id, index: nat): string {
    sid + ":" + Decimal(index)
  }

  /** Distinct chunks of whatever sessions are stored under distinct keys, even if ids contain slashes. */
  lemma ChunkKeysDistinct(prefix: string, s: Id, i: nat, t: Id, j: nat)
    ensures ChunkKey(prefix, s, i) == ChunkKey(prefix, t, j) <==> s == t && i == j
  {
    if ChunkKey(prefix, s, i) == ChunkKey(prefix, t, j) {
      DecimalRoundTrip(i);
      DecimalRoundTrip(j);
      var a, b := prefix + "/" + s + "/chunks", prefix + "/" + t + "/chunks";
      assert ChunkKey(prefix, s, i) == a + ['/'] + Decimal(i);
      assert ChunkKey(prefix, t, j) == b + ['/'] + Decimal(j);
      DigitsAfterSeparator(a, b, '/', Decimal(i), Decimal(j));
      DecimalInjective(i, j);
      assert s == a[|prefix| + 1..|a| - 7] && t == b[|prefix| + 1..|b| - 7];
    }
  }

  lemma SourceKeysDistinct(prefix: string, s: Id, t: Id, j: nat)
    ensures SourceKey(prefix, s) == SourceKey(prefix, t) <==> s == t
    ensures SourceKey(prefix, s) != ChunkKey(prefix, t, j)
  {
    var k, c := SourceKey(prefix, s), ChunkKey(prefix, t, j);
    DecimalRoundTrip(j);
    assert k[|k| - 1] == 'e' && IsDigit(c[|c| - 1]);
    assert s == k[|prefix| + 1..|k| - 7];
    assert t == SourceKey(prefix, t)[|prefix| + 1..|SourceKey(prefix, t)| - 7];
  }

  lemma AttemptKeysDistinct(s: Id, i: nat, t: Id, j: nat)
    ensures AttemptKey(s, i) == AttemptKey(t, j) <==> s == t && i == j
  {
    if AttemptKey(s, i) == AttemptKey(t, j) {
      DecimalRoundTrip(i);
      DecimalRoundTrip(j);
      DigitsAfterSeparator(s, t, ':', Decimal(i), Decimal(j));
      DecimalInjective(i, j);
    }
  }

  // ----------------------------------------------------------- the invariant

  type Objects = map<string, Bytes>

  /** The acknowledged chunks are stored under their keys. */
  ghost predicate ChunksStored(prefix: string, sid: Id, payloads: seq<Bytes>, objects: Objects) {
    forall i :: 0 <= i < |payloads| ==>
      ChunkKey(prefix, sid, i) in objects && objects[ChunkKey(prefix, sid, i)] == payloads[i]
  }

  /** A source object exists only once every chunk is acknowledged, and holds them in order. */
  ghost predicate SourceRight(prefix: string, s: Session, payloads: seq<Bytes>, objects: Objects) {
    SourceKey(prefix, s.id) in objects ==>
      |payloads| == s.totalChunks && objects[SourceKey(prefix, s.id)] == Concat(payloads)
  }

  /** The stored record agrees with the history. */
  ghost predicate RecordRight(sid: Id, s: Session, h: seq<Event>) {
    && s.id == sid
    && 0 <= s.ackedChunks <= s.totalChunks && 1 <= s.totalChunks
    && s.ackedChunks == |Payloads(h)|
    && s.expiresAt == LastActivity(h) + UPLOAD_SESSION_LIFETIME_MS
    && (s.status == Aborted <==> Strikes(h) == MAX_CHUNK_INTEGRITY_ATTEMPTS)
    && Strikes(h) <= MAX_CHUNK_INTEGRITY_ATTEMPTS
    && (s.status == Completed ==> s.ackedChunks == s.totalChunks)
    && (s.ackedChunks == s.totalChunks ==> Strikes(h) == 0)
  }

  /** A retry count exists only for the next expected chunk, and counts the strikes: one or two. */
  ghost predicate AttemptsRight(sid: Id, s: Session, h: seq<Event>, attempts: map<string, nat>) {
    && (forall i: nat | AttemptKey(sid, i) in attempts ::
          i == s.ackedChunks < s.totalChunks && attempts[AttemptKey(sid, i)] == Strikes(h) && 1 <= Strikes(h) <= 2)
    && (s.status == Open && Strikes(h) > 0 ==> s.ackedChunks >= 0 && AttemptKey(sid, s.ackedChunks) in attempts)
  }

  ghost predicate SessionRight(prefix: string, sid: Id, s: Session, h: seq<Event>,
                               objects: Objects, attempts: map<string, nat>)
  {
    && RecordRight(sid, s, h)
    && AttemptsRight(sid, s, h, attempts)
    && ChunksStored(prefix, sid, Payloads(h), objects)
    && SourceRight(prefix, s, Payloads(h), objects)
    && (s.status == Completed ==> SourceKey(prefix, sid) in objects)
  }

  ghost predicate AllRight(prefix: string, sessions: map<Id, Session>, history: map<Id, seq<Event>>,
                           objects: Objects, attempts: map<string, nat>)
  {
    sessions.Keys == history.Keys &&
    forall sid :: sid in sessions ==> SessionRight(prefix, sid, sessions[sid], history[sid], objects, attempts)
  }

  /** Source objects and retry counts belong to known sessions. */
  ghost predicate NoneStray(prefix: string, sids: set<Id>, objects: Objects, attempts: map<string, nat>) {
    && (forall sid :: SourceKey(prefix, sid) in objects ==> sid in sids)
    && (forall sid, i: nat :: AttemptKey(sid, i) in attempts ==> sid in sids)
  }

  ghost predicate Consistent(prefix: string, sessions: map<Id, Session>, history: map<Id, seq<Event>>,
                             objects: Objects, attempts: map<string, nat>)
  {
    && AllRight(prefix, sessions, history, objects, attempts)
    && NoneStray(prefix, sessions.Keys, objects, attempts)
  }

  /** The objects and retry counts of every other session are as they were. */
  ghost predicate OthersKept(prefix: string, sid: Id, objects: Objects, objects': Objects,
                             attempts: map<string, nat>, attempts': map<string, nat>)
  {
    && (forall t, i: nat {:trigger ChunkKey(prefix, t, i)} :: t != sid ==>
          SameAt(objects, objects', ChunkKey(prefix, t, i)))
    && (forall t {:trigger SourceKey(prefix, t)} :: t != sid ==> SameAt(objects, objects', SourceKey(prefix, t)))
    && (forall t, i: nat {:trigger AttemptKey(t, i)} :: t != sid ==>
          SameAt(attempts, attempts', AttemptKey(t, i)))
  }

  ghost predicate SameAt<V>(m: map<string, V>, m': map<string, V>, k: string) {
    (k in m <==> k in m') && (k in m ==> m[k] == m'[k])
  }

  lemma OtherSessionKept(prefix: string, sid: Id, t: Id, s: Session, h: seq<Event>,
                         objects: Objects, objects': Objects,
                         attempts: map<string, nat>, attempts': map<string, nat>)
    requires OthersKept(prefix, sid, objects, objects', attempts, attempts') && t != sid
    requires SessionRight(prefix, t, s, h, objects, attempts)
    ensures SessionRight(prefix, t, s, h, objects', attempts')
  {
    hide Payloads, Strikes, LastActivity, Concat, ChunkKey, SourceKey, AttemptKey;
    assert SameAt(objects, objects', SourceKey(prefix, t));
    forall i: nat
      ensures SameAt(objects, objects', ChunkKey(prefix, t, i))
      ensures SameAt(attempts, attempts', AttemptKey(t, i))
    {
    }
    if s.ackedChunks >= 0 {
      assert SameAt(attempts, attempts', AttemptKey(t, s.ackedChunks));
    }
  }

  lemma NoneStrayKept(prefix: string, sid: Id, sids: set<Id>, objects: Objects, objects': Objects,
                      attempts: map<string, nat>, attempts': map<string, nat>)
    requires NoneStray(prefix, sids, objects, attempts)
    requires OthersKept(prefix, sid, objects, objects', attempts, attempts')
    ensures NoneStray(prefix, sids + {sid}, objects', attempts')
  {
    hide ChunkKey, SourceKey, AttemptKey;
    forall t | SourceKey(prefix, t) in objects' && t != sid
      ensures t in sids
    {
      assert SameAt(objects, objects', SourceKey(prefix, t));
    }
    forall t, i: nat | AttemptKey(t, i) in attempts' && t != sid
      ensures t in sids
    {
      assert SameAt(attempts, attempts', AttemptKey(t, i));
    }
  }

  lemma AllRightKept(prefix: string, sid: Id, s: Session, h: seq<Event>,
                     sessions: map<Id, Session>, history: map<Id, seq<Event>>,
                     objects: Objects, objects': Objects,
                     attempts: map<string, nat>, attempts': map<string, nat>)
    requires AllRight(prefix, sessions, history, objects, attempts)
    requires OthersKept(prefix, sid, objects, objects', attempts, attempts')
    requires SessionRight(prefix, sid, s, h, objects', attempts')
    ensures AllRight(prefix, sessions[sid := s], history[sid := h], objects', attempts')
  {
    hide SessionRight, OthersKept, RecordRight, AttemptsRight, ChunksStored, SourceRight;
    var sessions', history' := sessions[sid := s], history[sid := h];
    forall t | t in sessions'
      ensures SessionRight(prefix, t, sessions'[t], history'[t], objects', attempts')
    {
      if t != sid {
        OtherSessionKept(prefix, sid, t, sessions[t], history[t], objects, objects', attempts, attempts');
      }
    }
  }

  /** One session changed rightly and the others were left alone: the whole store is right. */
  lemma OneSessionChanged(prefix: string, sid: Id, s: Session, h: seq<Event>,
                          sessions: map<Id, Session>, history: map<Id, seq<Event>>,
                          objects: Objects, objects': Objects,
                          attempts: map<string, nat>, attempts': map<string, nat>)
    requires Consistent(prefix, sessions, history, objects, attempts)
    ensures OthersKept(prefix, sid, objects, objects', attempts, attempts') &&
            SessionRight(prefix, sid, s, h, objects', attempts') ==>
            Consistent(prefix, sessions[sid := s], history[sid := h], objects', attempts')
  {
    hide AllRight, NoneStray, OthersKept, SessionRight;
    if OthersKept(prefix, sid, objects, objects', attempts, attempts') && SessionRight(prefix, sid, s, h, objects', attempts') {
      AllRightKept(prefix, sid, s, h, sessions, history, objects, objects', attempts, attempts');
      NoneStrayKept(prefix, sid, sessions.Keys, objects, objects', attempts, attempts');
      assert sessions[sid := s].Keys == sessions.Keys + {sid};
    }
  }

  // -------------------------------------------------------------- the steps

  /** The stored records and objects, the retry counts held in memory, and what each client was told. */
  datatype World = World(
    sessions: map<Id, Session>, videos: map<(Id, Id), Video>, objects: Objects,
    attempts: map<string, nat>, history: map<Id, seq<Event>>)

  ghost predicate Right(prefix: string, w: World) {
    Consistent(prefix, w.sessions, w.history, w.objects, w.attempts)
  }

  predicate AcceptableChunkSize(sizeBytes: int) {
    MIN_CHUNK_BYTES <= sizeBytes <= MAX_CHUNK_BYTES
  }

  function Attempts(attempts: map<string, nat>, key: string): nat {
    if key in attempts then attempts[key] else 0
  }

  /** What is left to do with a request on a session: refuse it, expire the session, or go on. */
  datatype Admission = Refused(error: Error) | Expiring | Usable

  function Admit(s: Session, now: int): Admission {
    match s.status
    case Expired => Refused(SessionExpired)
    case Aborted => Refused(UploadFailed)
    case Completed => Refused(Conflict)
    case Open => if now >= s.expiresAt then Expiring else Usable
  }

  datatype Verdict = Wrong(error: Error) | Duplicate | Strike(count: nat) | Abort | Accept

  /** What becomes of a chunk for a usable session. */
  function Judge(s: Session, chunk: Chunk, verified: bool, attempts: map<string, nat>): Verdict
    requires 0 <= s.ackedChunks
  {
    if !AcceptableChunkSize(chunk.sizeBytes) then Wrong(ChunkSizeInvalid)
    else if chunk.index < s.ackedChunks then Duplicate
    else if chunk.index > s.ackedChunks || chunk.index >= s.totalChunks then Wrong(ValidationFailed)
    else if verified then Accept
    else
      var count := Attempts(attempts, AttemptKey(s.id, s.ackedChunks)) + 1;
      if count >= MAX_CHUNK_INTEGRITY_ATTEMPTS then Abort else Strike(count)
  }

  function AfterExpiry(w: World, sid: Id): World
    requires sid in w.sessions
  {
    w.(sessions := w.sessions[sid := w.sessions[sid].(status := Expired)])
  }

  function AfterStrike(w: World, sid: Id, count: nat): World
    requires sid in w.sessions && sid in w.history && 0 <= w.sessions[sid].ackedChunks
  {
    w.(attempts := w.attempts[AttemptKey(sid, w.sessions[sid].ackedChunks) := count],
       history := w.history[sid := w.history[sid] + [Rejected]])
  }

  function AfterAbort(w: World, sid: Id): World
    requires sid in w.sessions && sid in w.history && 0 <= w.sessions[sid].ackedChunks
  {
    w.(attempts := w.attempts - {AttemptKey(sid, w.sessions[sid].ackedChunks)},
       sessions := w.sessions[sid := w.sessions[sid].(status := Aborted)],
       history := w.history[sid := w.history[sid] + [Rejected]])
  }

  function AfterPersist(prefix: string, w: World, sid: Id, data: Bytes): World
    requires sid in w.sessions && 0 <= w.sessions[sid].ackedChunks
  {
    w.(objects := w.objects[ChunkKey(prefix, sid, w.sessions[sid].ackedChunks) := data])
  }

  function AfterAccept(prefix: string, w: World, sid: Id, data: Bytes, ackAt: int): World
    requires sid in w.sessions && sid in w.history && 0 <= w.sessions[sid].ackedChunks
  {
    var s := w.sessions[sid];
    AfterPersist(prefix, w, sid, data).(
      attempts := w.attempts - {AttemptKey(sid, s.ackedChunks)},
      sessions := w.sessions[sid := s.(
        ackedChunks := s.ackedChunks + 1, lastAckAt := Some(ackAt),
        expiresAt := ackAt + UPLOAD_SESSION_LIFETIME_MS)],
      history := w.history[sid := w.history[sid] + [Acknowledged(ackAt, data)]])
  }

  function AfterPut(prefix: string, w: World, sid: Id, chunk: Chunk, verified: bool, now: int, ackAt: int): World
    requires sid in w.sessions ==> sid in w.history && 0 <= w.sessions[sid].ackedChunks
  {
    if sid !in w.sessions then w
    else
      match Admit(w.sessions[sid], now)
      case Refused(_) => w
      case Expiring => AfterExpiry(w, sid)
      case Usable =>
        match Judge(w.sessions[sid], chunk, verified, w.attempts)
        case Wrong(_) => w
        case Duplicate => w
        case Strike(count) => AfterStrike(w, sid, count)
        case Abort => AfterAbort(w, sid)
        case Accept => AfterAccept(prefix, w, sid, chunk.data, ackAt)
  }

  /** The process stops: what it held in memory is gone, and the open sessions live on. */
  function AfterRestart(w: World): World
    requires w.sessions.Keys == w.history.Keys
  {
    w.(attempts := map[],
       history := map sid | sid in w.history ::
         if w.sessions[sid].status == Open then w.history[sid] + [Restarted] else w.history[sid])
  }

  /** The process stops after storing a chunk, before acknowledging it. */
  function AfterPutCrash(prefix: string, w: World, sid: Id, chunk: Chunk, verified: bool, now: int): World
    requires w.sessions.Keys == w.history.Keys
    requires sid in w.sessions ==> 0 <= w.sessions[sid].ackedChunks
  {
    if sid in w.sessions && Admit(w.sessions[sid], now).Usable?
       && Judge(w.sessions[sid], chunk, verified, w.attempts).Accept?
    then AfterRestart(AfterPersist(prefix, w, sid, chunk.data))
    else AfterRestart(w)
  }

  function AfterInit(w: World, newId: Id, organizationId: Id, videoId: Id, totalChunks: int, now: int): World {
    if totalChunks < 1 || (organizationId, videoId) !in w.videos || newId in w.sessions then w
    else
      w.(sessions := w.sessions[newId := Session(newId, organizationId, videoId, totalChunks, 0, None,
                                                 now + UPLOAD_SESSION_LIFETIME_MS, Open)],
         history := w.history[newId := [Created(now)]])
  }

  function AfterStatus(w: World, sid: Id, now: int): World {
    if sid in w.sessions && w.sessions[sid].status == Open && now >= w.sessions[sid].expiresAt
    then AfterExpiry(w, sid) else w
  }

  /** How far a completion gets: the assembly, the video record, and the session record. */
  datatype Progress = Assembled | VideoRecorded | Done

  /** A completion can go ahead: the session is usable, all chunks are there, and so is the video. */
  predicate CanComplete(w: World, sid: Id, now: int) {
    && sid in w.sessions
    && Admit(w.sessions[sid], now).Usable?
    && w.sessions[sid].ackedChunks >= w.sessions[sid].totalChunks
    && (w.sessions[sid].organizationId, w.sessions[sid].videoId) in w.videos
  }

  function AfterAssembly(prefix: string, w: World, sid: Id, source: Bytes, progress: Progress): World
    requires sid in w.sessions && (w.sessions[sid].organizationId, w.sessions[sid].videoId) in w.videos
  {
    var s := w.sessions[sid];
    var v := (s.organizationId, s.videoId);
    var recorded := w.videos[v].(sourceObjectKey := Some(SourceKey(prefix, sid)), status := Queued);
    w.(objects := w.objects[SourceKey(prefix, sid) := source],
       videos := if progress == Assembled then w.videos else w.videos[v := recorded],
       sessions := if progress == Done then w.sessions[sid := s.(status := Completed)] else w.sessions)
  }

  function AfterComplete(prefix: string, w: World, sid: Id, now: int, progress: Progress): World
    requires w.sessions.Keys == w.history.Keys
  {
    if CanComplete(w, sid, now) then
      AfterAssembly(prefix, w, sid, Concat(Payloads(w.history[sid])), progress)
    else if sid in w.sessions && Admit(w.sessions[sid], now).Expiring? then AfterExpiry(w, sid)
    else w
  }

  // ------------------------------------------------------- every step is right

  lemma SessionsAreRight(prefix: string, w: World, sid: Id)
    requires Right(prefix, w) && sid in w.sessions
    ensures w.sessions.Keys == w.history.Keys
    ensures SessionRight(prefix, sid, w.sessions[sid], w.history[sid], w.objects, w.attempts)
  {
  }

  /** The retry count in memory is the number of strikes on record. */
  lemma CountIsStrikes(prefix: string, w: World, sid: Id)
    requires Right(prefix, w) && sid in w.sessions && w.sessions[sid].status == Open
    ensures 0 <= w.sessions[sid].ackedChunks
    ensures Attempts(w.attempts, AttemptKey(sid, w.sessions[sid].ackedChunks)) == Strikes(w.history[sid])
  {
    SessionsAreRight(prefix, w, sid);
  }

  lemma NothingElseChanged(prefix: string, sid: Id, objects: Objects, attempts: map<string, nat>)
    ensures OthersKept(prefix, sid, objects, objects, attempts, attempts)
  {
  }

  lemma OwnKeysChanged(prefix: string, sid: Id, i: nat, data: Bytes, count: nat,
                       objects: Objects, attempts: map<string, nat>)
    ensures OthersKept(prefix, sid, objects, objects[ChunkKey(prefix, sid, i) := data],
                       attempts, attempts - {AttemptKey(sid, i)})
    ensures OthersKept(prefix, sid, objects, objects[ChunkKey(prefix, sid, i) := data], attempts, attempts)
    ensures OthersKept(prefix, sid, objects, objects, attempts, attempts - {AttemptKey(sid, i)})
    ensures OthersKept(prefix, sid, objects, objects, attempts, attempts[AttemptKey(sid, i) := count])
    ensures OthersKept(prefix, sid, objects, objects[SourceKey(prefix, sid) := data], attempts, attempts)
  {
    hide ChunkKey, SourceKey, AttemptKey;
    forall t, j: nat | t != sid
      ensures ChunkKey(prefix, t, j) != ChunkKey(prefix, sid, i)
      ensures ChunkKey(prefix, t, j) != SourceKey(prefix, sid)
      ensures AttemptKey(t, j) != AttemptKey(sid, i)
    {
      ChunkKeysDistinct(prefix, t, j, sid, i);
      SourceKeysDistinct(prefix, sid, t, j);
      AttemptKeysDistinct(t, j, sid, i);
    }
    forall t | t != sid
      ensures SourceKey(prefix, t) != ChunkKey(prefix, sid, i)
      ensures SourceKey(prefix, t) != SourceKey(prefix, sid)
    {
      SourceKeysDistinct(prefix, t, sid, i);
    }
  }

  lemma ExpiryIsRight(prefix: string, w: World, sid: Id)
    requires Right(prefix, w) && sid in w.sessions && w.sessions[sid].status == Open
    ensures Right(prefix, AfterExpiry(w, sid))
  {
    hide Consistent, OthersKept;
    SessionsAreRight(prefix, w, sid);
    NothingElseChanged(prefix, sid, w.objects, w.attempts);
    OneSessionChanged(prefix, sid, w.sessions[sid].(status := Expired), w.history[sid],
                      w.sessions, w.history, w.objects, w.objects, w.attempts, w.attempts);
    assert w.history[sid := w.history[sid]] == w.history;
  }

  lemma StrikeOnSession(prefix: string, sid: Id, s: Session, h: seq<Event>, objects: Objects,
                        attempts: map<string, nat>)
    requires SessionRight(prefix, sid, s, h, objects, attempts)
    requires s.status == Open && s.ackedChunks < s.totalChunks && Strikes(h) < 2
    ensures SessionRight(prefix, sid, s, h + [Rejected], objects,
                         attempts[AttemptKey(sid, s.ackedChunks) := Strikes(h) + 1])
  {
    hide AttemptKey, ChunkKey, SourceKey, Payloads, Strikes, LastActivity, Concat;
    HistoryGrows(h, Rejected);
    assert Payloads(h) + [] == Payloads(h);
    forall i: nat
      ensures AttemptKey(sid, i) == AttemptKey(sid, s.ackedChunks) <==> i == s.ackedChunks
    {
      AttemptKeysDistinct(sid, i, sid, s.ackedChunks);
    }
  }

  lemma AbortOnSession(prefix: string, sid: Id, s: Session, h: seq<Event>, objects: Objects,
                       attempts: map<string, nat>)
    requires SessionRight(prefix, sid, s, h, objects, attempts)
    requires s.status == Open && s.ackedChunks < s.totalChunks && Strikes(h) == 2
    ensures SessionRight(prefix, sid, s.(status := Aborted), h + [Rejected], objects,
                         attempts - {AttemptKey(sid, s.ackedChunks)})
  {
    hide AttemptKey, ChunkKey, SourceKey, Payloads, Strikes, LastActivity, Concat;
    HistoryGrows(h, Rejected);
    assert Payloads(h) + [] == Payloads(h);
  }

  lemma AcceptOnSession(prefix: string, sid: Id, s: Session, h: seq<Event>, objects: Objects,
                        attempts: map<string, nat>, data: Bytes, ackAt: int)
    requires SessionRight(prefix, sid, s, h, objects, attempts)
    requires s.status == Open && s.ackedChunks < s.totalChunks
    ensures SessionRight(prefix, sid,
              s.(ackedChunks := s.ackedChunks + 1, lastAckAt := Some(ackAt),
                 expiresAt := ackAt + UPLOAD_SESSION_LIFETIME_MS),
              h + [Acknowledged(ackAt, data)],
              objects[ChunkKey(prefix, sid, s.ackedChunks) := data],
              attempts - {AttemptKey(sid, s.ackedChunks)})
  {
    hide AttemptKey, ChunkKey, SourceKey, Payloads, Strikes, LastActivity, Concat;
    HistoryGrows(h, Acknowledged(ackAt, data));
    SourceKeysDistinct(prefix, sid, sid, s.ackedChunks);
    forall i: nat | i < s.ackedChunks
      ensures ChunkKey(prefix, sid, i) != ChunkKey(prefix, sid, s.ackedChunks)
    {
      ChunkKeysDistinct(prefix, sid, i, sid, s.ackedChunks);
    }
  }

  lemma PersistOnSession(prefix: string, sid: Id, s: Session, h: seq<Event>, objects: Objects,
                         attempts: map<string, nat>, data: Bytes)
    requires SessionRight(prefix, sid, s, h, objects, attempts)
    ensures SessionRight(prefix, sid, s, h, objects[ChunkKey(prefix, sid, s.ackedChunks) := data], attempts)
  {
    hide AttemptKey, ChunkKey, SourceKey, Payloads, Strikes, LastActivity, Concat;
    SourceKeysDistinct(prefix, sid, sid, s.ackedChunks);
    forall i: nat | i < s.ackedChunks
      ensures ChunkKey(prefix, sid, i) != ChunkKey(prefix, sid, s.ackedChunks)
    {
      ChunkKeysDistinct(prefix, sid, i, sid, s.ackedChunks);
    }
  }

  lemma AssembleOnSession(prefix: string, sid: Id, s: Session, h: seq<Event>, objects: Objects,
                          attempts: map<string, nat>, done: bool)
    requires SessionRight(prefix, sid, s, h, objects, attempts)
    requires s.status == Open && s.ackedChunks == s.totalChunks
    ensures SessionRight(prefix, sid, if done then s.(status := Completed) else s, h,
                         objects[SourceKey(prefix, sid) := Concat(Payloads(h))], attempts)
  {
    hide AttemptKey, ChunkKey, SourceKey, Payloads, Strikes, LastActivity, Concat;
    forall i: nat
      ensures ChunkKey(prefix, sid, i) != SourceKey(prefix, sid)
    {
      SourceKeysDistinct(prefix, sid, sid, i);
    }
  }

  lemma RestartOnSession(prefix: string, sid: Id, s: Session, h: seq<Event>, objects: Objects,
                         attempts: map<string, nat>)
    requires SessionRight(prefix, sid, s, h, objects, attempts)
    ensures SessionRight(prefix, sid, s, if s.status == Open then h + [Restarted] else h, objects, map[])
  {
    hide AttemptKey, ChunkKey, SourceKey, Payloads, Strikes, LastActivity, Concat;
    HistoryGrows(h, Restarted);
    assert Payloads(h) + [] == Payloads(h);
  }

  lemma NewSessionIsRight(prefix: string, sid: Id, s: Session, now: int, objects: Objects, attempts: map<string, nat>)
    requires s.id == sid && s.totalChunks >= 1 && s.ackedChunks == 0 && s.status == Open
    requires s.expiresAt == now + UPLOAD_SESSION_LIFETIME_MS
    requires SourceKey(prefix, sid) !in objects && forall i: nat :: AttemptKey(sid, i) !in attempts
    ensures SessionRight(prefix, sid, s, [Created(now)], objects, attempts)
  {
    hide AttemptKey, ChunkKey, SourceKey, Payloads, Strikes, LastActivity, Concat;
    HistoryGrows([], Created(now));
    assert [] + [Created(now)] == [Created(now)];
    EmptyHistory();
  }

  lemma EmptyHistory()
    ensures Payloads([]) == [] && Strikes([]) == 0
  {
  }

  lemma PutIsRight(prefix: string, w: World, sid: Id, chunk: Chunk, verified: bool, now: int, ackAt: int)
    requires Right(prefix, w)
    ensures sid in w.sessions ==> sid in w.history && 0 <= w.sessions[sid].ackedChunks
    ensures Right(prefix, AfterPut(prefix, w, sid, chunk, verified, now, ackAt))
  {
    if sid in w.sessions {
      SessionsAreRight(prefix, w, sid);
      hide SessionRight, Consistent, OthersKept, Judge;
      var s, h := w.sessions[sid], w.history[sid];
      RecordsAreRight(prefix, sid, s, h, w.objects, w.attempts);
      if Admit(s, now).Expiring? {
        ExpiryIsRight(prefix, w, sid);
      } else if Admit(s, now).Usable? {
        UsablePutIsRight(prefix, w, sid, chunk, verified, now, ackAt);
      }
    }
  }

  lemma RecordsAreRight(prefix: string, sid: Id, s: Session, h: seq<Event>, objects: Objects, attempts: map<string, nat>)
    requires SessionRight(prefix, sid, s, h, objects, attempts)
    ensures RecordRight(sid, s, h)
  {
  }

  lemma UsablePutIsRight(prefix: string, w: World, sid: Id, chunk: Chunk, verified: bool, now: int, ackAt: int)
    requires Right(prefix, w) && sid in w.sessions && sid in w.history && 0 <= w.sessions[sid].ackedChunks
    requires Admit(w.sessions[sid], now).Usable?
    ensures Right(prefix, AfterPut(prefix, w, sid, chunk, verified, now, ackAt))
  {
    hide SessionRight, Consistent, OthersKept, Payloads, Strikes, LastActivity, AttemptKey, ChunkKey, SourceKey;
    SessionsAreRight(prefix, w, sid);
    var s, h := w.sessions[sid], w.history[sid];
    var i := s.ackedChunks;
    RecordsAreRight(prefix, sid, s, h, w.objects, w.attempts);
    CountIsStrikes(prefix, w, sid);
    match Judge(s, chunk, verified, w.attempts)
    case Wrong(_) =>
    case Duplicate =>
    case Strike(count) =>
      StrikeOnSession(prefix, sid, s, h, w.objects, w.attempts);
      OwnKeysChanged(prefix, sid, i, [], count, w.objects, w.attempts);
      OneSessionChanged(prefix, sid, s, h + [Rejected], w.sessions, w.history,
                        w.objects, w.objects, w.attempts, w.attempts[AttemptKey(sid, i) := count]);
      assert w.sessions[sid := s] == w.sessions;
    case Abort =>
      AbortOnSession(prefix, sid, s, h, w.objects, w.attempts);
      OwnKeysChanged(prefix, sid, i, [], 0, w.objects, w.attempts);
      OneSessionChanged(prefix, sid, s.(status := Aborted), h + [Rejected], w.sessions, w.history,
                        w.objects, w.objects, w.attempts, w.attempts - {AttemptKey(sid, i)});
    case Accept =>
      AcceptOnSession(prefix, sid, s, h, w.objects, w.attempts, chunk.data, ackAt);
      OwnKeysChanged(prefix, sid, i, chunk.data, 0, w.objects, w.attempts);
      OneSessionChanged(prefix, sid,
                        s.(ackedChunks := i + 1, lastAckAt := Some(ackAt),
                           expiresAt := ackAt + UPLOAD_SESSION_LIFETIME_MS),
                        h + [Acknowledged(ackAt, chunk.data)], w.sessions, w.history,
                        w.objects, w.objects[ChunkKey(prefix, sid, i) := chunk.data],
                        w.attempts, w.attempts - {AttemptKey(sid, i)});
  }

  lemma PersistIsRight(prefix: string, w: World, sid: Id, data: Bytes)
    requires Right(prefix, w) && sid in w.sessions
    ensures 0 <= w.sessions[sid].ackedChunks && Right(prefix, AfterPersist(prefix, w, sid, data))
  {
    hide SessionRight, Consistent, OthersKept;
    SessionsAreRight(prefix, w, sid);
    var s, h := w.sessions[sid], w.history[sid];
    RecordsAreRight(prefix, sid, s, h, w.objects, w.attempts);
    PersistOnSession(prefix, sid, s, h, w.objects, w.attempts, data);
    OwnKeysChanged(prefix, sid, s.ackedChunks, data, 0, w.objects, w.attempts);
    OneSessionChanged(prefix, sid, s, h, w.sessions, w.history, w.objects,
                      w.objects[ChunkKey(prefix, sid, s.ackedChunks) := data], w.attempts, w.attempts);
    assert w.sessions[sid := s] == w.sessions && w.history[sid := h] == w.history;
  }

  lemma RestartIsRight(prefix: string, w: World)
    requires Right(prefix, w)
    ensures Right(prefix, AfterRestart(w))
  {
    hide SessionRight, ChunkKey, SourceKey, AttemptKey;
    var r := AfterRestart(w);
    forall sid | sid in r.sessions
      ensures SessionRight(prefix, sid, r.sessions[sid], r.history[sid], r.objects, r.attempts)
    {
      SessionsAreRight(prefix, w, sid);
      RestartOnSession(prefix, sid, w.sessions[sid], w.history[sid], w.objects, w.attempts);
    }
  }

  lemma InitIsRight(prefix: string, w: World, newId: Id, org: Id, video: Id, totalChunks: int, now: int)
    requires Right(prefix, w)
    ensures Right(prefix, AfterInit(w, newId, org, video, totalChunks, now))
  {
    if totalChunks >= 1 && (org, video) in w.videos && newId !in w.sessions {
      var s := Session(newId, org, video, totalChunks, 0, None, now + UPLOAD_SESSION_LIFETIME_MS, Open);
      NewSessionIsRight(prefix, newId, s, now, w.objects, w.attempts);
      NothingElseChanged(prefix, newId, w.objects, w.attempts);
      hide SessionRight, Consistent, OthersKept;
      OneSessionChanged(prefix, newId, s, [Created(now)], w.sessions, w.history,
                        w.objects, w.objects, w.attempts, w.attempts);
    }
  }

  lemma AssemblyIsRight(prefix: string, w: World, sid: Id, now: int, progress: Progress)
    requires Right(prefix, w) && CanComplete(w, sid, now)
    ensures sid in w.history
    ensures Right(prefix, AfterAssembly(prefix, w, sid, Concat(Payloads(w.history[sid])), progress))
  {
    hide SessionRight, Consistent, OthersKept;
    SessionsAreRight(prefix, w, sid);
    var s, h := w.sessions[sid], w.history[sid];
    RecordsAreRight(prefix, sid, s, h, w.objects, w.attempts);
    AssembleOnSession(prefix, sid, s, h, w.objects, w.attempts, progress == Done);
    OwnKeysChanged(prefix, sid, 0, Concat(Payloads(h)), 0, w.objects, w.attempts);
    OneSessionChanged(prefix, sid, if progress == Done then s.(status := Completed) else s, h, w.sessions, w.history,
                      w.objects, w.objects[SourceKey(prefix, sid) := Concat(Payloads(h))], w.attempts, w.attempts);
    assert w.sessions[sid := s] == w.sessions && w.history[sid := h] == w.history;
  }

  // --------------------------------------------------------------------- runs

  datatype Command =
    | Init(newId: Id, organizationId: Id, videoId: Id, totalChunks: int, now: int)
    | Put(sid: Id, chunk: Chunk, verified: bool, now: int, ackAt: int)
    | PutThenCrash(sid: Id, chunk: Chunk, verified: bool, now: int)
    | AskStatus(sid: Id, now: int)
    | Complete(sid: Id, now: int)
    | CompleteThenCrash(sid: Id, now: int, reached: Progress)
    | Restart

  function Step(prefix: string, w: World, c: Command): World
    requires Right(prefix, w)
  {
    match c
    case Init(newId, org, video, total, now) => AfterInit(w, newId, org, video, total, now)
    case Put(sid, chunk, verified, now, ackAt) =>
      PutIsRight(prefix, w, sid, chunk, verified, now, ackAt);
      AfterPut(prefix, w, sid, chunk, verified, now, ackAt)
    case PutThenCrash(sid, chunk, verified, now) =>
      PutIsRight(prefix, w, sid, chunk, verified, now, 0);
      AfterPutCrash(prefix, w, sid, chunk, verified, now)
    case AskStatus(sid, now) => AfterStatus(w, sid, now)
    case Complete(sid, now) => AfterComplete(prefix, w, sid, now, Done)
    case CompleteThenCrash(sid, now, reached) =>
      AfterRestart(AfterComplete(prefix, w, sid, now, reached))
    case Restart => AfterRestart(w)
  }

  lemma StepIsRight(prefix: string, w: World, c: Command)
    requires Right(prefix, w)
    ensures Right(prefix, Step(prefix, w, c))
  {
    hide Consistent, AfterRestart, AfterPersist, AfterAssembly, AfterPut, Judge;
    match c
    case Init(newId, org, video, total, now) => InitIsRight(prefix, w, newId, org, video, total, now);
    case Put(sid, chunk, verified, now, ackAt) => PutIsRight(prefix, w, sid, chunk, verified, now, ackAt);
    case PutThenCrash(sid, chunk, verified, now) =>
      RestartIsRight(prefix, w);
      if sid in w.sessions {
        PersistIsRight(prefix, w, sid, chunk.data);
        RestartIsRight(prefix, AfterPersist(prefix, w, sid, chunk.data));
      }
    case AskStatus(sid, now) =>
      if sid in w.sessions && w.sessions[sid].status == Open {
        ExpiryIsRight(prefix, w, sid);
      }
    case Complete(sid, now) => CompleteIsRight(prefix, w, sid, now, Done);
    case CompleteThenCrash(sid, now, reached) =>
      CompleteIsRight(prefix, w, sid, now, reached);
      RestartIsRight(prefix, AfterComplete(prefix, w, sid, now, reached));
    case Restart => RestartIsRight(prefix, w);
  }

  lemma CompleteIsRight(prefix: string, w: World, sid: Id, now: int, progress: Progress)
    requires Right(prefix, w)
    ensures w.sessions.Keys == w.history.Keys
    ensures Right(prefix, AfterComplete(prefix, w, sid, now, progress))
  {
    if CanComplete(w, sid, now) {
      AssemblyIsRight(prefix, w, sid, now, progress);
    } else if sid in w.sessions && Admit(w.sessions[sid], now).Expiring? {
      ExpiryIsRight(prefix, w, sid);
    }
  }

  /** Nothing uploaded yet, whatever videos there are. */
  function Fresh(videos: map<(Id, Id), Video>): World {
    World(map[], videos, map[], map[], map[])
  }

  /** Every run, with retransmissions, corrupt chunks and crashes anywhere, keeps the store right. */
  function Run(prefix: string, w: World, cs: seq<Command>): (r: World)
    requires Right(prefix, w)
    ensures Right(prefix, r)
    decreases |cs|
  {
    if cs == [] then w
    else
      StepIsRight(prefix, w, cs[0]);
      Run(prefix, Step(prefix, w, cs[0]), cs[1..])
  }

  /**
   * Over every run: the source object of a completed session is the in-order
   * concatenation of exactly the payloads acknowledged for its chunks.
   */
  lemma CompletedSourceIsWhatWasAcknowledged(prefix: string, videos: map<(Id, Id), Video>, cs: seq<Command>, sid: Id)
    ensures Right(prefix, Fresh(videos))
    ensures var w := Run(prefix, Fresh(videos), cs);
            sid in w.sessions && w.sessions[sid].status == Completed ==>
              sid in w.history && |Payloads(w.history[sid])| == w.sessions[sid].totalChunks &&
              SourceKey(prefix, sid) in w.objects &&
              w.objects[SourceKey(prefix, sid)] == Concat(Payloads(w.history[sid]))
  {
    var w := Run(prefix, Fresh(videos), cs);
    if sid in w.sessions {
      SessionsAreRight(prefix, w, sid);
    }
  }

  /**
   * Over every run: a session is aborted exactly at its third integrity failure
   * in a row, its deadline is its last activity plus 24 hours, and a retry count
   * exists only for its next expected chunk and is the number of failures so far.
   */
  lemma SessionLifeOverRuns(prefix: string, videos: map<(Id, Id), Video>, cs: seq<Command>, sid: Id, i: nat)
    ensures Right(prefix, Fresh(videos))
    ensures var w := Run(prefix, Fresh(videos), cs);
            sid in w.sessions ==>
              sid in w.history && (w.sessions[sid].status == Aborted <==> Strikes(w.history[sid]) == 3) &&
              w.sessions[sid].expiresAt == LastActivity(w.history[sid]) + UPLOAD_SESSION_LIFETIME_MS &&
              0 <= w.sessions[sid].ackedChunks <= w.sessions[sid].totalChunks &&
              (AttemptKey(sid, i) in w.attempts ==>
                 i == w.sessions[sid].ackedChunks && 1 <= w.attempts[AttemptKey(sid, i)] == Strikes(w.history[sid]) <= 2)
  {
    var w := Run(prefix, Fresh(videos), cs);
    if sid in w.sessions {
      SessionsAreRight(prefix, w, sid);
    }
  }

  /** Whether the step may change the session: it is the one addressed, and it is open. */
  ghost predicate MayChange(w: World, sid: Id, t: Id) {
    t == sid && t in w.sessions && w.sessions[t].status == Open
  }

  /** The step changed no session but the one, and took no payload back. */
  ghost predicate OnlyIts(w: World, r: World, sid: Id, t: Id) {
    && t in w.sessions && t in w.history && t in r.sessions && t in r.history
    && (t != sid ==> r.sessions[t] == w.sessions[t] && r.history[t] == w.history[t])
    && Payloads(w.history[t]) <= Payloads(r.history[t])
  }

  lemma ExpiryOnlyIts(w: World, sid: Id, t: Id)
    requires sid in w.sessions && t in w.sessions && t in w.history
    ensures OnlyIts(w, AfterExpiry(w, sid), sid, t)
  {
    hide Payloads;
  }

  lemma StrikeOnlyIts(w: World, sid: Id, count: nat, t: Id)
    requires sid in w.sessions && sid in w.history && 0 <= w.sessions[sid].ackedChunks && t in w.sessions && t in w.history
    ensures OnlyIts(w, AfterStrike(w, sid, count), sid, t) && OnlyIts(w, AfterAbort(w, sid), sid, t)
  {
    hide Payloads, AttemptKey;
    HistoryGrows(w.history[t], Rejected);
  }

  lemma AcceptOnlyIts(prefix: string, w: World, sid: Id, data: Bytes, ackAt: int, t: Id)
    requires sid in w.sessions && sid in w.history && 0 <= w.sessions[sid].ackedChunks && t in w.sessions && t in w.history
    ensures OnlyIts(w, AfterAccept(prefix, w, sid, data, ackAt), sid, t)
  {
    hide Payloads, AttemptKey, ChunkKey;
    HistoryGrows(w.history[t], Acknowledged(ackAt, data));
  }

  lemma PutChangesOnlyIts(prefix: string, w: World, sid: Id, chunk: Chunk, verified: bool, now: int, ackAt: int, t: Id)
    requires Right(prefix, w) && t in w.sessions && t in w.history
    requires sid in w.sessions ==> sid in w.history && 0 <= w.sessions[sid].ackedChunks
    ensures var r := AfterPut(prefix, w, sid, chunk, verified, now, ackAt);
            t in r.sessions && t in r.history &&
            (!MayChange(w, sid, t) ==> r.sessions[t] == w.sessions[t] && r.history[t] == w.history[t]) &&
            Payloads(w.history[t]) <= Payloads(r.history[t])
  {
    hide Right, AttemptKey, ChunkKey, Payloads, AcceptableChunkSize, Judge, AfterExpiry, AfterStrike, AfterAbort, AfterAccept;
    if sid in w.sessions {
      ExpiryOnlyIts(w, sid, t);
      var judged := Judge(w.sessions[sid], chunk, verified, w.attempts);
      StrikeOnlyIts(w, sid, if judged.Strike? then judged.count else 0, t);
      AcceptOnlyIts(prefix, w, sid, chunk.data, ackAt, t);
    }
  }

  lemma RestartKeepsHistory(w: World, t: Id)
    requires w.sessions.Keys == w.history.Keys && t in w.sessions
    ensures var r := AfterRestart(w);
            t in r.history && r.sessions == w.sessions &&
            (w.sessions[t].status != Open ==> r.history[t] == w.history[t]) &&
            Payloads(w.history[t]) == Payloads(r.history[t])
  {
    hide Payloads;
    HistoryGrows(w.history[t], Restarted);
    assert Payloads(w.history[t]) + [] == Payloads(w.history[t]);
  }

  lemma CompleteChangesOnlyIts(prefix: string, w: World, sid: Id, now: int, progress: Progress, t: Id)
    requires w.sessions.Keys == w.history.Keys && t in w.sessions
    ensures var r := AfterComplete(prefix, w, sid, now, progress);
            t in r.sessions && r.history == w.history && r.sessions.Keys == w.sessions.Keys &&
            (!MayChange(w, sid, t) ==> r.sessions[t] == w.sessions[t])
  {
    hide Payloads, Concat, SourceKey;
  }

  /**
   * Completed, aborted and expired sessions are never left and their history is
   * closed; and no step takes an acknowledged payload back.
   */
  lemma EndedSessionsStay(prefix: string, w: World, c: Command, t: Id)
    requires Right(prefix, w) && t in w.sessions
    ensures var r := Step(prefix, w, c);
            t in r.sessions && t in w.history && t in r.history &&
            (w.sessions[t].status != Open ==> r.sessions[t] == w.sessions[t] && r.history[t] == w.history[t]) &&
            Payloads(w.history[t]) <= Payloads(r.history[t])
  {
    hide Consistent, SessionRight, AfterPut, AfterComplete, AfterRestart, Payloads, Judge, ChunkKey;
    SessionsAreRight(prefix, w, t);
    match c
    case Init(_, _, _, _, _) =>
    case Put(sid, chunk, verified, now, ackAt) =>
      PutIsRight(prefix, w, sid, chunk, verified, now, ackAt);
      PutChangesOnlyIts(prefix, w, sid, chunk, verified, now, ackAt, t);
    case PutThenCrash(sid, chunk, verified, now) =>
      RestartKeepsHistory(w, t);
      if sid in w.sessions {
        PersistIsRight(prefix, w, sid, chunk.data);
        RestartKeepsHistory(AfterPersist(prefix, w, sid, chunk.data), t);
      }
    case AskStatus(_, _) =>
    case Complete(sid, now) => CompleteChangesOnlyIts(prefix, w, sid, now, Done, t);
    case CompleteThenCrash(sid, now, reached) =>
      CompleteChangesOnlyIts(prefix, w, sid, now, reached, t);
      RestartKeepsHistory(AfterComplete(prefix, w, sid, now, reached), t);
    case Restart => RestartKeepsHistory(w, t);
  }

  /** The command is a request about the session. */
  predicate Addresses(c: Command, t: Id) {
    match c
    case Init(_, _, _, _, _) => false
    case Put(sid, _, _, _, _) => sid == t
    case PutThenCrash(sid, _, _, _) => sid == t
    case AskStatus(sid, _) => sid == t
    case Complete(sid, _) => sid == t
    case CompleteThenCrash(sid, _, _) => sid == t
    case Restart => false
  }

  lemma PutTouchesOwnObjects(prefix: string, w: World, sid: Id, chunk: Chunk, verified: bool, now: int, ackAt: int, t: Id, i: nat)
    requires Right(prefix, w) && sid != t
    requires sid in w.sessions ==> sid in w.history && 0 <= w.sessions[sid].ackedChunks
    ensures var r := AfterPut(prefix, w, sid, chunk, verified, now, ackAt);
            SameAt(w.objects, r.objects, ChunkKey(prefix, t, i)) && SameAt(w.objects, r.objects, SourceKey(prefix, t))
  {
    hide Consistent, ChunkKey, SourceKey, AttemptKey, Judge, Admit;
    if sid in w.sessions {
      OwnKeysChanged(prefix, sid, w.sessions[sid].ackedChunks, chunk.data, 0, w.objects, w.attempts);
    }
  }

  lemma CompleteTouchesOwnObjects(prefix: string, w: World, sid: Id, now: int, progress: Progress, t: Id, i: nat)
    requires w.sessions.Keys == w.history.Keys && sid != t
    ensures var r := AfterComplete(prefix, w, sid, now, progress);
            SameAt(w.objects, r.objects, ChunkKey(prefix, t, i)) && SameAt(w.objects, r.objects, SourceKey(prefix, t))
  {
    hide ChunkKey, SourceKey, AttemptKey, Payloads, Concat, Admit;
    if CanComplete(w, sid, now) {
      OwnKeysChanged(prefix, sid, 0, Concat(Payloads(w.history[sid])), 0, w.objects, w.attempts);
    }
  }

  /** No step touches an object of a session it is not about. */
  lemma OtherObjectsUntouched(prefix: string, w: World, c: Command, t: Id, i: nat)
    requires Right(prefix, w) && !Addresses(c, t)
    ensures var r := Step(prefix, w, c);
            SameAt(w.objects, r.objects, ChunkKey(prefix, t, i)) && SameAt(w.objects, r.objects, SourceKey(prefix, t))
  {
    hide Consistent, SessionRight, AfterPut, AfterComplete, Payloads, Judge, ChunkKey, SourceKey, AttemptKey, Admit;
    match c
    case Put(sid, chunk, verified, now, ackAt) =>
      if sid in w.sessions {
        SessionsAreRight(prefix, w, sid);
        CountedChunks(prefix, w, sid);
      }
      PutTouchesOwnObjects(prefix, w, sid, chunk, verified, now, ackAt, t, i);
    case PutThenCrash(sid, chunk, verified, now) =>
      if sid in w.sessions {
        CountedChunks(prefix, w, sid);
        OwnKeysChanged(prefix, sid, w.sessions[sid].ackedChunks, chunk.data, 0, w.objects, w.attempts);
      }
    case Complete(sid, now) =>
      SessionsAreKnown(prefix, w);
      CompleteTouchesOwnObjects(prefix, w, sid, now, Done, t, i);
    case CompleteThenCrash(sid, now, reached) =>
      SessionsAreKnown(prefix, w);
      CompleteTouchesOwnObjects(prefix, w, sid, now, reached, t, i);
    case _ =>
  }

  lemma SessionsAreKnown(prefix: string, w: World)
    requires Right(prefix, w)
    ensures w.sessions.Keys == w.history.Keys
  {
  }

  lemma CountedChunks(prefix: string, w: World, sid: Id)
    requires Right(prefix, w) && sid in w.sessions
    ensures w.sessions.Keys == w.history.Keys && 0 <= w.sessions[sid].ackedChunks
  {
    SessionsAreRight(prefix, w, sid);
  }

  // ------------------------------------------------- which chunks are taken in

  /**
   * What a chunk does to its session's history. It is the next one when the
   * session is open and before its deadline, the size is in the window, and the
   * index is the number of chunks acknowledged, below the total: verified, its
   * payload is acknowledged and stored under its key; not verified, it is one
   * strike more. Any other chunk leaves history and objects alone.
   */
  lemma PutTakesIn(prefix: string, w: World, sid: Id, chunk: Chunk, verified: bool, now: int, ackAt: int)
    requires Right(prefix, w) && sid in w.sessions
    ensures sid in w.history && sid in Step(prefix, w, Put(sid, chunk, verified, now, ackAt)).history
    ensures var s, r := w.sessions[sid], Step(prefix, w, Put(sid, chunk, verified, now, ackAt));
            if s.status == Open && now < s.expiresAt && MIN_CHUNK_BYTES <= chunk.sizeBytes <= MAX_CHUNK_BYTES &&
               0 <= chunk.index == s.ackedChunks < s.totalChunks
            then
              if verified then
                Payloads(r.history[sid]) == Payloads(w.history[sid]) + [chunk.data] && Strikes(r.history[sid]) == 0 &&
                r.objects == w.objects[ChunkKey(prefix, sid, chunk.index) := chunk.data]
              else
                Payloads(r.history[sid]) == Payloads(w.history[sid]) && r.objects == w.objects &&
                Strikes(r.history[sid]) == Strikes(w.history[sid]) + 1
            else r.history[sid] == w.history[sid] && r.objects == w.objects
  {
    hide Consistent, SessionRight, Payloads, Strikes, LastActivity, AttemptKey, ChunkKey;
    SessionsAreRight(prefix, w, sid);
    RecordsAreRight(prefix, sid, w.sessions[sid], w.history[sid], w.objects, w.attempts);
    HistoryGrows(w.history[sid], Acknowledged(ackAt, chunk.data));
    HistoryGrows(w.history[sid], Rejected);
    assert Payloads(w.history[sid]) + [] == Payloads(w.history[sid]);
  }

  /**
   * The chunks that a run takes in for a session: verified, of a size in the
   * window, and each the next one of the open session that it meets.
   */
  function TakenIn(prefix: string, w: World, cs: seq<Command>, sid: Id): seq<Chunk>
    requires Right(prefix, w)
    decreases |cs|
  {
    if cs == [] then []
    else
      StepIsRight(prefix, w, cs[0]);
      TakenFrom(w, cs[0], sid) + TakenIn(prefix, Step(prefix, w, cs[0]), cs[1..], sid)
  }

  function TakenFrom(w: World, c: Command, sid: Id): seq<Chunk> {
    if c.Put? && c.sid == sid && sid in w.sessions && c.verified &&
       w.sessions[sid].status == Open && c.now < w.sessions[sid].expiresAt &&
       MIN_CHUNK_BYTES <= c.chunk.sizeBytes <= MAX_CHUNK_BYTES &&
       0 <= c.chunk.index == w.sessions[sid].ackedChunks < w.sessions[sid].totalChunks
    then [c.chunk] else []
  }

  function Data(chunks: seq<Chunk>): (r: seq<Bytes>)
    ensures |r| == |chunks| && forall i :: 0 <= i < |r| ==> r[i] == chunks[i].data
  {
    if chunks == [] then [] else [chunks[0].data] + Data(chunks[1..])
  }

  /** The payloads acknowledged for a session, none for one that does not exist. */
  function PayloadsOf(w: World, sid: Id): seq<Bytes> {
    if sid in w.history then Payloads(w.history[sid]) else []
  }

  lemma StepTakesIn(prefix: string, w: World, c: Command, sid: Id)
    requires Right(prefix, w)
    ensures PayloadsOf(Step(prefix, w, c), sid) == PayloadsOf(w, sid) + Data(TakenFrom(w, c, sid))
    ensures TakenFrom(w, c, sid) != [] ==> TakenFrom(w, c, sid)[0].index == |PayloadsOf(w, sid)|
  {
    if c.Put? {
      PutStepTakesIn(prefix, w, c.sid, c.chunk, c.verified, c.now, c.ackAt, sid);
    } else {
      OtherStepsTakeNothing(prefix, w, c, sid);
      assert PayloadsOf(w, sid) + [] == PayloadsOf(w, sid);
    }
  }

  lemma PutStepTakesIn(prefix: string, w: World, t: Id, chunk: Chunk, verified: bool, now: int, ackAt: int, sid: Id)
    requires Right(prefix, w)
    ensures var c := Put(t, chunk, verified, now, ackAt);
            PayloadsOf(Step(prefix, w, c), sid) == PayloadsOf(w, sid) + Data(TakenFrom(w, c, sid)) &&
            (TakenFrom(w, c, sid) != [] ==> TakenFrom(w, c, sid)[0].index == |PayloadsOf(w, sid)|)
  {
    hide Right, AfterPut, Payloads, Strikes, LastActivity, ChunkKey, AttemptsRight, ChunksStored, SourceRight;
    PutIsRight(prefix, w, t, chunk, verified, now, ackAt);
    assert PayloadsOf(w, sid) + [] == PayloadsOf(w, sid);
    if t == sid && sid in w.sessions {
      SessionsAreRight(prefix, w, sid);
      PutTakesIn(prefix, w, sid, chunk, verified, now, ackAt);
    } else {
      PutKeepsOtherHistory(prefix, w, t, chunk, verified, now, ackAt, sid);
    }
  }

  lemma OtherStepsTakeNothing(prefix: string, w: World, c: Command, sid: Id)
    requires Right(prefix, w) && !c.Put?
    ensures PayloadsOf(Step(prefix, w, c), sid) == PayloadsOf(w, sid)
  {
    hide Right, AfterComplete, AfterRestart, AfterPersist, Payloads, Judge;
    SessionsAreKnown(prefix, w);
    match c
    case Init(newId, _, _, _, now) => NewHistoryIsEmpty(now);
    case PutThenCrash(t, chunk, verified, now) =>
      RestartKeepsPayloads(w, sid);
      if t in w.sessions {
        PersistIsRight(prefix, w, t, chunk.data);
        SessionsAreKnown(prefix, AfterPersist(prefix, w, t, chunk.data));
        PersistKeepsHistory(prefix, w, t, chunk.data);
        RestartKeepsPayloads(AfterPersist(prefix, w, t, chunk.data), sid);
      }
    case AskStatus(_, _) =>
    case Complete(t, now) => CompleteKeepsHistory(prefix, w, t, now, Done);
    case CompleteThenCrash(t, now, reached) =>
      CompleteKeepsHistory(prefix, w, t, now, reached);
      RestartKeepsPayloads(AfterComplete(prefix, w, t, now, reached), sid);
    case Restart => RestartKeepsPayloads(w, sid);
  }

  lemma NewHistoryIsEmpty(now: int)
    ensures Payloads([Created(now)]) == []
  {
  }

  lemma PersistKeepsHistory(prefix: string, w: World, sid: Id, data: Bytes)
    requires sid in w.sessions && 0 <= w.sessions[sid].ackedChunks
    ensures AfterPersist(prefix, w, sid, data).history == w.history
  {
  }

  lemma PutKeepsOtherHistory(prefix: string, w: World, sid: Id, chunk: Chunk, verified: bool, now: int, ackAt: int, t: Id)
    requires sid in w.sessions ==> sid in w.history && 0 <= w.sessions[sid].ackedChunks
    requires t != sid || sid !in w.sessions
    ensures PayloadsOf(AfterPut(prefix, w, sid, chunk, verified, now, ackAt), t) == PayloadsOf(w, t)
  {
    hide Payloads, AttemptKey, ChunkKey, AcceptableChunkSize, Judge;
  }

  lemma CompleteKeepsHistory(prefix: string, w: World, sid: Id, now: int, progress: Progress)
    requires w.sessions.Keys == w.history.Keys
    ensures var r := AfterComplete(prefix, w, sid, now, progress);
            r.history == w.history && r.sessions.Keys == r.history.Keys
  {
    hide Payloads, Concat, SourceKey;
  }

  lemma RestartKeepsPayloads(w: World, t: Id)
    requires w.sessions.Keys == w.history.Keys
    ensures PayloadsOf(AfterRestart(w), t) == PayloadsOf(w, t)
  {
    if t in w.sessions {
      RestartKeepsHistory(w, t);
    }
  }

  lemma DataSplits(a: seq<Chunk>, b: seq<Chunk>)
    ensures Data(a + b) == Data(a) + Data(b)
  {
  }

  /**
   * Over every run: what is acknowledged for a session is the data of the chunks
   * taken in for it, whose indexes continue the count one by one.
   */
  lemma {:induction false} AcknowledgedIsTakenIn(prefix: string, w: World, cs: seq<Command>, sid: Id)
    requires Right(prefix, w)
    ensures PayloadsOf(Run(prefix, w, cs), sid) == PayloadsOf(w, sid) + Data(TakenIn(prefix, w, cs, sid))
    ensures forall i :: 0 <= i < |TakenIn(prefix, w, cs, sid)| ==>
              TakenIn(prefix, w, cs, sid)[i].index == |PayloadsOf(w, sid)| + i
    decreases |cs|
  {
    hide Right, Step, PayloadsOf, TakenFrom, Data;
    if cs != [] {
      StepIsRight(prefix, w, cs[0]);
      var r, first := Step(prefix, w, cs[0]), TakenFrom(w, cs[0], sid);
      StepTakesIn(prefix, w, cs[0], sid);
      AtMostOne(w, cs[0], sid);
      AcknowledgedIsTakenIn(prefix, r, cs[1..], sid);
      DataSplits(first, TakenIn(prefix, r, cs[1..], sid));
    }
  }

  lemma AtMostOne(w: World, c: Command, sid: Id)
    ensures |TakenFrom(w, c, sid)| <= 1
  {
  }

  lemma NothingIsRight(prefix: string, videos: map<(Id, Id), Video>)
    ensures Right(prefix, Fresh(videos))
  {
  }

  /**
   * Over every run: the source object of a completed session holds the data of
   * the verified chunks taken in for it, first to last, one for each index.
   */
  lemma CompletedSourceIsWhatWasSent(prefix: string, videos: map<(Id, Id), Video>, cs: seq<Command>, sid: Id)
    ensures Right(prefix, Fresh(videos))
    ensures var w, chunks := Run(prefix, Fresh(videos), cs), TakenIn(prefix, Fresh(videos), cs, sid);
            sid in w.sessions && w.sessions[sid].status == Completed ==>
              |chunks| == w.sessions[sid].totalChunks &&
              (forall i :: 0 <= i < |chunks| ==> chunks[i].index == i) &&
              SourceKey(prefix, sid) in w.objects && w.objects[SourceKey(prefix, sid)] == Concat(Data(chunks))
  {
    hide Run, TakenIn, Data, Payloads, Concat, SourceKey, Consistent;
    NothingIsRight(prefix, videos);
    CompletedSourceIsWhatWasAcknowledged(prefix, videos, cs, sid);
    AcknowledgedIsTakenIn(prefix, Fresh(videos), cs, sid);
    assert [] + Data(TakenIn(prefix, Fresh(videos), cs, sid)) == Data(TakenIn(prefix, Fresh(videos), cs, sid));
  }
}
