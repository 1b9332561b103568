/** The upload service over its stores, each operation proved to take the step of the upload model. */
module UploadService {
  import opened Common
  import opened Strings
  import opened Upload

  /** Concatenate byte buffers in order into one new buffer. */
  method ConcatBytes(parts: seq<Bytes>) returns (out: array<Byte>)
    ensures fresh(out) && out[..] == Concat(parts)
  {
    var total := 0;
    for i := 0 to |parts|
      invariant total == |Concat(parts[..i])|
    {
      assert parts[..i + 1][..i] == parts[..i];
      total := total + |parts[i]|;
    }
    assert parts[..|parts|] == parts;
    out := new Byte[total];
    var offset := 0;
    for i := 0 to |parts|
      invariant offset == |Concat(parts[..i])| <= total
      invariant out[..offset] == Concat(parts[..i])
    {
      assert parts[..i + 1][..i] == parts[..i];
      ConcatPrefix(parts, i + 1);
      Set(out, parts[i], offset);
      offset := offset + |parts[i]|;
    }
    assert out[..total] == out[..];
  }

  lemma {:induction false} ConcatPrefix(parts: seq<Bytes>, n: nat)
    requires n <= |parts|
    ensures |Concat(parts[..n])| <= |Concat(parts)|
    decreases |parts|
  {
    if n < |parts| {
      var front := parts[..|parts| - 1];
      ConcatPrefix(front, n);
      assert front[..n] == parts[..n];
    } else {
      assert parts[..n] == parts;
    }
  }

  /** `out.set(part, offset)`: copy the part in, leaving what is before it. */
  method Set(out: array<Byte>, part: Bytes, offset: nat)
    requires offset + |part| <= out.Length
    modifies out
    ensures out[..offset] == old(out[..offset])
    ensures out[offset..offset + |part|] == part
    ensures out[..offset + |part|] == old(out[..offset]) + part
  {
    for i := 0 to |part|
      invariant out[..offset] == old(out[..offset])
      invariant out[offset..offset + i] == part[..i]
    {
      out[offset + i] := part[i];
      assert part[..i + 1] == part[..i] + [part[i]];
    }
    assert part[..|part|] == part;
    assert out[..offset + |part|] == out[..offset] + out[offset..offset + |part|];
  }

  /** The reply to a chunk. */
  function PutReply(w: World, sid: Id, chunk: Chunk, verified: bool, now: int): Result<ChunkAck, Error>
    requires sid in w.sessions ==> 0 <= w.sessions[sid].ackedChunks
  {
    if sid !in w.sessions then Err(NotFound)
    else
      var s := w.sessions[sid];
      match Admit(s, now)
      case Refused(e) => Err(e)
      case Expiring => Err(SessionExpired)
      case Usable =>
        match Judge(s, chunk, verified, w.attempts)
        case Wrong(e) => Err(e)
        case Duplicate => Ok(ChunkAck(sid, chunk.index, s.ackedChunks, s.totalChunks, true))
        case Strike(count) => Err(ChunkInvalid(count))
        case Abort => Err(UploadFailed)
        case Accept => Ok(ChunkAck(sid, chunk.index, s.ackedChunks + 1, s.totalChunks, false))
  }

  function CompleteReply(w: World, sid: Id, now: int): Option<Error> {
    if sid !in w.sessions then Some(NotFound)
    else
      match Admit(w.sessions[sid], now)
      case Refused(e) => Some(e)
      case Expiring => Some(SessionExpired)
      case Usable =>
        if w.sessions[sid].ackedChunks < w.sessions[sid].totalChunks then Some(UploadFailed)
        else if (w.sessions[sid].organizationId, w.sessions[sid].videoId) !in w.videos then Some(NotFound)
        else None
  }

  /**
   * What a chunk for a session is answered, and what becomes of the session. It is
   * taken in exactly when it is the next one of the live session and verifies; the
   * next one that does not verify is a strike, and the third in a row an abort; a late
   * one expires the session; and any other one changes nothing at all.
   */
  lemma PutTells(prefix: string, w: World, sid: Id, chunk: Chunk, verified: bool, now: int, ackAt: int)
    requires Right(prefix, w) && sid in w.sessions
    ensures 0 <= w.sessions[sid].ackedChunks
    ensures var w' := Step(prefix, w, Put(sid, chunk, verified, now, ackAt));
            sid in w'.sessions && sid in w.history && sid in w'.history &&
            var r, s, s', h, h' := PutReply(w, sid, chunk, verified, now), w.sessions[sid], w'.sessions[sid], w.history[sid], w'.history[sid];
            var live := s.status == Open && now < s.expiresAt;
            var fits := live && MIN_CHUNK_BYTES <= chunk.sizeBytes <= MAX_CHUNK_BYTES;
            var next := fits && 0 <= chunk.index == s.ackedChunks < s.totalChunks;
            && (r.Ok? && !r.value.alreadyAcknowledged <==> next && verified)
            && (next && verified ==>
                  r == Ok(ChunkAck(sid, chunk.index, chunk.index + 1, s.totalChunks, false)) &&
                  s' == s.(ackedChunks := chunk.index + 1, lastAckAt := Some(ackAt),
                           expiresAt := ackAt + UPLOAD_SESSION_LIFETIME_MS))
            && (next && !verified ==>
                  if Strikes(h') < 3 then r == Err(ChunkInvalid(Strikes(h'))) && s' == s
                  else r == Err(UploadFailed) && s' == s.(status := Aborted))
            && (r.Ok? && r.value.alreadyAcknowledged <==> fits && chunk.index < s.ackedChunks)
            && (fits && chunk.index < s.ackedChunks ==>
                  r == Ok(ChunkAck(sid, chunk.index, s.ackedChunks, s.totalChunks, true)))
            && (live && !fits ==> r == Err(ChunkSizeInvalid))
            && (fits && !next && s.ackedChunks <= chunk.index ==> r == Err(ValidationFailed))
            && (s.status == Open && !live ==> r == Err(SessionExpired) && w' == w.(sessions := w.sessions[sid := s.(status := Expired)]))
            && (s.status != Open ==>
                  r == Err(if s.status == Expired then SessionExpired else if s.status == Aborted then UploadFailed else Conflict))
            && (!next && (s.status == Open ==> live) ==> w' == w)
            && w'.videos == w.videos && forall t | t in w.sessions && t != sid :: t in w'.sessions && w'.sessions[t] == w.sessions[t]
  {
    hide Consistent, SessionRight, AttemptKey, ChunkKey, Payloads, Strikes, LastActivity;
    SessionsAreRight(prefix, w, sid);
    RetriesAreStrikes(prefix, w, sid);
    PutTakesIn(prefix, w, sid, chunk, verified, now, ackAt);
    SessionHasItsId(prefix, w, sid);
  }

  class UploadService {
    const prefix: string
    const verifier: Chunk -> bool
    var sessions: map<Id, Session>
    var videos: map<(Id, Id), Video>
    var objects: Objects
    var attempts: map<string, nat>
    /** What each session's client was told. */
    ghost var history: map<Id, seq<Event>>

    constructor (prefix: string, verifier: Chunk -> bool, videos: map<(Id, Id), Video>)
      ensures Valid() && State() == Fresh(videos)
      ensures this.prefix == prefix && this.verifier == verifier
    {
      this.prefix, this.verifier, this.videos := prefix, verifier, videos;
      sessions, objects, attempts, history := map[], map[], map[], map[];
    }

    ghost function State(): World
      reads this
    {
      World(sessions, videos, objects, attempts, history)
    }

    ghost predicate Valid()
      reads this
    {
      Right(prefix, State())
    }

    /** Open a session for a video. The new id comes from the id generator. */
    method InitSession(organizationId: Id, videoId: Id, totalChunks: int, now: int, newId: Id)
      returns (r: Result<Session, Error>)
      requires Valid()
      modifies this
      ensures Valid()
      ensures State() == Step(prefix, old(State()), Init(newId, organizationId, videoId, totalChunks, now))
      ensures r == if totalChunks < 1 then Err(ValidationFailed)
                   else if (organizationId, videoId) !in old(videos) then Err(NotFound)
                   else if newId in old(sessions) then Err(Conflict)
                   else Ok(Session(newId, organizationId, videoId, totalChunks, 0, None,
                                   now + UPLOAD_SESSION_LIFETIME_MS, Open))
      ensures sessions == if r.Ok? then old(sessions)[newId := r.value] else old(sessions)
      ensures objects == old(objects) && attempts == old(attempts) && videos == old(videos)
    {
      hide Consistent, SessionRight;
      StepIsRight(prefix, State(), Init(newId, organizationId, videoId, totalChunks, now));
      if totalChunks < 1 {
        return Err(ValidationFailed);
      }
      if (organizationId, videoId) !in videos {
        return Err(NotFound);
      }
      if newId in sessions {
        return Err(Conflict);
      }
      var record := Session(newId, organizationId, videoId, totalChunks, 0, None,
                            now + UPLOAD_SESSION_LIFETIME_MS, Open);
      sessions := sessions[newId := record];
      history := history[newId := [Created(now)]];
      r := Ok(record);
    }

    /** Resolve a session that can be used, expiring it in place if its deadline has passed. */
    method RequireOpenSession(sid: Id, now: int) returns (r: Result<Session, Error>)
      requires Valid()
      modifies this`sessions
      ensures sid !in old(sessions) ==> r == Err(NotFound) && sessions == old(sessions)
      ensures sid in old(sessions) ==>
                match Admit(old(sessions)[sid], now)
                case Refused(e) => r == Err(e) && sessions == old(sessions)
                case Expiring => r == Err(SessionExpired) && State() == AfterExpiry(old(State()), sid)
                case Usable => r == Ok(old(sessions)[sid]) && sessions == old(sessions)
    {
      if sid !in sessions {
        return Err(NotFound);
      }
      var session := sessions[sid];
      match session.status {
        case Expired => return Err(SessionExpired);
        case Aborted => return Err(UploadFailed);
        case Completed => return Err(Conflict);
        case Open =>
      }
      if now >= session.expiresAt {
        sessions := sessions[sid := session.(status := Expired)];
        return Err(SessionExpired);
      }
      r := Ok(session);
    }

    /**
     * Receive a chunk. The clock is read twice: on arrival, and when the
     * acknowledgement is recorded.
     */
    method PutChunk(sid: Id, chunk: Chunk, now: int, ackAt: int) returns (r: Result<ChunkAck, Error>)
      requires Valid()
      modifies this
      ensures Valid()
      ensures State() == Step(prefix, old(State()), Put(sid, chunk, verifier(chunk), now, ackAt))
      ensures sid in old(sessions) ==> 0 <= old(sessions)[sid].ackedChunks
      ensures r == PutReply(old(State()), sid, chunk, verifier(chunk), now)
      // A chunk is taken in exactly when it is the next one of a live session and verifies,
      // and then this very payload is.
      ensures r.Ok? && !r.value.alreadyAcknowledged <==>
                sid in old(sessions) && old(sessions)[sid].status == Open && now < old(sessions)[sid].expiresAt &&
                MIN_CHUNK_BYTES <= chunk.sizeBytes <= MAX_CHUNK_BYTES &&
                0 <= chunk.index == old(sessions)[sid].ackedChunks < old(sessions)[sid].totalChunks && verifier(chunk)
      ensures r.Ok? && !r.value.alreadyAcknowledged ==>
                sid in history && sid in old(history) && 0 <= chunk.index &&
                Payloads(history[sid]) == Payloads(old(history)[sid]) + [chunk.data] &&
                objects == old(objects)[ChunkKey(prefix, sid, chunk.index) := chunk.data]
    {
      hide Right, Step, AttemptKey, ChunkKey, Payloads, Strikes, LastActivity;
      PutStep(prefix, State(), sid, chunk, verifier(chunk), now, ackAt);
      if sid in sessions {
        PutTakesIn(prefix, State(), sid, chunk, verifier(chunk), now, ackAt);
      }
      var admitted := RequireOpenSession(sid, now);
      if admitted.Err? {
        return Err(admitted.error);
      }
      var session := admitted.value;
      SessionHasItsId(prefix, State(), sid);
      if !AcceptableChunkSize(chunk.sizeBytes) {
        return Err(ChunkSizeInvalid);
      }
      if chunk.index < session.ackedChunks {
        return Ok(ChunkAck(sid, chunk.index, session.ackedChunks, session.totalChunks, true));
      }
      if chunk.index > session.ackedChunks || chunk.index >= session.totalChunks {
        return Err(ValidationFailed);
      }
      if !verifier(chunk) {
        var e := HandleIntegrityFailure(session, chunk.index);
        return Err(e);
      }
      objects := objects[ChunkKey(prefix, sid, chunk.index) := chunk.data];
      attempts := attempts - {AttemptKey(sid, chunk.index)};
      sessions := sessions[sid := session.(ackedChunks := session.ackedChunks + 1, lastAckAt := Some(ackAt),
                                           expiresAt := ackAt + UPLOAD_SESSION_LIFETIME_MS)];
      history := history[sid := history[sid] + [Acknowledged(ackAt, chunk.data)]];
      r := Ok(ChunkAck(sid, chunk.index, session.ackedChunks + 1, session.totalChunks, false));
    }

    /** Count a failed integrity check; the third in a row aborts the session. */
    method HandleIntegrityFailure(session: Session, index: nat) returns (e: Error)
      requires session.id in sessions && session.id in history && sessions[session.id] == session
      requires index == session.ackedChunks
      modifies this`attempts, this`sessions, this`history
      ensures var count := Attempts(old(attempts), AttemptKey(session.id, index)) + 1;
              if count >= MAX_CHUNK_INTEGRITY_ATTEMPTS
              then e == UploadFailed && State() == AfterAbort(old(State()), session.id)
              else e == ChunkInvalid(count) && State() == AfterStrike(old(State()), session.id, count)
    {
      var key := AttemptKey(session.id, index);
      var count := Attempts(attempts, key) + 1;
      history := history[session.id := history[session.id] + [Rejected]];
      if count >= MAX_CHUNK_INTEGRITY_ATTEMPTS {
        attempts := attempts - {key};
        sessions := sessions[session.id := session.(status := Aborted)];
        return UploadFailed;
      }
      attempts := attempts[key := count];
      e := ChunkInvalid(count);
    }

    /** Report a session, expiring it first if its deadline has passed. */
    method GetStatus(sid: Id, now: int) returns (r: Result<Session, Error>)
      requires Valid()
      modifies this`sessions
      ensures Valid() && State() == Step(prefix, old(State()), AskStatus(sid, now))
      ensures r.Ok? <==> sid in sessions
      ensures r.Ok? ==> r.value == sessions[sid]
      ensures r.Err? ==> r.error == NotFound
      // The deadline itself is late; only an open session expires, and nothing else changes.
      ensures sessions == if sid in old(sessions) && old(sessions)[sid].status == Open && old(sessions)[sid].expiresAt <= now
                          then old(sessions)[sid := old(sessions)[sid].(status := Expired)] else old(sessions)
    {
      hide Consistent, SessionRight;
      StepIsRight(prefix, State(), AskStatus(sid, now));
      if sid !in sessions {
        return Err(NotFound);
      }
      if sessions[sid].status == Open && now >= sessions[sid].expiresAt {
        sessions := sessions[sid := sessions[sid].(status := Expired)];
      }
      r := Ok(sessions[sid]);
    }

    /** Read the chunks in index order and concatenate them. */
    method Assemble(sid: Id, totalChunks: nat, ghost payloads: seq<Bytes>) returns (source: Bytes)
      requires |payloads| == totalChunks && ChunksStored(prefix, sid, payloads, objects)
      ensures source == Concat(payloads)
    {
      var parts: seq<Bytes> := [];
      for index := 0 to totalChunks
        invariant parts == payloads[..index]
      {
        parts := parts + [objects[ChunkKey(prefix, sid, index)]];
      }
      assert payloads[..totalChunks] == payloads;
      var out := ConcatBytes(parts);
      source := out[..];
    }

    /**
     * Complete a session once every chunk is acknowledged: the source object
     * becomes the payloads acknowledged for chunks 0 to the last, in order.
     */
    method CompleteUpload(sid: Id, now: int) returns (r: Result<Video, Error>)
      requires Valid()
      modifies this
      ensures Valid() && State() == Step(prefix, old(State()), Complete(sid, now))
      ensures match CompleteReply(old(State()), sid, now)
              case Some(e) => r == Err(e)
              case None =>
                r.Ok? && r.value.sourceObjectKey == Some(SourceKey(prefix, sid)) && r.value.status == Queued &&
                sid in history && SourceKey(prefix, sid) in objects &&
                objects[SourceKey(prefix, sid)] == Concat(Payloads(history[sid])) &&
                |Payloads(history[sid])| == old(sessions)[sid].totalChunks
      // It completes exactly when the session is live, nothing is missing, and the video is there.
      ensures r.Ok? <==>
                sid in old(sessions) &&
                var s := old(sessions)[sid];
                s.status == Open && now < s.expiresAt && s.totalChunks <= s.ackedChunks &&
                (s.organizationId, s.videoId) in old(videos)
      ensures r.Ok? ==>
                var s := old(sessions)[sid];
                sessions == old(sessions)[sid := s.(status := Completed)] &&
                videos == old(videos)[(s.organizationId, s.videoId) := r.value] &&
                r.value == old(videos)[(s.organizationId, s.videoId)].(
                  sourceObjectKey := r.value.sourceObjectKey, status := r.value.status)
      ensures r.Err? ==> videos == old(videos) && objects == old(objects)
      ensures history == old(history) && attempts == old(attempts)
    {
      hide Consistent, SessionRight, ChunkKey, SourceKey, Payloads, Concat;
      StepIsRight(prefix, State(), Complete(sid, now));
      ghost var before := State();
      var admitted := RequireOpenSession(sid, now);
      if admitted.Err? {
        return Err(admitted.error);
      }
      var session := admitted.value;
      if session.ackedChunks < session.totalChunks {
        return Err(UploadFailed);
      }
      if (session.organizationId, session.videoId) !in videos {
        return Err(NotFound);
      }
      var video := videos[(session.organizationId, session.videoId)];
      AllChunksStored(prefix, before, sid);
      var source := Assemble(sid, session.totalChunks, Payloads(history[sid]));
      objects := objects[SourceKey(prefix, sid) := source];
      var updated := video.(sourceObjectKey := Some(SourceKey(prefix, sid)), status := Queued);
      videos := videos[(session.organizationId, session.videoId) := updated];
      sessions := sessions[sid := session.(status := Completed)];
      r := Ok(updated);
    }

    /** A new process over the same stores: the retry counts start empty. */
    method RestartService()
      requires Valid()
      modifies this
      ensures Valid() && State() == Step(prefix, old(State()), Restart)
      ensures attempts == map[] && sessions == old(sessions) && videos == old(videos) && objects == old(objects)
    {
      hide Consistent, SessionRight;
      StepIsRight(prefix, State(), Restart);
      SessionsAreKnown(prefix, State());
      attempts := map[];
      history := AfterRestart(State()).history;
    }

    /** The part of a chunk's handling that a crash before the acknowledgement leaves done. */
    method PersistThenCrash(sid: Id, chunk: Chunk, now: int)
      requires Valid()
      requires sid in sessions && sessions[sid].status == Open && now < sessions[sid].expiresAt
      requires MIN_CHUNK_BYTES <= chunk.sizeBytes <= MAX_CHUNK_BYTES && verifier(chunk)
      requires 0 <= chunk.index == sessions[sid].ackedChunks < sessions[sid].totalChunks
      modifies this
      ensures Valid() && State() == Step(prefix, old(State()), PutThenCrash(sid, chunk, verifier(chunk), now))
      ensures objects == old(objects)[ChunkKey(prefix, sid, chunk.index) := chunk.data]
      ensures sessions == old(sessions) && attempts == map[]
    {
      hide Consistent, SessionRight, ChunkKey;
      StepIsRight(prefix, State(), PutThenCrash(sid, chunk, verifier(chunk), now));
      PersistIsRight(prefix, State(), sid, chunk.data);
      objects := objects[ChunkKey(prefix, sid, sessions[sid].ackedChunks) := chunk.data];
      RestartService();
    }
  }

  lemma SessionHasItsId(prefix: string, w: World, sid: Id)
    requires Right(prefix, w) && sid in w.sessions
    ensures w.sessions[sid].id == sid && sid in w.history
  {
    SessionsAreRight(prefix, w, sid);
  }

  lemma RetriesAreStrikes(prefix: string, w: World, sid: Id)
    requires Right(prefix, w) && sid in w.sessions
    ensures sid in w.history && 0 <= w.sessions[sid].ackedChunks <= w.sessions[sid].totalChunks
    ensures w.sessions[sid].status == Open ==>
              Attempts(w.attempts, AttemptKey(sid, w.sessions[sid].ackedChunks)) == Strikes(w.history[sid])
  {
    SessionsAreRight(prefix, w, sid);
  }

  lemma PutStep(prefix: string, w: World, sid: Id, chunk: Chunk, verified: bool, now: int, ackAt: int)
    requires Right(prefix, w)
    ensures sid in w.sessions ==> sid in w.history && 0 <= w.sessions[sid].ackedChunks
    ensures Step(prefix, w, Put(sid, chunk, verified, now, ackAt)) == AfterPut(prefix, w, sid, chunk, verified, now, ackAt)
    ensures Right(prefix, AfterPut(prefix, w, sid, chunk, verified, now, ackAt))
  {
    hide Consistent, AfterPut, Judge;
    PutIsRight(prefix, w, sid, chunk, verified, now, ackAt);
  }

  lemma AllChunksStored(prefix: string, w: World, sid: Id)
    requires Right(prefix, w) && sid in w.sessions && w.sessions[sid].ackedChunks >= w.sessions[sid].totalChunks
    ensures sid in w.history && |Payloads(w.history[sid])| == w.sessions[sid].totalChunks
    ensures ChunksStored(prefix, sid, Payloads(w.history[sid]), w.objects)
  {
    SessionsAreRight(prefix, w, sid);
  }

  /**
   * A chunk answered as already acknowledged is one whose payload was indeed
   * acknowledged and is stored, exactly when its index is not negative: the
   * service does not check for that.
   */
  lemma DuplicateWasAcknowledged(prefix: string, w: World, sid: Id, chunk: Chunk, verified: bool, now: int)
    requires Right(prefix, w) && sid in w.sessions && 0 <= w.sessions[sid].ackedChunks
    requires PutReply(w, sid, chunk, verified, now).Ok?
    requires PutReply(w, sid, chunk, verified, now).value.alreadyAcknowledged
    ensures sid in w.history
    ensures chunk.index >= 0 <==>
              0 <= chunk.index < |Payloads(w.history[sid])| &&
              ChunkKey(prefix, sid, chunk.index) in w.objects &&
              w.objects[ChunkKey(prefix, sid, chunk.index)] == Payloads(w.history[sid])[chunk.index]
  {
    SessionsAreRight(prefix, w, sid);
  }

  /** A new session acknowledges a chunk with a negative index though nothing was ever stored. */
  lemma NegativeIndexIsAcknowledged(s: Session, attempts: map<string, nat>) returns (chunk: Chunk)
    requires s.ackedChunks == 0
    ensures Judge(s, chunk, false, attempts).Duplicate?
  {
    chunk := Chunk(-1, MIN_CHUNK_BYTES, [], "");
  }

  /** Expiring a session drops none of its retry counts, although the counts' description says it does. */
  lemma ExpiryKeepsRetryCount(prefix: string, w: World, sid: Id, now: int)
    requires Right(prefix, w) && sid in w.sessions && w.sessions[sid].status == Open
    requires now >= w.sessions[sid].expiresAt
    ensures sid in w.history && 0 <= w.sessions[sid].ackedChunks
    ensures var r := Step(prefix, w, AskStatus(sid, now));
            r.sessions[sid].status == Expired &&
            (AttemptKey(sid, w.sessions[sid].ackedChunks) in r.attempts <==> Strikes(w.history[sid]) > 0)
  {
    SessionsAreRight(prefix, w, sid);
  }
}
