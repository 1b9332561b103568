/**
 * The recorder: one session at a time, and every finalized recording uploaded or
 * kept in the local store until it is. The store outlives the recorder, while
 * the counter that makes ids starts again with each one. Uploads may fail; what
 * the environment answers is a parameter.
 */
module Recording {
  import opened Common
  import opened Strings

  const MAX_OFFLINE_UPLOAD_ATTEMPTS := 5

  type Media = string

  datatype State = Idle | Capturing | Paused

  datatype Error = Conflict | AuthorizationDenied | CapabilityUnavailable | UploadFailed

  datatype Capture = Granted | Denied | Failed

  datatype Disposition = Uploaded | StoredOffline

  /** The id the counter makes when it reaches a number. */
  function RecordingId(n: nat): string {
    "rec-" + Decimal(n)
  }

  lemma RecordingIdInjective(m: nat, n: nat)
    ensures RecordingId(m) == RecordingId(n) <==> m == n
  {
    DecimalInjective(m, n);
    assert RecordingId(m)[4..] == Decimal(m) && RecordingId(n)[4..] == Decimal(n);
  }

  /** Whether each attempt at uploading what is stored under an id succeeds. */
  type Outcomes = (string, nat) -> bool

  /** Some attempt at a stored recording succeeds. */
  predicate Succeeds(outcomes: Outcomes, id: string) {
    exists k: nat :: k < MAX_OFFLINE_UPLOAD_ATTEMPTS && outcomes(id, k)
  }

  // -------------------------------------------------------------- the steps

  /**
   * A recorder and its store, with all recordings ever finalized. The store and
   * the uploads name recordings by their number.
   */
  datatype World = World(
    state: State,
    counter: nat,
    store: map<string, nat>,
    recordings: seq<Media>,
    uploaded: set<nat>)

  function Started(w: World, capture: Capture): World {
    if w.state == Idle && capture == Granted then w.(state := Capturing, counter := w.counter + 1) else w
  }

  function HeldUp(w: World): World {
    if w.state == Capturing then w.(state := Paused) else w
  }

  function Resumed(w: World): World {
    if w.state == Paused then w.(state := Capturing) else w
  }

  /** The media, if finalizing gives any, is uploaded, or stored under the next id. */
  function Stopped(w: World, media: Option<Media>, online: bool, uploads: bool): World {
    if w.state == Idle then w
    else if media.None? then w.(state := Idle)
    else
      var n := |w.recordings|;
      var kept := w.(state := Idle, recordings := w.recordings + [media.value]);
      if online && uploads then kept.(uploaded := w.uploaded + {n})
      else kept.(counter := w.counter + 1, store := w.store[RecordingId(w.counter + 1) := n])
  }

  function Flushed(w: World, online: bool, outcomes: Outcomes): World {
    if !online then w
    else
      w.(store := map id | id in w.store && !Succeeds(outcomes, id) :: w.store[id],
         uploaded := w.uploaded + set id | id in w.store && Succeeds(outcomes, id) :: w.store[id])
  }

  /** A new recorder over the same store. */
  function Replaced(w: World): World {
    w.(state := Idle, counter := 0)
  }

  datatype Command =
    | Start(capture: Capture)
    | Pause
    | Resume
    | Stop(media: Option<Media>, online: bool, uploads: bool)
    | Flush(online: bool, outcomes: Outcomes)

  function Step(w: World, c: Command): World {
    match c
    case Start(capture) => Started(w, capture)
    case Pause => HeldUp(w)
    case Resume => Resumed(w)
    case Stop(media, online, uploads) => Stopped(w, media, online, uploads)
    case Flush(online, outcomes) => Flushed(w, online, outcomes)
  }

  function Run(w: World, cs: seq<Command>): World
    decreases |cs|
  {
    if cs == [] then w else Run(Step(w, cs[0]), cs[1..])
  }

  // ------------------------------------------------------------ what is lost

  /** The recordings that are neither uploaded nor in the store. */
  function Lost(w: World): set<nat> {
    Missing(|w.recordings|, w.uploaded, w.store)
  }

  function Missing(count: nat, uploaded: set<nat>, store: map<string, nat>): set<nat> {
    set n | 0 <= n < count && n !in uploaded && n !in store.Values
  }

  /** Each stored recording stands under one id and is not uploaded. */
  ghost predicate Sound(w: World) {
    Apart(|w.recordings|, w.uploaded, w.store)
  }

  ghost predicate Apart(count: nat, uploaded: set<nat>, store: map<string, nat>) {
    && (forall id :: id in store ==> store[id] < count && store[id] !in uploaded)
    && (forall i, j :: i in store && j in store && store[i] == store[j] ==> i == j)
    && (forall n :: n in uploaded ==> n < count)
  }

  /** Saving under an id puts a number where the store had another, and leaves the rest. */
  lemma SavedValues(store: map<string, nat>, id: string, n: nat)
    requires forall i, j :: i in store && j in store && store[i] == store[j] ==> i == j
    ensures store[id := n].Values == {n} + (store.Values - if id in store then {store[id]} else {})
  {
    var saved := store[id := n];
    assert saved[id] == n && id in saved;
    forall m | m in store.Values && (id !in store || m != store[id])
      ensures m in saved.Values
    {
      var other :| other in store && store[other] == m;
      assert saved[other] == m;
    }
  }

  /** What a stop loses: the recording under the id it stores under, if there is one. */
  function Overwritten(w: World, c: Command): set<nat> {
    if c.Stop? && w.state != Idle && c.media.Some? && !(c.online && c.uploads) && RecordingId(w.counter + 1) in w.store
    then {w.store[RecordingId(w.counter + 1)]} else {}
  }

  lemma UploadLosesNothing(count: nat, uploaded: set<nat>, store: map<string, nat>)
    requires Apart(count, uploaded, store)
    ensures Apart(count + 1, uploaded + {count}, store)
    ensures Missing(count + 1, uploaded + {count}, store) == Missing(count, uploaded, store)
  {
    assert count !in store.Values;
  }

  lemma StoreLoses(count: nat, uploaded: set<nat>, store: map<string, nat>, id: string)
    requires Apart(count, uploaded, store)
    ensures Apart(count + 1, uploaded, store[id := count])
    ensures Missing(count + 1, uploaded, store[id := count]) ==
            Missing(count, uploaded, store) + if id in store then {store[id]} else {}
  {
    SavedValues(store, id, count);
  }

  lemma StopLoses(w: World, media: Option<Media>, online: bool, uploads: bool)
    requires Sound(w)
    ensures Sound(Stopped(w, media, online, uploads))
    ensures Lost(Stopped(w, media, online, uploads)) == Lost(w) + Overwritten(w, Stop(media, online, uploads))
  {
    hide RecordingId, Apart, Missing;
    if w.state != Idle && media.Some? {
      if online && uploads {
        UploadLosesNothing(|w.recordings|, w.uploaded, w.store);
      } else {
        StoreLoses(|w.recordings|, w.uploaded, w.store, RecordingId(w.counter + 1));
      }
    }
  }

  lemma FlushLosesNothing(w: World, online: bool, outcomes: Outcomes)
    requires Sound(w)
    ensures Sound(Flushed(w, online, outcomes)) && Lost(Flushed(w, online, outcomes)) == Lost(w)
  {
    hide Succeeds;
    var after := Flushed(w, online, outcomes);
    forall n | n in w.store.Values
      ensures n in after.store.Values || n in after.uploaded
    {
      var id :| id in w.store && w.store[id] == n;
      if online && !Succeeds(outcomes, id) {
        assert after.store[id] == n;
      }
    }
    forall n | n in after.store.Values
      ensures n in w.store.Values
    {
      var id :| id in after.store && after.store[id] == n;
      assert w.store[id] == n;
    }
  }

  /** A step loses exactly the stored recording it overwrites. */
  lemma StepLoses(w: World, c: Command)
    requires Sound(w)
    ensures Sound(Step(w, c)) && Lost(Step(w, c)) == Lost(w) + Overwritten(w, c)
  {
    hide RecordingId, Flushed, Stopped;
    match c
    case Stop(media, online, uploads) => StopLoses(w, media, online, uploads);
    case Flush(online, outcomes) => FlushLosesNothing(w, online, outcomes);
    case _ =>
  }

  /** No id that the recorder can still store under is taken. */
  ghost predicate IdsAhead(w: World) {
    forall k: nat :: k > w.counter + (if w.state == Idle then 1 else 0) ==> RecordingId(k) !in w.store
  }

  lemma StepKeepsIdsAhead(w: World, c: Command)
    requires IdsAhead(w)
    ensures IdsAhead(Step(w, c)) && Overwritten(w, c) == {}
  {
    hide RecordingId;
    var after := Step(w, c);
    forall k: nat | k > after.counter + (if after.state == Idle then 1 else 0)
      ensures RecordingId(k) !in after.store
    {
      RecordingIdInjective(k, w.counter + 1);
      assert RecordingId(k) !in w.store;
    }
  }

  lemma {:induction false} RunLosesNothing(w: World, cs: seq<Command>)
    requires Sound(w) && IdsAhead(w)
    ensures Sound(Run(w, cs)) && Lost(Run(w, cs)) == Lost(w)
    decreases |cs|
  {
    hide Apart, IdsAhead, Missing, Overwritten, Step;
    if cs != [] {
      StepLoses(w, cs[0]);
      StepKeepsIdsAhead(w, cs[0]);
      RunLosesNothing(Step(w, cs[0]), cs[1..]);
    }
  }

  /** From an idle recorder, sessions that upload at once until the counter comes to a number; then one is stored. */
  function Approach(counter: nat, k: nat): seq<Command>
    requires counter + 2 <= k
    decreases k - counter
  {
    if counter + 2 == k then [Start(Granted), Stop(Some(""), false, false)]
    else [Start(Granted), Stop(Some(""), true, true)] + Approach(counter + 1, k)
  }

  lemma TwoSteps(w: World, a: Command, b: Command, more: seq<Command>)
    ensures Run(w, [a, b] + more) == Run(Step(Step(w, a), b), more)
  {
    var cs := [a, b] + more;
    assert cs[1..] == [b] + more && ([b] + more)[1..] == more;
    assert Run(Step(w, a), [b] + more) == Run(Step(Step(w, a), b), more);
  }

  lemma {:induction false} ApproachLoses(w: World, k: nat)
    requires Sound(w) && w.state == Idle && w.counter + 2 <= k && RecordingId(k) in w.store
    ensures Lost(Run(w, Approach(w.counter, k))) == Lost(w) + {w.store[RecordingId(k)]}
    decreases k - w.counter
  {
    hide Apart, Missing, RecordingId;
    var last := w.counter + 2 == k;
    var first, second := Start(Granted), Stop(Some(""), !last, !last);
    var w1 := Step(w, first);
    var w2 := Step(w1, second);
    StepLoses(w, first);
    StepLoses(w1, second);
    if last {
      TwoSteps(w, first, second, []);
      assert [first, second] + [] == Approach(w.counter, k);
    } else {
      TwoSteps(w, first, second, Approach(w.counter + 1, k));
      assert Overwritten(w1, second) == {};
      assert w2.counter == w.counter + 1 && w2.store == w.store;
      ApproachLoses(w2, k);
    }
  }

  /** A run that loses what is stored under an id still ahead. */
  lemma TakenIdIsLost(w: World, k: nat) returns (cs: seq<Command>)
    requires Sound(w) && k > w.counter + (if w.state == Idle then 1 else 0) && RecordingId(k) in w.store
    ensures w.store[RecordingId(k)] in Lost(Run(w, cs)) && w.store[RecordingId(k)] !in Lost(w)
  {
    hide Apart, RecordingId;
    StoredIsNotLost(w, RecordingId(k));
    if w.state == Idle {
      cs := Approach(w.counter, k);
      ApproachLoses(w, k);
    } else if k == w.counter + 1 {
      cs := [Stop(Some(""), false, false)];
      StepLoses(w, cs[0]);
      assert Run(w, cs) == Step(w, cs[0]);
    } else {
      var first := Stop(None, false, false);
      var idle := Step(w, first);
      StepLoses(w, first);
      ApproachLoses(idle, k);
      cs := [first] + Approach(idle.counter, k);
      assert cs[1..] == Approach(idle.counter, k);
    }
  }

  lemma StoredIsNotLost(w: World, id: string)
    requires Sound(w) && id in w.store
    ensures w.store[id] !in Lost(w)
  {
  }

  /** Whatever is done with this recorder, nothing is lost. */
  ghost predicate NeverLoses(w: World) {
    forall cs :: Lost(Run(w, cs)) == Lost(w)
  }

  /**
   * A recorder never loses a recording exactly when no id that it can still
   * store under is taken: beyond the counter in a session, and beyond the number
   * of the next session when idle.
   */
  lemma NeverLosesIff(w: World)
    requires Sound(w)
    ensures NeverLoses(w) <==> IdsAhead(w)
  {
    hide Apart, Missing, Run, RecordingId;
    if IdsAhead(w) {
      forall cs
        ensures Lost(Run(w, cs)) == Lost(w)
      {
        RunLosesNothing(w, cs);
      }
    } else {
      var k: nat :| k > w.counter + (if w.state == Idle then 1 else 0) && RecordingId(k) in w.store;
      var cs := TakenIdIsLost(w, k);
      assert Lost(Run(w, cs)) != Lost(w);
    }
  }

  const NEW_WORLD := World(Idle, 0, map[], [], {})

  /** A first recorder over an empty store never loses anything. */
  lemma FirstRecorderNeverLoses()
    ensures Sound(NEW_WORLD) && NeverLoses(NEW_WORLD)
  {
    NeverLosesIff(NEW_WORLD);
  }

  /**
   * The second recorder over a store loses what the first stored: both keep
   * their first offline recording under `rec-2`.
   */
  lemma SecondRecorderLoses(first: Media, second: Media)
    ensures var left := Run(NEW_WORLD, OfflineSession(first));
            left.store == map["rec-2" := 0] && Lost(left) == {} && !NeverLoses(Replaced(left)) &&
            Lost(Run(Replaced(left), OfflineSession(second))) == {0}
  {
    hide NeverLoses, Missing;
    assert RecordingId(2) == "rec-2";
    OfflineSessionStores(NEW_WORLD, first);
    var left := Run(NEW_WORLD, OfflineSession(first));
    assert left == World(Idle, 2, map["rec-2" := 0], [first], {});
    MissingNow();
    var w := Replaced(left);
    assert RecordingId(2) in w.store;
    NeverLosesIff(w);
    OfflineSessionStores(w, second);
    assert Run(w, OfflineSession(second)) == World(Idle, 2, map["rec-2" := 1], [first, second], {});
  }

  lemma StartThenStop(w: World, media: Media)
    requires w.state == Idle
    ensures Stopped(Started(w, Granted), Some(media), false, false) ==
            w.(counter := w.counter + 2, store := w.store[RecordingId(w.counter + 2) := |w.recordings|],
               recordings := w.recordings + [media])
  {
    hide RecordingId;
  }

  lemma NoMore(w: World)
    ensures Run(w, []) == w
  {
  }

  function OfflineSession(media: Media): seq<Command> {
    [Start(Granted), Stop(Some(media), false, false)]
  }

  lemma OfflineSessionStores(w: World, media: Media)
    requires w.state == Idle
    ensures Run(w, OfflineSession(media)) ==
            w.(counter := w.counter + 2, store := w.store[RecordingId(w.counter + 2) := |w.recordings|],
               recordings := w.recordings + [media])
  {
    hide RecordingId, Run, Started, Stopped;
    var first, second := Start(Granted), Stop(Some(media), false, false);
    TwoSteps(w, first, second, []);
    assert [first, second] + [] == [first, second];
    NoMore(Step(Step(w, first), second));
    StartThenStop(w, media);
  }

  lemma MissingNow()
    ensures Missing(1, {}, map["rec-2" := 0]) == {} && Missing(2, {}, map["rec-2" := 1]) == {0}
    ensures Apart(1, {}, map["rec-2" := 0])
  {
    assert map["rec-2" := 0]["rec-2"] == 0 && map["rec-2" := 1]["rec-2"] == 1;
  }

  // ------------------------------------------------------- the recorder itself

  class Recorder {
    var state: State
    var session: Option<string>
    var idCounter: nat
    /** The local store, by id. */
    var stored: map<string, Media>
    /** This recorder and its store with all recordings ever finalized. */
    ghost var world: World

    /** A recorder over a store that others have left. */
    constructor (stored: map<string, Media>, ghost left: World)
      requires Sound(left) && Holds(stored, left)
      ensures Valid() && this.stored == stored && world == Replaced(left)
    {
      state, session, idCounter, this.stored := Idle, None, 0, stored;
      world := Replaced(left);
    }

    ghost predicate Valid()
      reads this
    {
      && (state == Idle <==> session.None?)
      && world.state == state && world.counter == idCounter
      && Sound(world) && Holds(stored, world)
    }

    method GenerateId() returns (id: string)
      modifies this`idCounter
      ensures idCounter == old(idCounter) + 1 && id == RecordingId(idCounter)
    {
      idCounter := idCounter + 1;
      id := "rec-" + Decimal(idCounter);
    }

    method Start(capture: Capture) returns (result: Result<string, Error>)
      requires Valid()
      modifies this
      ensures Valid() && world == Started(old(world), capture) && stored == old(stored)
      ensures result == if old(state) != Idle then Err(Conflict)
                        else match capture
                             case Denied => Err(AuthorizationDenied)
                             case Failed => Err(CapabilityUnavailable)
                             case Granted => Ok(RecordingId(idCounter))
      ensures result.Ok? ==> session == Some(result.value) && state == Capturing && idCounter == old(idCounter) + 1
      ensures result.Err? ==> state == old(state) && idCounter == old(idCounter)
      ensures result.Err? ==> session == old(session) && world == old(world)
    {
      hide RecordingId;
      if state != Idle {
        return Err(Conflict);
      }
      match capture
      case Denied => result := Err(AuthorizationDenied);
      case Failed => result := Err(CapabilityUnavailable);
      case Granted =>
        var id := GenerateId();
        session, state := Some(id), Capturing;
        world := Started(world, capture);
        result := Ok(id);
    }

    method Pause() returns (refusal: Option<Error>)
      requires Valid()
      modifies this`state, this`world
      ensures Valid() && world == HeldUp(old(world))
      ensures refusal == if old(state) == Capturing then None else Some(Conflict)
      ensures state == if refusal.None? then Paused else old(state)
    {
      world := HeldUp(world);
      if state != Capturing {
        return Some(Conflict);
      }
      state := Paused;
      refusal := None;
    }

    method Resume() returns (refusal: Option<Error>)
      requires Valid()
      modifies this`state, this`world
      ensures Valid() && world == Resumed(old(world))
      ensures refusal == if old(state) == Paused then None else Some(Conflict)
      ensures state == if refusal.None? then Capturing else old(state)
    {
      world := Resumed(world);
      if state != Paused {
        return Some(Conflict);
      }
      state := Capturing;
      refusal := None;
    }

    /**
     * Finalize, then upload or store under a new id. Exactly the recording that
     * was stored under that id, if any, is lost.
     */
    method Stop(media: Option<Media>, online: bool, uploads: bool) returns (result: Result<Disposition, Error>)
      requires Valid()
      modifies this
      ensures Valid() && world == Stopped(old(world), media, online, uploads)
      ensures result == if old(state) == Idle then Err(Conflict)
                        else if media.None? then Err(UploadFailed)
                        else Ok(if online && uploads then Uploaded else StoredOffline)
      ensures stored == if result == Ok(StoredOffline) then old(stored)[RecordingId(old(idCounter) + 1) := media.value]
                        else old(stored)
      ensures state == Idle && session == None
      ensures world.recordings == old(world.recordings) + if result.Ok? then [media.value] else []
      ensures world.uploaded == old(world.uploaded) + if result == Ok(Uploaded) then {|old(world.recordings)|} else {}
      ensures Lost(world) == old(Lost(world)) +
                if result == Ok(StoredOffline) && RecordingId(old(idCounter) + 1) in old(stored)
                then {old(world.store)[RecordingId(old(idCounter) + 1)]} else {}
    {
      hide RecordingId, Apart, Missing, Holds, Lost;
      SameIds(stored, world);
      StopLoses(world, media, online, uploads);
      if state == Idle {
        return Err(Conflict);
      }
      state, session := Idle, None;
      ghost var before := world;
      world := Stopped(world, media, online, uploads);
      if media.None? {
        HoldsOnly(stored, before, world);
        return Err(UploadFailed);
      }
      HoldsSaved(stored, before, RecordingId(idCounter + 1), media.value);
      if online && uploads {
        HoldsOnly(stored, before.(recordings := world.recordings), world);
        return Ok(Uploaded);
      }
      HoldsOnly(stored[RecordingId(idCounter + 1) := media.value], before.(recordings := world.recordings, store := world.store), world);
      var id := GenerateId();
      stored := stored[id := media.value];
      result := Ok(StoredOffline);
    }

    /** Five attempts at most, and no more than it takes; `outcomes` tells how each would end. */
    method UploadWithRetries(id: string, outcomes: Outcomes) returns (done: bool, attempts: nat)
      ensures done <==> Succeeds(outcomes, id)
      ensures if done then 0 < attempts <= MAX_OFFLINE_UPLOAD_ATTEMPTS && outcomes(id, attempts - 1)
              else attempts == MAX_OFFLINE_UPLOAD_ATTEMPTS
      ensures forall k: nat :: k + 1 < attempts ==> !outcomes(id, k)
    {
      attempts := 0;
      while attempts < MAX_OFFLINE_UPLOAD_ATTEMPTS
        invariant attempts <= MAX_OFFLINE_UPLOAD_ATTEMPTS
        invariant forall k: nat :: k < attempts ==> !outcomes(id, k)
      {
        attempts := attempts + 1;
        if outcomes(id, attempts - 1) {
          return true, attempts;
        }
      }
      done := false;
    }

    /** Upload what is stored; what succeeds within its attempts leaves the store, and nothing is lost. */
    method FlushStoredRecordings(online: bool, outcomes: Outcomes)
      requires Valid()
      modifies this`stored, this`world
      ensures Valid() && world == Flushed(old(world), online, outcomes)
      ensures online ==> stored == map id | id in old(stored) && !Succeeds(outcomes, id) :: old(stored)[id]
      ensures !online ==> stored == old(stored)
      ensures world.recordings == old(world.recordings)
      ensures world.uploaded == old(world.uploaded) +
                if online then set id | id in old(world.store) && Succeeds(outcomes, id) :: old(world.store)[id] else {}
      ensures Lost(world) == old(Lost(world))
    {
      hide Succeeds, Apart, Missing;
      FlushLosesNothing(world, online, outcomes);
      world := Flushed(world, online, outcomes);
      if !online {
        return;
      }
      var pending := stored.Keys;
      ghost var before := stored;
      while pending != {}
        invariant pending <= before.Keys
        invariant stored == Remaining(before, pending, outcomes) && world == Flushed(old(world), online, outcomes)
        decreases pending
      {
        hide Remaining, Flushed;
        var id :| id in pending;
        RemainingStep(before, pending, outcomes, id);
        pending := pending - {id};
        var done, _ := UploadWithRetries(id, outcomes);
        if done {
          stored := stored - {id};
        }
      }
    }
  }

  /** What is in the store while these are still to be tried. */
  ghost function Remaining(before: map<string, Media>, pending: set<string>, outcomes: Outcomes): map<string, Media> {
    map id | id in before && (id in pending || !Succeeds(outcomes, id)) :: before[id]
  }

  lemma RemainingStep(before: map<string, Media>, pending: set<string>, outcomes: Outcomes, id: string)
    requires id in pending
    ensures var rest := Remaining(before, pending, outcomes);
            Remaining(before, pending - {id}, outcomes) == if Succeeds(outcomes, id) then rest - {id} else rest
  {
    hide Succeeds;
  }

  lemma SameIds(stored: map<string, Media>, w: World)
    requires Holds(stored, w)
    ensures stored.Keys == w.store.Keys
  {
  }

  lemma HoldsOnly(stored: map<string, Media>, w: World, next: World)
    requires Holds(stored, w) && next.store == w.store && next.recordings == w.recordings
    ensures Holds(stored, next)
  {
  }

  lemma HoldsSaved(stored: map<string, Media>, w: World, id: string, media: Media)
    requires Holds(stored, w)
    ensures var more := w.recordings + [media];
            Holds(stored, w.(recordings := more)) &&
            Holds(stored[id := media], w.(recordings := more, store := w.store[id := |w.recordings|]))
  {
  }

  /** The store has the media of the recordings it should. */
  ghost predicate Holds(stored: map<string, Media>, w: World) {
    && stored.Keys == w.store.Keys
    && (forall id :: id in w.store ==> w.store[id] < |w.recordings| && stored[id] == w.recordings[w.store[id]])
  }
}
