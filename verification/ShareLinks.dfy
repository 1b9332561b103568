/**
 * Share links. A link's record carries a counter of wrong passcodes and the end
 * of a lock; the specification looks at everything that ever happened to the
 * link and keeps nothing.
 */
module ShareLinks {
  import opened Common

  const MAX_PASSCODE_ATTEMPTS := 5
  const SHARE_LOCK_DURATION_MS := 900_000
  const MAX_CREDENTIAL_ATTEMPTS := 8

  type Id = string

  datatype Error =
    | ValidationFailed
    | NotFound
    | AuthorizationDenied
    | Conflict
    | ShareLinkExpired
    | ShareLinkLocked

  datatype Link = Link(
    id: Id,
    videoId: Id,
    credential: string,
    expiresAt: Option<int>,
    passcodeHash: Option<string>,
    revokedAt: Option<int>,
    failedAttempts: nat,
    lockedUntil: Option<int>)

  /** Whether a passcode matches a stored hash. */
  type Verifier = (string, string) -> bool

  /** What happened to one link. */
  datatype Event = Attempt(at: int, passcode: Option<string>) | Revocation(at: int)

  // ------------------------------------------------------- the specification

  /** The link is open, or a non-empty passcode matches its hash. */
  predicate Right(v: Verifier, link: Link, passcode: Option<string>) {
    link.passcodeHash.Some? ==> passcode.Some? && passcode.value != "" && v(link.passcodeHash.value, passcode.value)
  }

  predicate ExpiredAt(link: Link, t: int) {
    link.expiresAt.Some? && link.expiresAt.value <= t
  }

  /** The time of the first revocation. */
  function RevokedAt(h: seq<Event>): Option<int> {
    if h == [] then None
    else if RevokedAt(Front(h)).Some? || Last(h).Attempt? then RevokedAt(Front(h))
    else Some(Last(h).at)
  }

  /** Every fifth wrong passcode since the last grant locks the link. */
  predicate LockedAt(v: Verifier, link: Link, h: seq<Event>, t: int)
    decreases |h|, 2
  {
    Armed(WrongSinceGrant(v, link, h)) && t < LastWrong(v, link, h) + SHARE_LOCK_DURATION_MS
  }

  predicate Armed(wrong: nat) {
    wrong > 0 && wrong % MAX_PASSCODE_ATTEMPTS == 0
  }

  /** The passcode of an attempt at `t` would be looked at. */
  predicate Evaluates(v: Verifier, link: Link, h: seq<Event>, t: int)
    decreases |h|, 3
  {
    RevokedAt(h).None? && !ExpiredAt(link, t) && !LockedAt(v, link, h, t)
  }

  /** The last event is an attempt that was granted. */
  predicate Granted(v: Verifier, link: Link, h: seq<Event>)
    requires h != []
    decreases |h|, 0
  {
    Last(h).Attempt? && Evaluates(v, link, Front(h), Last(h).at) && Right(v, link, Last(h).passcode)
  }

  /** The last event is an attempt whose passcode was looked at and was wrong. */
  predicate Wrong(v: Verifier, link: Link, h: seq<Event>)
    requires h != []
    decreases |h|, 0
  {
    Last(h).Attempt? && Evaluates(v, link, Front(h), Last(h).at) && !Right(v, link, Last(h).passcode)
  }

  function WrongSinceGrant(v: Verifier, link: Link, h: seq<Event>): nat
    decreases |h|, 1
  {
    if h == [] || Granted(v, link, h) then 0
    else WrongSinceGrant(v, link, Front(h)) + if Wrong(v, link, h) then 1 else 0
  }

  /** The time of the latest wrong passcode; 0 if there was none. */
  function LastWrong(v: Verifier, link: Link, h: seq<Event>): int
    decreases |h|, 1
  {
    if h == [] then 0
    else if Wrong(v, link, h) then Last(h).at
    else LastWrong(v, link, Front(h))
  }

  /** The answer to an attempt, told from the history alone. */
  function Answer(v: Verifier, link: Link, h: seq<Event>, now: int, passcode: Option<string>): Result<Id, Error> {
    if RevokedAt(h).Some? || ExpiredAt(link, now) then Err(ShareLinkExpired)
    else if LockedAt(v, link, h, now) then Err(ShareLinkLocked)
    else if Right(v, link, passcode) then Ok(link.videoId)
    else if Armed(WrongSinceGrant(v, link, h) + 1) then Err(ShareLinkLocked)
    else Err(ShareLinkExpired)
  }

  // -------------------------------------------------------------- the record

  /** The record as created: nothing has happened to it. */
  function Created(link: Link): Link {
    link.(revokedAt := None, failedAttempts := 0, lockedUntil := None)
  }

  /** The counter shows the wrong passcodes since the last grant, restarting after each lock. */
  function Shown(wrong: nat): nat {
    if wrong == 0 then 0 else (wrong - 1) % MAX_PASSCODE_ATTEMPTS + 1
  }

  /** The record carries exactly what its history says. */
  ghost predicate Tells(v: Verifier, link: Link, h: seq<Event>) {
    var wrong := WrongSinceGrant(v, Created(link), h);
    && link.revokedAt == RevokedAt(h)
    && link.failedAttempts == Shown(wrong)
    && link.lockedUntil ==
       (if Armed(wrong) then Some(LastWrong(v, Created(link), h) + SHARE_LOCK_DURATION_MS) else None)
  }

  /** What `resolve` makes of the record, and its answer. */
  function Resolve(v: Verifier, link: Link, now: int, passcode: Option<string>): (Link, Result<Id, Error>) {
    if link.revokedAt.Some? then (link, Err(ShareLinkExpired))
    else if link.expiresAt.Some? && link.expiresAt.value <= now then (link, Err(ShareLinkExpired))
    else if link.lockedUntil.Some? && link.lockedUntil.value > now then (link, Err(ShareLinkLocked))
    else if link.passcodeHash.None? then (link, Ok(link.videoId))
    else
      var baseAttempts := if link.lockedUntil.Some? then 0 else link.failedAttempts;
      var supplied := if passcode.Some? then passcode.value else "";
      if |supplied| > 0 && v(link.passcodeHash.value, supplied) then
        (link.(failedAttempts := 0, lockedUntil := None), Ok(link.videoId))
      else if baseAttempts + 1 >= MAX_PASSCODE_ATTEMPTS then
        (link.(failedAttempts := baseAttempts + 1, lockedUntil := Some(now + SHARE_LOCK_DURATION_MS)), Err(ShareLinkLocked))
      else
        (link.(failedAttempts := baseAttempts + 1, lockedUntil := None), Err(ShareLinkExpired))
  }

  /** How one more event extends each notion of the specification. */
  lemma OneMoreEvent(v: Verifier, link: Link, h: seq<Event>, e: Event)
    ensures var h' := h + [e];
            var looked := e.Attempt? && Evaluates(v, link, h, e.at);
            Granted(v, link, h') == (looked && Right(v, link, e.passcode)) &&
            Wrong(v, link, h') == (looked && !Right(v, link, e.passcode)) &&
            WrongSinceGrant(v, link, h') ==
              (if Granted(v, link, h') then 0 else WrongSinceGrant(v, link, h) + if Wrong(v, link, h') then 1 else 0) &&
            LastWrong(v, link, h') == (if Wrong(v, link, h') then e.at else LastWrong(v, link, h)) &&
            RevokedAt(h') == (if RevokedAt(h).Some? || e.Attempt? then RevokedAt(h) else Some(e.at))
  {
    var h' := h + [e];
    assert Front(h') == h && Last(h') == e;
  }

  /** How one more wrong passcode moves the counter: it restarts after a lock, and arms the next at five. */
  lemma OneMoreShown(wrong: nat)
    ensures Shown(0) == 0 && !Armed(0)
    ensures Shown(wrong + 1) == (if Armed(wrong) then 0 else Shown(wrong)) + 1
    ensures Armed(wrong + 1) <==> Shown(wrong + 1) >= MAX_PASSCODE_ATTEMPTS
  {
  }

  /** The record answers as the whole history would, and goes on telling it. */
  lemma ResolveTells(v: Verifier, link: Link, h: seq<Event>, now: int, passcode: Option<string>)
    requires Tells(v, link, h)
    ensures var (next, answer) := Resolve(v, link, now, passcode);
            answer == Answer(v, Created(link), h, now, passcode) &&
            Created(next) == Created(link) &&
            Tells(v, next, h + [Attempt(now, passcode)])
  {
    hide WrongSinceGrant, LastWrong, RevokedAt, Granted, Wrong, Armed, Shown;
    OneMoreEvent(v, Created(link), h, Attempt(now, passcode));
    OneMoreShown(WrongSinceGrant(v, Created(link), h));
    var (next, answer) := Resolve(v, link, now, passcode);
    assert Created(next) == Created(link);
    if link.passcodeHash.None? {
      OpenNeverWrong(v, Created(link), h);
    }
  }

  lemma {:induction false} OpenNeverWrong(v: Verifier, link: Link, h: seq<Event>)
    requires link.passcodeHash.None?
    ensures WrongSinceGrant(v, link, h) == 0
    decreases |h|
  {
    if h != [] {
      OpenNeverWrong(v, link, Front(h));
    }
  }

  function Revoke(link: Link, now: int): Link {
    if link.revokedAt.Some? then link else link.(revokedAt := Some(now))
  }

  lemma RevokeTells(v: Verifier, link: Link, h: seq<Event>, now: int)
    requires Tells(v, link, h)
    ensures Tells(v, Revoke(link, now), h + [Revocation(now)]) && Created(Revoke(link, now)) == Created(link)
  {
    hide WrongSinceGrant, LastWrong, RevokedAt, Granted, Wrong;
    assert Created(Revoke(link, now)) == Created(link);
    OneMoreEvent(v, Created(link), h, Revocation(now));
  }

  /** Always either no lock and fewer than five failures, or a lock and exactly five; open links have neither. */
  lemma LockMeansFive(v: Verifier, link: Link, h: seq<Event>)
    requires Tells(v, link, h)
    ensures link.lockedUntil.None? ==> link.failedAttempts < MAX_PASSCODE_ATTEMPTS
    ensures link.lockedUntil.Some? ==> link.failedAttempts == MAX_PASSCODE_ATTEMPTS && link.passcodeHash.Some?
    ensures link.passcodeHash.None? ==> link.failedAttempts == 0
  {
    hide WrongSinceGrant, LastWrong, RevokedAt;
    if link.passcodeHash.None? {
      OpenNeverWrong(v, Created(link), h);
    }
  }

  // ------------------------------------------------------- guessing is slow

  ghost predicate Chronological(h: seq<Event>) {
    forall i, j :: 0 <= i < j < |h| ==> h[i].at <= h[j].at
  }

  /** How many of the events after the first `a` are wrong passcodes that were looked at. */
  function WrongFrom(v: Verifier, link: Link, h: seq<Event>, a: nat): nat
    decreases |h|
  {
    if |h| <= a then 0 else WrongFrom(v, link, Front(h), a) + if Wrong(v, link, h) then 1 else 0
  }

  /** None of the events after the first `a` is a grant. */
  predicate NoGrantFrom(v: Verifier, link: Link, h: seq<Event>, a: nat)
    decreases |h|
  {
    |h| <= a || (!Granted(v, link, h) && NoGrantFrom(v, link, Front(h), a))
  }

  /** Whole lock times in a span. */
  function Locks(span: int): int {
    span / SHARE_LOCK_DURATION_MS
  }

  /** By time `now`, the wrong passcodes counted since `start` fit the locks that had to pass between them. */
  ghost predicate Paced(v: Verifier, link: Link, h: seq<Event>, a: nat, start: int, now: int) {
    var counted, wrong := WrongFrom(v, link, h, a), WrongSinceGrant(v, link, h);
    && counted <= wrong
    && (counted > 0 ==> start <= LastWrong(v, link, h) <= now)
    && (counted > 0 && Armed(wrong) ==>
          counted <= MAX_PASSCODE_ATTEMPTS * Locks(LastWrong(v, link, h) + SHARE_LOCK_DURATION_MS - start))
    && (counted > 0 && !Armed(wrong) ==>
          counted <= wrong % MAX_PASSCODE_ATTEMPTS + MAX_PASSCODE_ATTEMPTS * Locks(LastWrong(v, link, h) - start))
  }

  lemma PacedStep(v: Verifier, link: Link, f: seq<Event>, a: nat, start: int, now: int, e: Event)
    requires Paced(v, link, f, a, start, now) && start <= now <= e.at && a <= |f|
    requires !Granted(v, link, f + [e])
    ensures Paced(v, link, f + [e], a, start, e.at)
  {
    hide WrongSinceGrant, LastWrong, RevokedAt, Granted, Wrong;
    var h := f + [e];
    assert Front(h) == f;
    OneMoreEvent(v, link, f, e);
  }

  lemma {:induction false} PacedThroughout(v: Verifier, link: Link, h: seq<Event>, a: nat)
    requires a < |h| && Chronological(h) && NoGrantFrom(v, link, h, a)
    ensures Paced(v, link, h, a, h[a].at, Last(h).at)
    decreases |h|
  {
    var f := Front(h);
    assert h == f + [Last(h)];
    if |f| > a {
      PacedThroughout(v, link, f, a);
      PacedStep(v, link, f, a, h[a].at, Last(f).at, Last(h));
    } else {
      PacedStep(v, link, f, a, h[a].at, h[a].at, Last(h));
    }
  }

  /** A stretch of any history without a grant looks at no more than five wrong passcodes per lock time begun. */
  lemma WrongBound(v: Verifier, link: Link, h: seq<Event>, a: nat)
    requires a < |h| && Chronological(h) && NoGrantFrom(v, link, h, a)
    ensures WrongFrom(v, link, h, a) <= MAX_PASSCODE_ATTEMPTS * (Locks(Last(h).at - h[a].at) + 1)
  {
    hide WrongSinceGrant, LastWrong, WrongFrom, NoGrantFrom;
    PacedThroughout(v, link, h, a);
  }

  /** `n` wrong guesses in bursts of five, one burst per lock time. */
  function Guesses(n: nat, guess: string): seq<Event> {
    if n == 0 then []
    else Guesses(n - 1, guess) + [Attempt((n - 1) / MAX_PASSCODE_ATTEMPTS * SHARE_LOCK_DURATION_MS, Some(guess))]
  }

  lemma {:induction false} GuessesAllLookedAt(v: Verifier, link: Link, n: nat, guess: string)
    requires link.expiresAt.None? && !Right(v, link, Some(guess))
    ensures |Guesses(n, guess)| == n && RevokedAt(Guesses(n, guess)).None?
    ensures forall i :: 0 <= i < n ==>
              Guesses(n, guess)[i].at == i / MAX_PASSCODE_ATTEMPTS * SHARE_LOCK_DURATION_MS
    ensures WrongSinceGrant(v, link, Guesses(n, guess)) == n && WrongFrom(v, link, Guesses(n, guess), 0) == n
    ensures n > 0 ==>
              LastWrong(v, link, Guesses(n, guess)) == (n - 1) / MAX_PASSCODE_ATTEMPTS * SHARE_LOCK_DURATION_MS
    ensures NoGrantFrom(v, link, Guesses(n, guess), 0)
  {
    if n > 0 {
      hide WrongSinceGrant, LastWrong, RevokedAt, Granted, Wrong, Right;
      GuessesAllLookedAt(v, link, n - 1, guess);
      var h := Guesses(n - 1, guess);
      var e := Attempt((n - 1) / MAX_PASSCODE_ATTEMPTS * SHARE_LOCK_DURATION_MS, Some(guess));
      assert Front(h + [e]) == h;
      OneMoreEvent(v, link, h, e);
    }
  }

  lemma WrongBoundIsMet(v: Verifier, link: Link, locks: nat, guess: string) returns (h: seq<Event>)
    requires link.expiresAt.None? && !Right(v, link, Some(guess))
    ensures |h| > 0 && Chronological(h) && NoGrantFrom(v, link, h, 0)
    ensures Locks(Last(h).at - h[0].at) == locks
    ensures WrongFrom(v, link, h, 0) == MAX_PASSCODE_ATTEMPTS * (locks + 1)
  {
    hide NoGrantFrom, WrongFrom, WrongSinceGrant, LastWrong, Guesses;
    var n := MAX_PASSCODE_ATTEMPTS * (locks + 1);
    h := Guesses(n, guess);
    GuessesAllLookedAt(v, link, n, guess);
    assert (n - 1) / MAX_PASSCODE_ATTEMPTS == locks;
  }

  // -------------------------------------------------- the record over its life

  /** The record after everything that happened to it. */
  function Life(v: Verifier, link: Link, h: seq<Event>): Link {
    if h == [] then link
    else
      match Last(h)
      case Attempt(at, passcode) => Resolve(v, Life(v, link, Front(h)), at, passcode).0
      case Revocation(at) => Revoke(Life(v, link, Front(h)), at)
  }

  lemma {:induction false} LifeTells(v: Verifier, link: Link, h: seq<Event>)
    requires link == Created(link)
    ensures Tells(v, Life(v, link, h), h) && Created(Life(v, link, h)) == link
  {
    if h != [] {
      hide Tells, Resolve, Created;
      LifeTells(v, link, Front(h));
      assert h == Front(h) + [Last(h)];
      match Last(h)
      case Attempt(at, passcode) => ResolveTells(v, Life(v, link, Front(h)), Front(h), at, passcode);
      case Revocation(at) => RevokeTells(v, Life(v, link, Front(h)), Front(h), at);
    } else {
      assert RevokedAt([]) == None;
    }
  }

  /** A record that tells its history is what that history made of the new link. */
  lemma RecordIsLife(v: Verifier, link: Link, h: seq<Event>)
    requires Tells(v, link, h)
    ensures link == Life(v, Created(link), h)
  {
    hide WrongSinceGrant, LastWrong, RevokedAt, Life, Armed, Shown;
    assert Created(Created(link)) == Created(link);
    LifeTells(v, Created(link), h);
    var life := Life(v, Created(link), h);
    assert life.id == Created(life).id && life.videoId == Created(life).videoId && life.credential == Created(life).credential;
    assert life.expiresAt == Created(life).expiresAt && life.passcodeHash == Created(life).passcodeHash;
  }

  /** A record shows a revocation exactly when there was one, and the first one's time. */
  lemma {:induction false} RevokedAtMeans(h: seq<Event>)
    ensures RevokedAt(h).None? <==> forall i :: 0 <= i < |h| ==> h[i].Attempt?
    ensures RevokedAt(h).Some? ==>
              exists i :: 0 <= i < |h| && h[i] == Revocation(RevokedAt(h).value) && forall j :: 0 <= j < i ==> h[j].Attempt?
  {
    if h != [] {
      var f := Front(h);
      RevokedAtMeans(f);
      if RevokedAt(f).Some? {
        var i :| 0 <= i < |f| && f[i] == Revocation(RevokedAt(f).value) && forall j :: 0 <= j < i ==> f[j].Attempt?;
        assert h[i] == f[i] && forall j :: 0 <= j < i ==> h[j] == f[j];
      } else {
        assert forall j :: 0 <= j < |f| ==> h[j] == f[j];
        if Last(h).Revocation? {
          assert h[|h| - 1] == Revocation(RevokedAt(h).value);
        }
      }
    }
  }

  /** How many of the attempts after the first `a` events met a live, unlocked record and a hash that refuses them. */
  function RefusedFrom(v: Verifier, link: Link, h: seq<Event>, a: nat): nat
    decreases |h|
  {
    if |h| <= a then 0
    else
      var record := Life(v, link, Front(h));
      RefusedFrom(v, link, Front(h), a) +
      match Last(h)
      case Revocation(_) => 0
      case Attempt(at, passcode) =>
        if record.revokedAt.None? && (record.expiresAt.Some? ==> at < record.expiresAt.value) &&
           (record.lockedUntil.Some? ==> record.lockedUntil.value <= at) && record.passcodeHash.Some? &&
           (passcode.None? || passcode.value == "" || !v(record.passcodeHash.value, passcode.value))
        then 1 else 0
  }

  /** None of the attempts after the first `a` events is granted. */
  ghost predicate DeniedFrom(v: Verifier, link: Link, h: seq<Event>, a: nat) {
    forall i :: a <= i < |h| && h[i].Attempt? ==>
      Resolve(v, Life(v, link, h[..i]), h[i].at, h[i].passcode).1.Err?
  }

  /** What the last event is by the history is what the record makes of it. */
  lemma LastIsTold(v: Verifier, link: Link, h: seq<Event>)
    requires link == Created(link) && h != []
    ensures RefusedFrom(v, link, h, |h| - 1) == if Wrong(v, link, h) then 1 else 0
    ensures Granted(v, link, h) <==>
              Last(h).Attempt? && Resolve(v, Life(v, link, Front(h)), Last(h).at, Last(h).passcode).1.Ok?
  {
    hide WrongSinceGrant, LastWrong, RevokedAt, Life;
    LifeTells(v, link, Front(h));
    var record := Life(v, link, Front(h));
    assert record.expiresAt == Created(record).expiresAt && record.passcodeHash == Created(record).passcodeHash;
    if Last(h).Attempt? {
      ResolveTells(v, record, Front(h), Last(h).at, Last(h).passcode);
    }
  }

  lemma RefusedStep(v: Verifier, link: Link, h: seq<Event>, a: nat)
    requires a < |h|
    ensures RefusedFrom(v, link, h, a) == RefusedFrom(v, link, Front(h), a) + RefusedFrom(v, link, h, |h| - 1)
  {
    assert RefusedFrom(v, link, Front(h), |h| - 1) == 0;
  }

  lemma {:induction false} RefusedIsWrong(v: Verifier, link: Link, h: seq<Event>, a: nat)
    requires link == Created(link)
    ensures RefusedFrom(v, link, h, a) == WrongFrom(v, link, h, a)
    ensures DeniedFrom(v, link, h, a) <==> NoGrantFrom(v, link, h, a)
    decreases |h|
  {
    if |h| > a {
      hide Wrong, Granted, Resolve, Life;
      var f := Front(h);
      RefusedIsWrong(v, link, f, a);
      LastIsTold(v, link, h);
      RefusedStep(v, link, h, a);
      assert f == h[..|h| - 1];
      forall i | a <= i < |f|
        ensures f[i] == h[i] && f[..i] == h[..i]
      {
      }
      if DeniedFrom(v, link, h, a) {
        forall i | a <= i < |f| && f[i].Attempt?
          ensures Resolve(v, Life(v, link, f[..i]), f[i].at, f[i].passcode).1.Err?
        {
          assert f[..i] == h[..i] && f[i] == h[i];
        }
      }
    }
  }

  /**
   * Over the life of any link: in a stretch without a grant, no more than five
   * attempts per lock time begun get as far as a hash that refuses them.
   */
  lemma GuessBound(v: Verifier, link: Link, h: seq<Event>, a: nat)
    requires link == Created(link) && a < |h| && Chronological(h) && DeniedFrom(v, link, h, a)
    ensures RefusedFrom(v, link, h, a) <= 5 * ((Last(h).at - h[a].at) / SHARE_LOCK_DURATION_MS + 1)
  {
    hide WrongFrom, NoGrantFrom, RefusedFrom, DeniedFrom;
    RefusedIsWrong(v, link, h, a);
    WrongBound(v, link, h, a);
  }

  /** The bound is the best there is: for any number of lock times, the life of some link meets it. */
  lemma GuessBoundIsMet(v: Verifier, link: Link, locks: nat, guess: string) returns (h: seq<Event>)
    requires link == Created(link) && link.expiresAt.None?
    requires link.passcodeHash.Some? && !v(link.passcodeHash.value, guess)
    ensures |h| > 0 && Chronological(h) && DeniedFrom(v, link, h, 0)
    ensures (Last(h).at - h[0].at) / SHARE_LOCK_DURATION_MS == locks
    ensures RefusedFrom(v, link, h, 0) == 5 * (locks + 1)
  {
    hide WrongFrom, NoGrantFrom, RefusedFrom, DeniedFrom, Chronological;
    h := WrongBoundIsMet(v, link, locks, guess);
    RefusedIsWrong(v, link, h, 0);
  }

  // ------------------------------------------------------- the dashboard's label

  /** What the interface is told of a link. */
  datatype Dto = Dto(
    id: Id,
    videoId: Id,
    credential: string,
    expiresAt: Option<int>,
    passcodeProtected: bool,
    revokedAt: Option<int>,
    lockedUntil: Option<int>)

  function ToDto(link: Link): Dto {
    Dto(link.id, link.videoId, link.credential, link.expiresAt, link.passcodeHash.Some?, link.revokedAt, link.lockedUntil)
  }

  datatype Label = Active | RevokedLabel | ExpiredLabel | LockedLabel

  function LabelOf(link: Dto, now: int): Label {
    if link.revokedAt.Some? then RevokedLabel
    else if link.expiresAt.Some? && link.expiresAt.value <= now then ExpiredLabel
    else if link.lockedUntil.Some? && link.lockedUntil.value > now then LockedLabel
    else Active
  }

  /**
   * The label of an interface that sees no passcode and no counter agrees with
   * the server: it is active exactly when the right passcode would be granted,
   * and otherwise it tells the refusal that every passcode would meet.
   */
  lemma LabelAgreesWithResolve(v: Verifier, link: Link, h: seq<Event>, now: int, passcode: Option<string>)
    requires Tells(v, link, h)
    ensures LabelOf(ToDto(link), now).Active? &&
            (link.passcodeHash.Some? ==>
               passcode.Some? && passcode.value != "" && v(link.passcodeHash.value, passcode.value)) <==>
            Answer(v, Created(link), h, now, passcode) == Ok(link.videoId)
    ensures LabelOf(ToDto(link), now) in {RevokedLabel, ExpiredLabel} ==>
            Answer(v, Created(link), h, now, passcode) == Err(ShareLinkExpired)
    ensures LabelOf(ToDto(link), now).LockedLabel? ==>
            Answer(v, Created(link), h, now, passcode) == Err(ShareLinkLocked)
  {
    hide WrongSinceGrant, LastWrong, RevokedAt;
  }
}
