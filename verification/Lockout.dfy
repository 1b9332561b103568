/**
 * Account lockout. The policy keeps, per account, the failures still inside the
 * rolling window and the instant a lock ends; the specification looks at the
 * whole history of the account and keeps nothing.
 */
module Lockout {
  import opened Common

  datatype Settings = Settings(maxFailures: nat, windowMs: nat, lockMs: nat)

  /** What the constructor accepts. */
  predicate Acceptable(s: Settings) {
    s.maxFailures > 0 && s.windowMs > 0 && s.lockMs > 0
  }

  /** What happened to one account: a failed attempt was recorded, or its state was cleared. */
  datatype Event = Failure(at: int) | Cleared(at: int)

  // ------------------------------------------------------- the specification

  /** The last event is a failure that counts: the account was not locked when it happened. */
  predicate Counted(s: Settings, h: seq<Event>)
    requires h != []
    decreases |h|, 0
  {
    Last(h).Failure? && !LockedAt(s, Front(h), Last(h).at)
  }

  /** The last event is a failure that locks the account: the threshold is reached within its window. */
  predicate Arms(s: Settings, h: seq<Event>)
    requires h != []
    decreases |h|, 1
  {
    Counted(s, h) && Tally(s, Front(h), Last(h).at - s.windowMs) + 1 >= s.maxFailures
  }

  /** The failures that count and happened after `since`, back to the last clearing or lock. */
  function Tally(s: Settings, h: seq<Event>, since: int): nat
    decreases |h|, 2
  {
    if h == [] || Last(h).Cleared? || Arms(s, h) then 0
    else Tally(s, Front(h), since) + if Counted(s, h) && Last(h).at > since then 1 else 0
  }

  /** Some failure since the last clearing locked the account for a time that includes `t`. */
  predicate LockedAt(s: Settings, h: seq<Event>, t: int)
    decreases |h|, 2
  {
    h != [] && !Last(h).Cleared? &&
    ((Arms(s, h) && t < Last(h).at + s.lockMs) || LockedAt(s, Front(h), t))
  }

  /** The clock never went back, up to `now`. */
  ghost predicate Chronological(h: seq<Event>, now: int) {
    && (forall i, j :: 0 <= i < j < |h| ==> h[i].at <= h[j].at)
    && (forall i :: 0 <= i < |h| ==> h[i].at <= now)
  }

  // ------------------------------------------------------------- the ledger

  datatype AccountState = AccountState(failures: seq<int>, lockedUntil: Option<int>)

  const NO_STATE := AccountState([], None)

  function CountAfter(failures: seq<int>, since: int): nat {
    if failures == [] then 0 else CountAfter(Front(failures), since) + if Last(failures) > since then 1 else 0
  }

  /** The failures still inside the window. */
  function KeepAfter(failures: seq<int>, since: int): seq<int> {
    if failures == [] then []
    else KeepAfter(Front(failures), since) + if Last(failures) > since then [Last(failures)] else []
  }

  lemma NoneToKeep(since: int)
    ensures KeepAfter([], since) == []
  {
  }

  lemma {:induction false} KeepCounts(failures: seq<int>, since: int, later: int)
    requires later >= since
    ensures |KeepAfter(failures, since)| == CountAfter(failures, since)
    ensures CountAfter(KeepAfter(failures, since), later) == CountAfter(failures, later)
  {
    if failures != [] {
      KeepCounts(Front(failures), since, later);
      var kept := KeepAfter(Front(failures), since);
      if Last(failures) > since {
        assert Front(kept + [Last(failures)]) == kept && Last(kept + [Last(failures)]) == Last(failures);
      } else {
        assert kept + [] == kept;
      }
    }
  }

  predicate LockedBy(st: AccountState, t: int) {
    st.lockedUntil.Some? && t < st.lockedUntil.value
  }

  /**
   * From `now` on, the ledger and the history give the same answers: whether the
   * account is locked, and how many failures count within any window.
   */
  ghost predicate Agrees(s: Settings, h: seq<Event>, st: AccountState, now: int) {
    && Chronological(h, now)
    && (forall t :: t >= now ==> (LockedAt(s, h, t) <==> LockedBy(st, t)))
    && (forall since :: since >= now - s.windowMs ==> Tally(s, h, since) == CountAfter(st.failures, since))
    && (st.lockedUntil.Some? ==> st.failures == [])
  }

  lemma AgreesLater(s: Settings, h: seq<Event>, st: AccountState, now: int, later: int)
    requires Agrees(s, h, st, now) && later >= now
    ensures Agrees(s, h, st, later)
  {
  }

  /** What recording a failure makes of the ledger. */
  function AfterFailure(s: Settings, st: AccountState, now: int): AccountState {
    if LockedBy(st, now) then st
    else
      var failures := if st.lockedUntil.Some? then [] else KeepAfter(st.failures, now - s.windowMs);
      if |failures| + 1 >= s.maxFailures then AccountState([], Some(now + s.lockMs))
      else AccountState(failures + [now], None)
  }

  /** How one more failure extends each notion of the specification. */
  lemma OneMoreFailure(s: Settings, h: seq<Event>, now: int)
    ensures var h' := h + [Failure(now)];
            Counted(s, h') == !LockedAt(s, h, now) &&
            Arms(s, h') == (Counted(s, h') && Tally(s, h, now - s.windowMs) + 1 >= s.maxFailures) &&
            (forall t :: LockedAt(s, h', t) <==> (Arms(s, h') && t < now + s.lockMs) || LockedAt(s, h, t)) &&
            (forall since :: Tally(s, h', since) ==
               if Arms(s, h') then 0 else Tally(s, h, since) + if Counted(s, h') && now > since then 1 else 0)
  {
    var h' := h + [Failure(now)];
    assert Front(h') == h && Last(h') == Failure(now);
  }

  lemma StaysChronological(h: seq<Event>, e: Event, now: int)
    requires Chronological(h, now) && e.at == now
    ensures Chronological(h + [e], now)
  {
  }

  /** What the ledger counts once the aged-out failures are dropped. */
  lemma KeptFailures(s: Settings, h: seq<Event>, st: AccountState, now: int)
    requires Agrees(s, h, st, now) && !LockedBy(st, now)
    ensures var kept := if st.lockedUntil.Some? then [] else KeepAfter(st.failures, now - s.windowMs);
            |kept| == Tally(s, h, now - s.windowMs) &&
            forall since :: since >= now - s.windowMs ==> CountAfter(kept, since) == Tally(s, h, since)
  {
    hide KeepAfter, Tally, LockedAt;
    var from := now - s.windowMs;
    assert Tally(s, h, from) == CountAfter(st.failures, from);
    KeepCounts(st.failures, from, from);
    forall since | since >= from
      ensures CountAfter(KeepAfter(st.failures, from), since) == CountAfter(st.failures, since)
    {
      KeepCounts(st.failures, from, since);
    }
  }

  lemma AppendCounts(failures: seq<int>, now: int)
    ensures forall since :: CountAfter(failures + [now], since) == CountAfter(failures, since) + if now > since then 1 else 0
    ensures forall since :: CountAfter([], since) == 0
  {
    assert Front(failures + [now]) == failures && Last(failures + [now]) == now;
  }

  lemma LockedFailureAgrees(s: Settings, h: seq<Event>, st: AccountState, now: int)
    requires Agrees(s, h, st, now) && LockedBy(st, now)
    ensures Agrees(s, h + [Failure(now)], st, now)
  {
    hide KeepAfter, CountAfter, Tally, LockedAt, Counted, Arms, Chronological;
    OneMoreFailure(s, h, now);
    StaysChronological(h, Failure(now), now);
  }

  lemma CountedFailureAgrees(s: Settings, h: seq<Event>, st: AccountState, now: int, kept: seq<int>)
    requires Agrees(s, h, st, now) && !LockedBy(st, now)
    requires kept == if st.lockedUntil.Some? then [] else KeepAfter(st.failures, now - s.windowMs)
    ensures Agrees(s, h + [Failure(now)],
                   if |kept| + 1 >= s.maxFailures then AccountState([], Some(now + s.lockMs))
                   else AccountState(kept + [now], None), now)
  {
    hide KeepAfter, CountAfter, Tally, LockedAt, Counted, Arms, Chronological;
    OneMoreFailure(s, h, now);
    StaysChronological(h, Failure(now), now);
    KeptFailures(s, h, st, now);
    AppendCounts(kept, now);
  }

  lemma FailureAgrees(s: Settings, h: seq<Event>, st: AccountState, now: int)
    requires Agrees(s, h, st, now)
    ensures Agrees(s, h + [Failure(now)], AfterFailure(s, st, now), now)
  {
    hide Agrees, KeepAfter;
    if LockedBy(st, now) {
      LockedFailureAgrees(s, h, st, now);
    } else {
      CountedFailureAgrees(s, h, st, now, if st.lockedUntil.Some? then [] else KeepAfter(st.failures, now - s.windowMs));
    }
  }

  lemma ClearedAgrees(s: Settings, h: seq<Event>, now: int)
    requires Chronological(h, now)
    ensures Agrees(s, h + [Cleared(now)], NO_STATE, now)
  {
  }

  // --------------------------------------------------------------- the bound

  /** How many of the events after the first `a` are failures that count. */
  function CountedFrom(s: Settings, h: seq<Event>, a: nat): nat
    decreases |h|
  {
    if |h| <= a then 0 else CountedFrom(s, Front(h), a) + if Counted(s, h) then 1 else 0
  }

  /** No clearing among the events after the first `a`, all of them less than a window apart. */
  ghost predicate ShortSpan(s: Settings, h: seq<Event>, a: nat) {
    && a < |h|
    && (forall i :: a <= i < |h| ==> h[i].Failure?)
    && h[|h| - 1].at - h[a].at < s.windowMs
  }

  /** A lock in force at one time was in force at every earlier time, as far as this history tells. */
  lemma {:induction false} LockedEarlier(s: Settings, h: seq<Event>, t: int, earlier: int)
    requires LockedAt(s, h, t) && earlier <= t
    ensures LockedAt(s, h, earlier)
    decreases |h|
  {
    if LockedAt(s, Front(h), t) {
      LockedEarlier(s, Front(h), t, earlier);
    }
  }

  // ------------------------------------------------- what being locked means

  ghost predicate Ordered(h: seq<Event>) {
    forall i, j :: 0 <= i < j < |h| ==> h[i].at <= h[j].at
  }

  /** While a lock is in force, nothing that happened since it began counts. */
  lemma {:induction false} LockedTalliesNothing(s: Settings, h: seq<Event>, t: int, since: int)
    requires LockedAt(s, h, t) && Chronological(h, t)
    ensures Tally(s, h, since) == 0
    decreases |h|
  {
    if !Arms(s, h) {
      LockedTalliesNothing(s, Front(h), t, since);
      LockedEarlier(s, Front(h), t, Last(h).at);
    }
  }

  /** The last event is a failure that met no lock and made none. */
  ghost predicate Harmless(s: Settings, h: seq<Event>)
    requires h != []
  {
    Last(h).Failure? && !LockedAt(s, Front(h), Last(h).at) && !LockedAt(s, h, Last(h).at)
  }

  lemma HarmlessCounts(s: Settings, h: seq<Event>)
    requires Acceptable(s) && h != []
    ensures Harmless(s, h) <==> Counted(s, h) && !Arms(s, h)
  {
    hide Tally;
  }

  /** A tally of at least `k` is `k` harmless failures in a row at the end, all after `since`. */
  lemma {:induction false} TallyMeans(s: Settings, h: seq<Event>, since: int, k: nat)
    requires Acceptable(s) && Ordered(h)
    ensures Tally(s, h, since) >= k <==>
              k == 0 || (k <= |h| && h[|h| - k].at > since && forall j :: |h| - k < j <= |h| ==> Harmless(s, h[..j]))
    decreases |h|
  {
    hide LockedAt, Harmless;
    if h != [] && k > 0 {
      var f := Front(h);
      assert h[..|h|] == h;
      HarmlessCounts(s, h);
      TallyMeans(s, f, since, k - 1);
      assert forall j :: 0 <= j <= |f| ==> h[..j] == f[..j];
      if Last(h).Failure? && !Counted(s, h) {
        LockedTalliesNothing(s, f, Last(h).at, since);
      }
      if Last(h).at <= since {
        TallyOfLater(s, h, since);
      }
    }
  }

  /** When the last failure is not after `since`, none is. */
  lemma TallyOfLater(s: Settings, h: seq<Event>, since: int)
    requires h != [] && Ordered(h) && Last(h).at <= since
    ensures Tally(s, h, since) == 0
    decreases |h|
  {
    if |h| > 1 {
      TallyOfLater(s, Front(h), since);
    }
  }

  /**
   * The first `n` events end in a lock that includes `t`: maxFailures failures in a row,
   * less than a window from the first to the last, of which the last met no lock and the
   * others neither met nor made one; no clearing since, and the lock time is not over.
   */
  ghost predicate LockHolds(s: Settings, h: seq<Event>, n: nat, t: int)
    requires Acceptable(s) && n <= |h|
  {
    && s.maxFailures <= n
    && h[n - 1].at - h[n - s.maxFailures].at < s.windowMs
    && t < h[n - 1].at + s.lockMs
    && (forall j :: n - s.maxFailures < j < n ==> Harmless(s, h[..j]))
    && !LockedAt(s, h[..n - 1], h[n - 1].at)
    && (forall j :: n - 1 <= j < |h| ==> h[j].Failure?)
  }

  lemma ArmsMeans(s: Settings, h: seq<Event>, t: int)
    requires Acceptable(s) && Ordered(h) && h != []
    ensures LockHolds(s, h, |h|, t) <==> Arms(s, h) && t < Last(h).at + s.lockMs
  {
    hide LockedAt, Tally, Harmless;
    var f, k := Front(h), s.maxFailures - 1;
    TallyMeans(s, f, Last(h).at - s.windowMs, k);
    assert h[..|h| - 1] == f;
    assert forall j :: 0 <= j <= |f| ==> h[..j] == f[..j];
  }

  lemma LockHoldsFront(s: Settings, h: seq<Event>, n: nat, t: int)
    requires Acceptable(s) && n < |h|
    ensures LockHolds(s, h, n, t) <==> LockHolds(s, Front(h), n, t) && Last(h).Failure?
  {
    hide LockedAt, Harmless;
    if s.maxFailures <= n {
      assert h[..n - 1] == Front(h)[..n - 1];
      assert forall j :: 0 <= j < |h| ==> h[..j] == Front(h)[..j];
    }
  }

  /** An account is locked at a time exactly when some lock holds then. */
  lemma {:induction false} LockedIff(s: Settings, h: seq<Event>, t: int)
    requires Acceptable(s) && Ordered(h)
    ensures LockedAt(s, h, t) <==> exists n: nat :: n <= |h| && LockHolds(s, h, n, t)
    decreases |h|
  {
    hide LockHolds, Arms;
    if h == [] {
      NoLockYet(s, t);
    } else {
      var f := Front(h);
      LockedIff(s, f, t);
      ArmsMeans(s, h, t);
      forall n: nat | n <= |f|
        ensures LockHolds(s, h, n, t) <==> LockHolds(s, f, n, t) && Last(h).Failure?
      {
        LockHoldsFront(s, h, n, t);
      }
      if n: nat :| n <= |f| && LockHolds(s, f, n, t) && Last(h).Failure? {
        assert LockHolds(s, h, n, t);
      }
      if n: nat :| n <= |h| && LockHolds(s, h, n, t) {
        assert n == |h| || LockHolds(s, f, n, t);
      }
      LockEndsInFailure(s, h, t);
    }
  }

  lemma NoLockYet(s: Settings, t: int)
    requires Acceptable(s)
    ensures forall n: nat :: n <= 0 ==> !LockHolds(s, [], n, t)
  {
  }

  lemma LockEndsInFailure(s: Settings, h: seq<Event>, t: int)
    requires Acceptable(s) && h != []
    ensures forall n: nat :: n <= |h| && LockHolds(s, h, n, t) ==> Last(h).Failure?
  {
    assert Last(h) == h[|h| - 1];
  }

  /** Either the whole span is still in the tally, or it already locked the account past its end. */
  ghost predicate SpanHeld(s: Settings, h: seq<Event>, a: nat, end: int) {
    var counted := CountedFrom(s, h, a);
    || (counted < s.maxFailures && counted <= Tally(s, h, end - s.windowMs))
    || (counted <= s.maxFailures && LockedAt(s, h, end))
  }

  lemma SpanStep(s: Settings, f: seq<Event>, a: nat, at: int, end: int)
    requires Acceptable(s) && s.lockMs >= s.windowMs
    requires a <= |f| && at <= end < at + s.windowMs
    requires SpanHeld(s, f, a, end)
    ensures SpanHeld(s, f + [Failure(at)], a, end)
  {
    hide LockedAt, Tally, Counted, Arms;
    var h := f + [Failure(at)];
    assert Front(h) == f;
    OneMoreFailure(s, f, at);
    TallyGrowsBackward(s, f, end - s.windowMs, at - s.windowMs);
    if LockedAt(s, f, end) {
      LockedEarlier(s, f, end, at);
    }
  }

  lemma {:induction false} SpanInvariant(s: Settings, h: seq<Event>, a: nat, end: int)
    requires Acceptable(s) && s.lockMs >= s.windowMs
    requires a <= |h| && Chronological(h, end)
    requires a < |h| ==> end - h[a].at < s.windowMs
    requires forall i :: a <= i < |h| ==> h[i].Failure?
    ensures SpanHeld(s, h, a, end)
    decreases |h|
  {
    if |h| > a {
      var f, e := Front(h), Last(h);
      assert f == h[..|f|] && h == f + [Failure(e.at)];
      SpanInvariant(s, f, a, end);
      SpanStep(s, f, a, e.at, end);
    }
  }

  /** An earlier starting point counts no less. */
  lemma {:induction false} TallyGrowsBackward(s: Settings, h: seq<Event>, since: int, earlier: int)
    requires earlier <= since
    ensures Tally(s, h, since) <= Tally(s, h, earlier)
    decreases |h|
  {
    if h != [] {
      TallyGrowsBackward(s, Front(h), since, earlier);
    }
  }

  /** With locks as long as the window, any shorter span without a clearing has at most maxFailures counted failures. */
  lemma SpanBound(s: Settings, h: seq<Event>, a: nat)
    requires Acceptable(s) && s.lockMs >= s.windowMs
    requires ShortSpan(s, h, a) && Chronological(h, h[|h| - 1].at)
    ensures CountedFrom(s, h, a) <= s.maxFailures
  {
    SpanInvariant(s, h, a, h[|h| - 1].at);
  }

  /** The given number of failures, all at time 0. */
  function Burst(n: nat): seq<Event> {
    if n == 0 then [] else Burst(n - 1) + [Failure(0)]
  }

  lemma {:induction false} BurstCounts(s: Settings, n: nat)
    requires Acceptable(s) && n < s.maxFailures
    ensures |Burst(n)| == n && forall i :: 0 <= i < n ==> Burst(n)[i] == Failure(0)
    ensures forall t :: !LockedAt(s, Burst(n), t)
    ensures Tally(s, Burst(n), 0 - s.windowMs) == n
    ensures CountedFrom(s, Burst(n), 0) == n
  {
    if n > 0 {
      BurstCounts(s, n - 1);
      OneMoreFailure(s, Burst(n - 1), 0);
      assert Front(Burst(n)) == Burst(n - 1);
    }
  }

  /** One failure more than a burst below the threshold: the account is locked for the lock time. */
  lemma BurstArms(s: Settings, armed: seq<Event>)
    requires Acceptable(s) && armed == Burst(s.maxFailures - 1) + [Failure(0)]
    ensures |armed| == s.maxFailures && forall i :: 0 <= i < |armed| ==> armed[i] == Failure(0)
    ensures CountedFrom(s, armed, 0) == s.maxFailures
    ensures !LockedAt(s, armed, s.lockMs)
    ensures forall since :: Tally(s, armed, since) == 0
  {
    hide LockedAt, Tally, Counted, Arms;
    var most := Burst(s.maxFailures - 1);
    BurstCounts(s, s.maxFailures - 1);
    OneMoreFailure(s, most, 0);
    assert Front(armed) == most;
  }

  /** With locks shorter than the window the bound fails: a full burst, and one more failure when the lock ends. */
  lemma ShortLocksBreakBound(s: Settings) returns (h: seq<Event>)
    requires Acceptable(s) && s.lockMs < s.windowMs
    ensures ShortSpan(s, h, 0) && Chronological(h, h[|h| - 1].at)
    ensures CountedFrom(s, h, 0) == s.maxFailures + 1
  {
    hide LockedAt, Tally, Counted, Arms, Burst;
    var armed := Burst(s.maxFailures - 1) + [Failure(0)];
    BurstArms(s, armed);
    h := armed + [Failure(s.lockMs)];
    OneMoreFailure(s, armed, s.lockMs);
    assert Front(h) == armed;
  }

  /** The bound holds for every history exactly when locks last at least as long as the window. */
  lemma SpanBoundIffLongLocks(s: Settings)
    requires Acceptable(s)
    ensures s.lockMs >= s.windowMs <==>
              forall h: seq<Event>, a: nat :: ShortSpan(s, h, a) && Chronological(h, h[|h| - 1].at) ==>
                CountedFrom(s, h, a) <= s.maxFailures
  {
    if s.lockMs >= s.windowMs {
      forall h: seq<Event>, a: nat | ShortSpan(s, h, a) && Chronological(h, h[|h| - 1].at)
        ensures CountedFrom(s, h, a) <= s.maxFailures
      {
        SpanBound(s, h, a);
      }
    } else {
      var h := ShortLocksBreakBound(s);
      assert CountedFrom(s, h, 0) > s.maxFailures;
    }
  }

  // --------------------------------------------------------------- the policy

  function StateOf(accounts: map<string, AccountState>, key: string): AccountState {
    if key in accounts then accounts[key] else NO_STATE
  }

  function HistoryOf(history: map<string, seq<Event>>, key: string): seq<Event> {
    if key in history then history[key] else []
  }

  /** Every account's ledger agrees with its history. */
  ghost predicate AllAgree(s: Settings, history: map<string, seq<Event>>, accounts: map<string, AccountState>, now: int) {
    forall key :: Agrees(s, HistoryOf(history, key), StateOf(accounts, key), now)
  }

  lemma OneAgrees(s: Settings, history: map<string, seq<Event>>, accounts: map<string, AccountState>, now: int, key: string)
    requires AllAgree(s, history, accounts, now)
    ensures Agrees(s, HistoryOf(history, key), StateOf(accounts, key), now)
  {
  }

  lemma AllAgreeLater(s: Settings, history: map<string, seq<Event>>, accounts: map<string, AccountState>, now: int, later: int)
    requires AllAgree(s, history, accounts, now) && later >= now
    ensures AllAgree(s, history, accounts, later)
  {
    forall key
      ensures Agrees(s, HistoryOf(history, key), StateOf(accounts, key), later)
    {
      AgreesLater(s, HistoryOf(history, key), StateOf(accounts, key), now, later);
    }
  }

  /** One account's history and ledger move together; the others stay. */
  lemma OneAccountMoves(s: Settings, history: map<string, seq<Event>>, accounts: map<string, AccountState>, now: int,
                        key: string, grown: seq<Event>, moved: map<string, AccountState>)
    requires AllAgree(s, history, accounts, now)
    requires Agrees(s, grown, StateOf(moved, key), now)
    requires moved - {key} == accounts - {key}
    ensures AllAgree(s, history[key := grown], moved, now)
  {
    forall other
      ensures Agrees(s, HistoryOf(history[key := grown], other), StateOf(moved, other), now)
    {
      if other != key {
        assert other in moved <==> other in moved - {key};
        assert other in accounts <==> other in accounts - {key};
        assert StateOf(moved, other) == StateOf(accounts, other);
        assert Agrees(s, HistoryOf(history, other), StateOf(accounts, other), now);
      }
    }
  }

  /** Writing an account's history back unchanged changes no agreement. */
  lemma WrittenBack(s: Settings, history: map<string, seq<Event>>, accounts: map<string, AccountState>, now: int, key: string)
    requires AllAgree(s, history[key := HistoryOf(history, key)], accounts, now)
    ensures AllAgree(s, history, accounts, now)
  {
    hide Agrees;
    var same := history[key := HistoryOf(history, key)];
    forall other
      ensures Agrees(s, HistoryOf(history, other), StateOf(accounts, other), now)
    {
      assert HistoryOf(same, other) == HistoryOf(history, other);
      assert Agrees(s, HistoryOf(same, other), StateOf(accounts, other), now);
    }
  }

  class InMemoryLockoutPolicy {
    const settings: Settings
    /** The normalized form of an email, under which its account is kept. */
    const normalize: string -> string
    var accounts: map<string, AccountState>
    /** The full history of every account, and the latest time the clock showed. */
    ghost var history: map<string, seq<Event>>
    ghost var latest: int

    constructor (settings: Settings, normalize: string -> string, now: int)
      requires Acceptable(settings)
      ensures Valid() && history == map[] && latest == now
      ensures this.settings == settings && this.normalize == normalize
    {
      this.settings, this.normalize := settings, normalize;
      accounts, history, latest := map[], map[], now;
    }

    /** Every account's ledger agrees with its history from the latest time on. */
    ghost predicate Valid()
      reads this
    {
      Acceptable(settings) && AllAgree(settings, history, accounts, latest)
    }

    /** Whether the account is locked. A lock that is over is cleared away; this changes no answer. */
    method IsLocked(email: string, now: int) returns (locked: bool)
      requires Valid() && now >= latest
      modifies this`accounts, this`latest
      ensures Valid() && latest == now
      ensures locked == LockedAt(settings, HistoryOf(history, normalize(email)), now)
    {
      hide Tally, LockedAt, AllAgree;
      AllAgreeLater(settings, history, accounts, latest, now);
      latest := now;
      var key := normalize(email);
      ghost var h := HistoryOf(history, key);
      OneAgrees(settings, history, accounts, now, key);
      if key !in accounts {
        return false;
      }
      var state := accounts[key];
      if state.lockedUntil.Some? {
        if now < state.lockedUntil.value {
          return true;
        }
        OneAccountMoves(settings, history, accounts, now, key, h, accounts - {key});
        WrittenBack(settings, history, accounts - {key}, now, key);
        accounts := accounts - {key};
      }
      locked := false;
    }

    /** Record a failed attempt; reaching the threshold within the window locks the account. */
    method RecordFailure(email: string, now: int)
      requires Valid() && now >= latest
      modifies this
      ensures Valid() && latest == now
      ensures history == old(history)[normalize(email) := old(HistoryOf(history, normalize(email))) + [Failure(now)]]
    {
      hide AllAgree, Agrees, KeepAfter;
      AllAgreeLater(settings, history, accounts, latest, now);
      latest := now;
      var key := normalize(email);
      ghost var was, before := accounts, StateOf(accounts, key);
      ghost var h := HistoryOf(history, key);
      OneAgrees(settings, history, accounts, now, key);
      FailureAgrees(settings, h, before, now);
      var state := StateOf(accounts, key);
      if state.lockedUntil.Some? && now >= state.lockedUntil.value {
        state := NO_STATE;
      }
      if state.lockedUntil.Some? {
        accounts := accounts[key := state];
      } else {
        var failures := DropOld(state.failures, now - settings.windowMs);
        NoneToKeep(now - settings.windowMs);
        failures := failures + [now];
        if |failures| >= settings.maxFailures {
          state := AccountState([], Some(now + settings.lockMs));
        } else {
          state := AccountState(failures, None);
        }
        accounts := accounts[key := state];
      }
      assert StateOf(accounts, key) == AfterFailure(settings, before, now);
      OneAccountMoves(settings, history, was, now, key, h + [Failure(now)], accounts);
      history := history[key := h + [Failure(now)]];
    }

    /** Clear all failure and lock state after a successful login. */
    method Reset(email: string, now: int)
      requires Valid() && now >= latest
      modifies this
      ensures Valid() && latest == now
      ensures history == old(history)[normalize(email) := old(HistoryOf(history, normalize(email))) + [Cleared(now)]]
    {
      hide AllAgree, Tally, LockedAt;
      AllAgreeLater(settings, history, accounts, latest, now);
      latest := now;
      var key := normalize(email);
      ghost var h := HistoryOf(history, key);
      OneAgrees(settings, history, accounts, now, key);
      ClearedAgrees(settings, h, now);
      OneAccountMoves(settings, history, accounts, now, key, h + [Cleared(now)], accounts - {key});
      history := history[key := h + [Cleared(now)]];
      accounts := accounts - {key};
    }
  }

  /** `failures.filter((t) => t > windowStart)`. */
  method DropOld(failures: seq<int>, windowStart: int) returns (kept: seq<int>)
    ensures kept == KeepAfter(failures, windowStart)
  {
    kept := [];
    for i := 0 to |failures|
      invariant kept == KeepAfter(failures[..i], windowStart)
    {
      assert failures[..i + 1] == failures[..i] + [failures[i]];
      assert Front(failures[..i + 1]) == failures[..i];
      if failures[i] > windowStart {
        kept := kept + [failures[i]];
      }
    }
    assert failures[..|failures|] == failures;
  }
}
