/**
 * Notifications: created for events, marked read, and delivered when their
 * member comes back. The emitter may refuse any of them at any time, and the
 * store may fail to mark one that was emitted.
 */
module Notifications {
  import opened Common

  type Id = string

  datatype Notification = Notification(
    id: Id,
    memberId: Id,
    eventType: string,
    sourceResourceId: Id,
    createdAt: int,
    readAt: Option<int>,
    deliveredAt: Option<int>)

  datatype Preference = Preference(eventType: string, enabled: bool)

  datatype Error = NotFound | Conflict | EmitterFailed | StoreFailed

  /** Only an explicit refusal of the event type suppresses it. */
  function EventEnabled(preferences: seq<Preference>, eventType: string): bool {
    if preferences == [] then true
    else if preferences[0].eventType == eventType then preferences[0].enabled
    else EventEnabled(preferences[1..], eventType)
  }

  lemma {:induction false} EventEnabledMeans(preferences: seq<Preference>, eventType: string)
    ensures !EventEnabled(preferences, eventType) <==>
              exists i :: 0 <= i < |preferences| && preferences[i] == Preference(eventType, false) &&
                forall j :: 0 <= j < i ==> preferences[j].eventType != eventType
  {
    if preferences != [] && preferences[0].eventType != eventType {
      var rest := preferences[1..];
      EventEnabledMeans(rest, eventType);
      if i :| 0 <= i < |rest| && rest[i] == Preference(eventType, false) && forall j :: 0 <= j < i ==> rest[j].eventType != eventType {
        assert preferences[i + 1] == rest[i];
        assert forall j :: 0 < j <= i ==> preferences[j] == rest[j - 1];
      }
      if i :| 0 <= i < |preferences| && preferences[i] == Preference(eventType, false) &&
              forall j :: 0 <= j < i ==> preferences[j].eventType != eventType {
        assert rest[i - 1] == preferences[i];
        assert forall j :: 0 <= j < i - 1 ==> rest[j] == preferences[j + 1];
      }
    }
  }

  /** What awaits delivery to a member. */
  function PendingFor(store: map<Id, Notification>, memberId: Id): set<Id> {
    set id | id in store && store[id].memberId == memberId && store[id].deliveredAt.None?
  }

  /**
   * Each notification was emitted as often as it was to be marked: once if it is
   * marked, and once more for each time the marking failed.
   */
  ghost predicate Accounted(store: map<Id, Notification>, emitted: seq<Id>, unmarked: seq<Id>) {
    && (forall id :: id in store ==> store[id].id == id)
    && (forall id :: multiset(emitted)[id] == multiset(unmarked)[id] + if IsDelivered(store, id) then 1 else 0)
    && (forall id :: id in unmarked ==> id in store)
  }

  predicate IsDelivered(store: map<Id, Notification>, id: Id) {
    id in store && store[id].deliveredAt.Some?
  }

  /** What is marked was emitted exactly once exactly when none of its markings failed; what is not marked, never then. */
  lemma OnceUnlessUnmarked(store: map<Id, Notification>, emitted: seq<Id>, unmarked: seq<Id>, id: Id)
    requires Accounted(store, emitted, unmarked) && id in store
    ensures id !in unmarked <==> multiset(emitted)[id] == if IsDelivered(store, id) then 1 else 0
  {
    assert id in unmarked <==> id in multiset(unmarked);
  }

  /** The notifications with some of them marked as delivered. */
  function Marked(store: map<Id, Notification>, ids: seq<Id>, now: int): map<Id, Notification>
    requires forall id :: id in ids ==> id in store
  {
    map id | id in store :: if id in ids then store[id].(deliveredAt := Some(now)) else store[id]
  }

  ghost predicate InCreationOrder(store: map<Id, Notification>, ids: seq<Id>) {
    && (forall id :: id in ids ==> id in store)
    && (forall i, j :: 0 <= i < j < |ids| ==> store[ids[i]].createdAt <= store[ids[j]].createdAt)
  }

  /** The earliest of some notifications. */
  method Earliest(store: map<Id, Notification>, among: set<Id>) returns (least: Id)
    requires among != {} && forall id :: id in among ==> id in store
    ensures least in among && forall id :: id in among ==> store[least].createdAt <= store[id].createdAt
  {
    least :| least in among;
    var rest := among - {least};
    while rest != {}
      invariant least in among && rest <= among
      invariant forall id :: id in among && id !in rest ==> store[least].createdAt <= store[id].createdAt
      decreases rest
    {
      var id :| id in rest;
      rest := rest - {id};
      if store[id].createdAt < store[least].createdAt {
        least := id;
      }
    }
  }

  /** Notifications in order of creation, those of one instant in any order. */
  method Sorted(store: map<Id, Notification>, among: set<Id>) returns (ids: seq<Id>)
    requires forall id :: id in among ==> id in store
    ensures InCreationOrder(store, ids)
    ensures forall id :: id in ids <==> id in among
    ensures forall i, j :: 0 <= i < j < |ids| ==> ids[i] != ids[j]
  {
    ids := [];
    var rest := among;
    while rest != {}
      invariant rest <= among
      invariant forall id :: id in ids <==> id in among && id !in rest
      invariant InCreationOrder(store, ids)
      invariant forall i, j :: 0 <= i < j < |ids| ==> ids[i] != ids[j]
      invariant forall x, y :: x in ids && y in rest ==> store[x].createdAt <= store[y].createdAt
      decreases rest
    {
      var least := Earliest(store, rest);
      ids := ids + [least];
      rest := rest - {least};
    }
  }

  class NotificationService {
    var store: map<Id, Notification>
    /** Every id the emitter accepted, in order, and those of them that the store then failed to mark. */
    ghost var emitted: seq<Id>
    ghost var unmarked: seq<Id>

    constructor ()
      ensures Valid() && store == map[] && emitted == [] && unmarked == []
    {
      store, emitted, unmarked := map[], [], [];
    }

    ghost predicate Valid()
      reads this
    {
      Accounted(store, emitted, unmarked)
    }

    /** Record a notification, undelivered and unread, unless the member refuses events of its type. */
    method Create(memberId: Id, eventType: string, source: Id, preferences: seq<Preference>, now: int, newId: Id)
      returns (created: Result<Option<Notification>, Error>)
      requires Valid()
      modifies this`store
      ensures Valid()
      ensures !EventEnabled(preferences, eventType) ==> created == Ok(None) && store == old(store)
      // The first preference for the type decides; without one the event is wanted.
      ensures created == Ok(None) <==>
                exists i :: 0 <= i < |preferences| && preferences[i] == Preference(eventType, false) &&
                  forall j :: 0 <= j < i ==> preferences[j].eventType != eventType
      ensures EventEnabled(preferences, eventType) && newId in old(store) ==> created == Err(Conflict) && store == old(store)
      ensures EventEnabled(preferences, eventType) && newId !in old(store) ==>
                created == Ok(Some(Notification(newId, memberId, eventType, source, now, None, None))) &&
                store == old(store)[newId := Notification(newId, memberId, eventType, source, now, None, None)]
    {
      EventEnabledMeans(preferences, eventType);
      if !EventEnabled(preferences, eventType) {
        return Ok(None);
      }
      if newId in store {
        return Err(Conflict);
      }
      var record := Notification(newId, memberId, eventType, source, now, None, None);
      store := store[newId := record];
      created := Ok(Some(record));
    }

    /** Only the member's own notification is marked, and only the first time counts. */
    method MarkRead(memberId: Id, notificationId: Id, now: int) returns (refusal: Option<Error>)
      requires Valid()
      modifies this`store
      ensures Valid()
      ensures refusal == if notificationId in old(store) && old(store)[notificationId].memberId == memberId then None
                         else Some(NotFound)
      ensures refusal.Some? || old(store)[notificationId].readAt.Some? ==> store == old(store)
      ensures refusal.None? && old(store)[notificationId].readAt.None? ==>
                store == old(store)[notificationId := old(store)[notificationId].(readAt := Some(now))]
    {
      if notificationId !in store || store[notificationId].memberId != memberId {
        return Some(NotFound);
      }
      var notification := store[notificationId];
      if notification.readAt.Some? {
        return None;
      }
      store := store[notificationId := notification.(readAt := Some(now))];
      refusal := None;
    }

    /**
     * Deliver what awaits the member, oldest first, until the emitter refuses one
     * or the store fails. What was emitted and marked is not emitted again; what
     * was emitted and not marked stays pending, and so does the rest.
     */
    method DeliverPending(memberId: Id, refuses: Id -> bool, saveFails: Id -> bool, now: int)
      returns (failure: Option<Error>, ghost delivered: seq<Id>)
      requires Valid()
      modifies this
      ensures Valid()
      ensures IsPart(delivered, PendingFor(old(store), memberId)) && InCreationOrder(old(store), delivered)
      ensures store == Marked(old(store), delivered, now)
      ensures forall id :: id in delivered ==> !refuses(id) && !saveFails(id)
      ensures failure.None? ==> PendingFor(store, memberId) == {}
      ensures failure.Some? ==>
                failure.value in {EmitterFailed, StoreFailed} &&
                exists id :: IsOldest(store, PendingFor(store, memberId), id) && (refuses(id) || saveFails(id)) &&
                  failure.value == (if refuses(id) then EmitterFailed else StoreFailed) &&
                  Counted(old(emitted), old(unmarked), emitted, unmarked, delivered, if refuses(id) then [] else [id])
      ensures failure.None? ==> Counted(old(emitted), old(unmarked), emitted, unmarked, delivered, [])
      ensures forall i, j :: 0 <= i < j < |delivered| ==>
                delivered[i] in old(store) && delivered[j] in old(store) &&
                old(store)[delivered[i]].createdAt <= old(store)[delivered[j]].createdAt
      // Only what is the member's own and undelivered is emitted or marked; without a failure all of it is.
      ensures old(emitted) + delivered <= emitted
      ensures forall id :: id in delivered || id in emitted[|old(emitted)|..] ==>
                id in old(store) && old(store)[id].memberId == memberId && old(store)[id].deliveredAt.None?
      ensures store.Keys == old(store).Keys
      ensures forall id :: id in store ==>
                store[id] == if id in delivered then old(store)[id].(deliveredAt := Some(now)) else old(store)[id]
      ensures failure.None? ==>
                forall id :: id in store && store[id].memberId == memberId ==> store[id].deliveredAt.Some?
    {
      hide Accounted, IsOldest, Marked, InCreationOrder, PendingFor, IsPart;
      var all := PendingFor(store, memberId);
      PendingIsKnown(store, memberId);
      var pending := Sorted(store, all);
      ghost var before := store;
      SortedIsPart(pending, all);
      NoneMarked(store, now);
      for i := 0 to |pending|
        invariant forall id :: id in pending[..i] ==> id in before
        invariant forall id :: id in pending[..i] ==> !refuses(id) && !saveFails(id)
        invariant store == Marked(before, pending[..i], now)
        invariant emitted == old(emitted) + pending[..i] && unmarked == old(unmarked)
      {
        assert pending[..i + 1] == pending[..i] + [pending[i]];
        assert pending[i] in pending && pending[i] !in pending[..i];
        StillPending(before, memberId, pending, i, now);
        Delivered(before, old(emitted), old(unmarked), memberId, pending, i, now);
        MarkOne(before, pending[..i], pending[i], now);
        var notification := store[pending[i]].(deliveredAt := Some(now));
        if refuses(pending[i]) {
          DeliveryTells(before, memberId, pending[..i], [], now, old(emitted));
          return Some(EmitterFailed), pending[..i];
        }
        emitted := emitted + [pending[i]];
        if saveFails(pending[i]) {
          unmarked := unmarked + [pending[i]];
          DeliveryTells(before, memberId, pending[..i], [pending[i]], now, old(emitted));
          OneMoreUnmarked(store, old(emitted) + pending[..i], old(unmarked), pending[i]);
          return Some(StoreFailed), pending[..i];
        }
        store := store[pending[i] := notification];
      }
      assert pending[..|pending|] == pending;
      Delivered(before, old(emitted), old(unmarked), memberId, pending, |pending|, now);
      NothingPending(before, memberId, pending, now);
      DeliveryTells(before, memberId, pending, [], now, old(emitted));
      NothingLeft(store, memberId);
      failure, delivered := None, pending;
    }
  }

  /** One failed marking, and what is said to be delivered exactly once is emitted twice. */
  method EmitTwice(memberId: Id, now: int, id: Id) returns (service: NotificationService)
    ensures fresh(service) && service.Valid() && id in service.store && IsDelivered(service.store, id)
    ensures service.emitted == [id, id] && multiset(service.emitted)[id] == 2
  {
    hide Accounted;
    service := new NotificationService();
    var created := service.Create(memberId, "comment", "video", [], now, id);
    assert PendingFor(service.store, memberId) == {id};
    var first, none := service.DeliverPending(memberId, other => false, other => true, now);
    OnlyOne(none, id);
    var second, one := service.DeliverPending(memberId, other => false, other => false, now);
    OnlyOne(one, id);
    assert id !in PendingFor(service.store, memberId);
  }

  /** Some of one, none twice. */
  lemma OnlyOne(ids: seq<Id>, id: Id)
    requires IsPart(ids, {id})
    ensures ids == [] || ids == [id]
  {
    if ids != [] {
      assert ids[0] in ids && Last(ids) in ids;
    }
  }

  /** What a delivery adds to the emissions and to the failed markings. */
  ghost predicate Counted(emittedBefore: seq<Id>, unmarkedBefore: seq<Id>, emitted: seq<Id>, unmarked: seq<Id>,
                          delivered: seq<Id>, failed: seq<Id>)
  {
    emitted == emittedBefore + delivered + failed && unmarked == unmarkedBefore + failed
  }

  ghost predicate IsOldest(store: map<Id, Notification>, among: set<Id>, id: Id) {
    && id in among
    && forall other :: other in among ==> id in store && other in store && store[id].createdAt <= store[other].createdAt
  }

  /** Some of a set, none twice. */
  ghost predicate IsPart(ids: seq<Id>, all: set<Id>) {
    && (forall id :: id in ids ==> id in all)
    && (forall i, j :: 0 <= i < j < |ids| ==> ids[i] != ids[j])
  }

  lemma SortedIsPart(ids: seq<Id>, all: set<Id>)
    requires forall id :: id in ids <==> id in all
    requires forall i, j :: 0 <= i < j < |ids| ==> ids[i] != ids[j]
    ensures IsPart(ids, all)
  {
  }

  lemma PendingIsKnown(store: map<Id, Notification>, memberId: Id)
    ensures forall id :: id in PendingFor(store, memberId) ==> id in store
  {
  }

  /** What a delivery emitted and marked was the member's own and undelivered, and goes by the time of creation. */
  lemma DeliveryTells(before: map<Id, Notification>, memberId: Id, delivered: seq<Id>, failed: seq<Id>, now: int,
                      emitted: seq<Id>)
    requires IsPart(delivered, PendingFor(before, memberId)) && InCreationOrder(before, delivered)
    requires forall id :: id in failed ==> id in PendingFor(before, memberId)
    ensures forall id :: id in delivered || id in (emitted + delivered + failed)[|emitted|..] ==>
              id in before && before[id].memberId == memberId && before[id].deliveredAt.None?
    ensures forall i, j :: 0 <= i < j < |delivered| ==>
              delivered[i] in before && delivered[j] in before &&
              before[delivered[i]].createdAt <= before[delivered[j]].createdAt
    ensures forall id :: id in delivered ==> id in before
    ensures Marked(before, delivered, now).Keys == before.Keys
    ensures forall id :: id in before ==>
              Marked(before, delivered, now)[id] ==
              if id in delivered then before[id].(deliveredAt := Some(now)) else before[id]
  {
    assert (emitted + delivered + failed)[|emitted|..] == delivered + failed;
  }

  lemma NothingLeft(store: map<Id, Notification>, memberId: Id)
    requires PendingFor(store, memberId) == {}
    ensures forall id :: id in store && store[id].memberId == memberId ==> store[id].deliveredAt.Some?
  {
    forall id | id in store && store[id].memberId == memberId
      ensures store[id].deliveredAt.Some?
    {
      assert id !in PendingFor(store, memberId);
    }
  }

  lemma NoneMarked(store: map<Id, Notification>, now: int)
    ensures Marked(store, [], now) == store
  {
  }

  lemma MarkOne(store: map<Id, Notification>, ids: seq<Id>, id: Id, now: int)
    requires id in store && id !in ids && forall other :: other in ids ==> other in store
    ensures var after := Marked(store, ids, now);
            after.Keys == store.Keys && Marked(store, ids + [id], now) == after[id := after[id].(deliveredAt := Some(now))]
  {
  }

  lemma NothingPending(before: map<Id, Notification>, memberId: Id, pending: seq<Id>, now: int)
    requires forall id :: id in pending <==> id in PendingFor(before, memberId)
    ensures PendingFor(Marked(before, pending, now), memberId) == {}
  {
  }

  lemma CountOf(ids: seq<Id>, id: Id)
    requires forall i, j :: 0 <= i < j < |ids| ==> ids[i] != ids[j]
    ensures multiset(ids)[id] == if id in ids then 1 else 0
    decreases |ids|
  {
    if ids != [] {
      CountOf(Front(ids), id);
      assert ids == Front(ids) + [Last(ids)];
    }
  }

  /** Emitting and marking the first of what is pending keeps every notification accounted for. */
  lemma Delivered(before: map<Id, Notification>, emitted: seq<Id>, unmarked: seq<Id>, memberId: Id, pending: seq<Id>, i: nat,
                  now: int)
    requires i <= |pending| && Accounted(before, emitted, unmarked)
    requires IsPart(pending, PendingFor(before, memberId)) && InCreationOrder(before, pending)
    ensures IsPart(pending[..i], PendingFor(before, memberId)) && InCreationOrder(before, pending[..i])
    ensures Accounted(Marked(before, pending[..i], now), emitted + pending[..i], unmarked)
  {
    var some := pending[..i];
    assert forall id :: id in some ==> id in pending;
    var after, more := Marked(before, some, now), emitted + some;
    forall id
      ensures multiset(more)[id] == multiset(unmarked)[id] + if IsDelivered(after, id) then 1 else 0
    {
      CountOf(some, id);
      assert multiset(more)[id] == multiset(emitted)[id] + multiset(some)[id];
    }
  }

  /** One more emission whose marking failed. */
  lemma OneMoreUnmarked(store: map<Id, Notification>, emitted: seq<Id>, unmarked: seq<Id>, id: Id)
    requires Accounted(store, emitted, unmarked) && id in store
    ensures Accounted(store, emitted + [id], unmarked + [id])
  {
  }

  /** An interrupted delivery leaves pending the refused notification and those after it. */
  lemma StillPending(before: map<Id, Notification>, memberId: Id, pending: seq<Id>, i: nat, now: int)
    requires i < |pending| && IsPart(pending, PendingFor(before, memberId)) && InCreationOrder(before, pending)
    requires forall id :: id in PendingFor(before, memberId) ==> id in pending
    ensures forall id :: id in pending[..i] ==> id in before
    ensures var after := Marked(before, pending[..i], now);
            IsOldest(after, PendingFor(after, memberId), pending[i])
  {
    var some := pending[..i];
    assert forall id :: id in some ==> id in pending;
    var after := Marked(before, some, now);
    assert pending[i] in pending && pending[i] !in some;
    forall id | id in PendingFor(after, memberId)
      ensures after[pending[i]].createdAt <= after[id].createdAt
    {
      assert id !in some && id in PendingFor(before, memberId);
      var k :| 0 <= k < |pending| && pending[k] == id;
      assert forall m :: 0 <= m < i ==> pending[m] == some[m] && some[m] in some;
    }
  }
}
