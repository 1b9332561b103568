/**
 * The folder hierarchy: creating, moving and deleting folders, with the cap on
 * nesting. A move collects the subtree by recursion, recomputes the depths
 * breadth-first, and only then writes the folders one by one.
 */
module Folders {
  import opened Common

  /** Permitted nesting: depths 0 to 9. */
  const MAX_FOLDER_NESTING_DEPTH := 10
  const NAME_MIN_LENGTH := 1
  const NAME_MAX_LENGTH := 255

  type Id = string

  datatype Folder = Folder(id: Id, projectId: Id, parentFolderId: Option<Id>, name: string, depth: int)

  /** The folder table, by primary key. */
  type Table = map<Id, Folder>

  datatype Error = NotFound | ValidationFailed | Conflict

  // ------------------------------------------------------------------ forests

  /** What the table says about one folder and its parent. */
  predicate Consistent(t: Table, x: Id)
    requires x in t
  {
    && t[x].id == x
    && 0 <= t[x].depth < MAX_FOLDER_NESTING_DEPTH
    && match t[x].parentFolderId
       case None => t[x].depth == 0
       case Some(p) => p in t && t[p].projectId == t[x].projectId && t[x].depth == t[p].depth + 1
  }

  /** The folders of each project form a forest whose depths are right and below the cap. */
  predicate WellFormed(t: Table) {
    forall x :: x in t ==> Consistent(t, x)
  }

  /** `x` is `root` or lies below it. */
  predicate InSubtree(t: Table, x: Id, root: Id)
    requires WellFormed(t) && x in t
    decreases t[x].depth
  {
    assert Consistent(t, x);
    x == root ||
    (t[x].parentFolderId.Some? &&
     (assert Consistent(t, t[x].parentFolderId.value); InSubtree(t, t[x].parentFolderId.value, root)))
  }

  lemma {:induction false} SubtreeIsBelow(t: Table, x: Id, root: Id)
    requires WellFormed(t) && x in t && root in t && InSubtree(t, x, root)
    ensures t[root].depth <= t[x].depth && (t[root].depth == t[x].depth ==> x == root)
    ensures t[root].projectId == t[x].projectId
    decreases t[x].depth
  {
    assert Consistent(t, x);
    if x != root {
      assert Consistent(t, t[x].parentFolderId.value);
      SubtreeIsBelow(t, t[x].parentFolderId.value, root);
    }
  }

  lemma {:induction false} SubtreeIsTransitive(t: Table, x: Id, y: Id, z: Id)
    requires WellFormed(t) && x in t && y in t && InSubtree(t, x, y) && InSubtree(t, y, z)
    ensures InSubtree(t, x, z)
    decreases t[x].depth
  {
    assert Consistent(t, x);
    if x != y {
      assert Consistent(t, t[x].parentFolderId.value);
      SubtreeIsTransitive(t, t[x].parentFolderId.value, y, z);
    }
  }

  /** The n-th folder on the way up from `x`, 0 being `x` itself. */
  function Ancestor(t: Table, x: Id, n: nat): Option<Id>
    requires WellFormed(t) && x in t
    decreases n
  {
    assert Consistent(t, x);
    if n == 0 then Some(x)
    else match t[x].parentFolderId
      case None => None
      case Some(p) => Ancestor(t, p, n - 1)
  }

  /** Every parent chain ends at a root after as many steps as the depth says, without repeating a folder. */
  lemma {:induction false} ParentChainEnds(t: Table, x: Id, n: nat)
    requires WellFormed(t) && x in t
    ensures Ancestor(t, x, n).Some? <==> n <= t[x].depth
    ensures Ancestor(t, x, n).Some? ==>
              Ancestor(t, x, n).value in t && t[Ancestor(t, x, n).value].depth == t[x].depth - n
    ensures n > 0 ==> Ancestor(t, x, n) != Some(x)
    decreases n
  {
    assert Consistent(t, x);
    if n > 0 && t[x].parentFolderId.Some? {
      ParentChainEnds(t, t[x].parentFolderId.value, n - 1);
    }
  }

  /** Some number of steps up its parent chain leads from `x` to `root`. */
  ghost predicate Reaches(t: Table, x: Id, root: Id)
    requires WellFormed(t) && x in t
  {
    exists n: nat :: Ancestor(t, x, n) == Some(root)
  }

  lemma {:induction false} SubtreeReaches(t: Table, x: Id, root: Id)
    requires WellFormed(t) && x in t
    ensures InSubtree(t, x, root) <==> Reaches(t, x, root)
    decreases t[x].depth
  {
    assert Consistent(t, x);
    if x == root {
      assert Ancestor(t, x, 0) == Some(root);
    } else if t[x].parentFolderId.Some? {
      var p := t[x].parentFolderId.value;
      SubtreeReaches(t, p, root);
      if Reaches(t, p, root) {
        var n: nat :| Ancestor(t, p, n) == Some(root);
        assert Ancestor(t, x, n + 1) == Some(root);
      }
      if Reaches(t, x, root) {
        var n: nat :| Ancestor(t, x, n) == Some(root);
        assert Ancestor(t, p, n - 1) == Some(root);
      }
    }
  }

  // -------------------------------------------------------------------- moves

  /** The depth a folder gets under `target`. */
  function NewDepth(t: Table, target: Option<Id>): int {
    match target
    case None => 0
    case Some(p) => if p in t then t[p].depth + 1 else 0
  }

  /** Reparent `f` and shift its whole subtree by one common amount. */
  function Moved(t: Table, f: Id, target: Option<Id>): Table
    requires WellFormed(t) && f in t
  {
    var shift := NewDepth(t, target) - t[f].depth;
    map x | x in t ::
      if x == f then t[x].(parentFolderId := target, depth := NewDepth(t, target))
      else if InSubtree(t, x, f) then t[x].(depth := t[x].depth + shift)
      else t[x]
  }

  predicate FitsUnder(t: Table, f: Id, newDepth: int)
    requires WellFormed(t) && f in t
  {
    forall x :: x in t && InSubtree(t, x, f) ==> t[x].depth - t[f].depth + newDepth < MAX_FOLDER_NESTING_DEPTH
  }

  /** The outcome of moving an existing folder, in the order the checks are made. */
  function MoveVerdict(t: Table, f: Id, target: Option<Id>): Option<Error>
    requires WellFormed(t) && f in t
  {
    if target.Some? && (target.value == f || (target.value in t && InSubtree(t, target.value, f))) then
      Some(ValidationFailed)
    else if target.Some? && !(target.value in t && t[target.value].projectId == t[f].projectId) then
      Some(NotFound)
    else if !FitsUnder(t, f, NewDepth(t, target)) then Some(ValidationFailed)
    else None
  }

  lemma AcceptedMoveKeepsForest(t: Table, f: Id, target: Option<Id>)
    requires WellFormed(t) && f in t && MoveVerdict(t, f, target).None?
    ensures WellFormed(Moved(t, f, target))
  {
    var m := Moved(t, f, target);
    assert Consistent(t, f);
    forall x | x in m
      ensures Consistent(m, x)
    {
      assert Consistent(t, x);
      if x == f {
        assert InSubtree(t, f, f);
        if target.Some? {
          assert Consistent(t, target.value);
        }
      } else if t[x].parentFolderId.Some? {
        assert Consistent(t, t[x].parentFolderId.value);
        if InSubtree(t, x, f) {
          SubtreeIsBelow(t, x, f);
          assert InSubtree(t, t[x].parentFolderId.value, f);
        } else {
          assert !InSubtree(t, t[x].parentFolderId.value, f);
        }
      }
    }
  }

  /**
   * The checks are exact: a move is accepted if and only if reparenting the
   * folder and shifting its subtree would leave a forest within the cap.
   */
  lemma MoveAcceptedIffForest(t: Table, f: Id, target: Option<Id>)
    requires WellFormed(t) && f in t
    ensures MoveVerdict(t, f, target).None? <==> WellFormed(Moved(t, f, target))
  {
    var m := Moved(t, f, target);
    if MoveVerdict(t, f, target).None? {
      AcceptedMoveKeepsForest(t, f, target);
    } else if WellFormed(m) {
      assert Consistent(m, f) && Consistent(t, f);
      if target.Some? && target.value in t {
        assert Consistent(m, target.value);
        if InSubtree(t, target.value, f) {
          SubtreeIsBelow(t, target.value, f);
        }
      }
      forall x | x in t && InSubtree(t, x, f)
        ensures t[x].depth - t[f].depth + NewDepth(t, target) < MAX_FOLDER_NESTING_DEPTH
      {
        assert Consistent(m, x);
      }
    }
  }

  /** An accepted move leaves the moved subtree in one piece. */
  lemma {:induction false} MoveKeepsSubtree(t: Table, f: Id, target: Option<Id>, x: Id)
    requires WellFormed(t) && f in t && WellFormed(Moved(t, f, target)) && x in t
    ensures InSubtree(Moved(t, f, target), x, f) <==> InSubtree(t, x, f)
    decreases t[x].depth
  {
    var m := Moved(t, f, target);
    assert Consistent(t, x) && Consistent(m, x);
    if x != f && t[x].parentFolderId.Some? {
      MoveKeepsSubtree(t, f, target, t[x].parentFolderId.value);
    }
  }

  lemma HomeIsOutside(t: Table, f: Id)
    requires WellFormed(t) && f in t
    ensures t[f].id == f && NewDepth(t, t[f].parentFolderId) == t[f].depth
    ensures t[f].parentFolderId.Some? ==>
              t[f].parentFolderId.value in t && !InSubtree(t, t[f].parentFolderId.value, f)
  {
    assert Consistent(t, f);
    if t[f].parentFolderId.Some? && InSubtree(t, t[f].parentFolderId.value, f) {
      SubtreeIsBelow(t, t[f].parentFolderId.value, f);
    }
  }

  lemma RowMovedBack(t: Table, f: Id, target: Option<Id>, x: Id)
    requires WellFormed(t) && f in t && WellFormed(Moved(t, f, target)) && x in t
    ensures Moved(Moved(t, f, target), f, t[f].parentFolderId)[x] == t[x]
  {
    hide WellFormed, Consistent;
    HomeIsOutside(t, f);
    MoveKeepsSubtree(t, f, target, x);
  }

  /** Moving a folder and then moving it back to its old parent restores the table. */
  lemma MoveBackRestores(t: Table, f: Id, target: Option<Id>)
    requires WellFormed(t) && f in t && MoveVerdict(t, f, target).None?
    ensures WellFormed(Moved(t, f, target))
    ensures MoveVerdict(Moved(t, f, target), f, t[f].parentFolderId).None?
    ensures Moved(Moved(t, f, target), f, t[f].parentFolderId) == t
  {
    hide WellFormed, Consistent, MoveVerdict, InSubtree;
    AcceptedMoveKeepsForest(t, f, target);
    var m := Moved(t, f, target);
    forall x | x in t
      ensures Moved(m, f, t[f].parentFolderId)[x] == t[x]
    {
      RowMovedBack(t, f, target, x);
    }
    assert Moved(m, f, t[f].parentFolderId) == t;
    MoveAcceptedIffForest(m, f, t[f].parentFolderId);
  }

  // ------------------------------------------------------- creates and deletes

  predicate IsValidName(name: string) {
    NAME_MIN_LENGTH <= |name| <= NAME_MAX_LENGTH
  }

  /** What `createFolder` does to the table; the new id comes from the id generator. */
  function CreateOutcome(t: Table, newId: Id, projectId: Id, parent: Option<Id>, name: string): Result<Folder, Error> {
    var under := parent.Some? && parent.value != "";
    if !IsValidName(name) then Err(ValidationFailed)
    else if under && !(parent.value in t && t[parent.value].projectId == projectId) then Err(NotFound)
    else
      var depth := if under then t[parent.value].depth + 1 else 0;
      if depth >= MAX_FOLDER_NESTING_DEPTH then Err(ValidationFailed)
      else if newId in t then Err(Conflict)
      else Ok(Folder(newId, projectId, if under then parent else None, name, depth))
  }

  /** Deleting a folder row cascades to every row below it. */
  function Pruned(t: Table, root: Id): Table
    requires WellFormed(t)
  {
    map x | x in t && !InSubtree(t, x, root) :: t[x]
  }

  lemma CreateKeepsForest(t: Table, newId: Id, projectId: Id, parent: Option<Id>, name: string)
    requires WellFormed(t) && CreateOutcome(t, newId, projectId, parent, name).Ok?
    ensures WellFormed(t[newId := CreateOutcome(t, newId, projectId, parent, name).value])
  {
    var t' := t[newId := CreateOutcome(t, newId, projectId, parent, name).value];
    forall x | x in t'
      ensures Consistent(t', x)
    {
      if x in t {
        assert Consistent(t, x);
      } else if parent.Some? && parent.value in t {
        assert Consistent(t, parent.value);
      }
    }
  }

  lemma PruneKeepsForest(t: Table, root: Id)
    requires WellFormed(t)
    ensures WellFormed(Pruned(t, root))
  {
    forall x | x in Pruned(t, root)
      ensures Consistent(Pruned(t, root), x)
    {
      assert Consistent(t, x);
    }
  }

  /** What a delete leaves: exactly the rows whose parent chain never reaches the folder, unchanged. */
  lemma PrunedRows(t: Table, root: Id)
    requires WellFormed(t)
    ensures forall x :: x in Pruned(t, root) <==> x in t && !Reaches(t, x, root)
    ensures forall x :: x in Pruned(t, root) ==> Pruned(t, root)[x] == t[x]
  {
    hide Reaches, InSubtree, WellFormed;
    forall x | x in t
      ensures x in Pruned(t, root) <==> !Reaches(t, x, root)
    {
      SubtreeReaches(t, x, root);
    }
  }

  /** A folder beside another one, or another root, does not depend on it. */
  lemma SiblingsAreApart(t: Table, x: Id, root: Id)
    requires WellFormed(t) && x in t && root in t && x != root
    requires t[x].parentFolderId == t[root].parentFolderId || t[x].parentFolderId.None?
    ensures !Reaches(t, x, root)
  {
    assert Consistent(t, x) && Consistent(t, root);
    if n: nat :| Ancestor(t, x, n) == Some(root) {
      ParentChainEnds(t, x, n);
    }
  }

  lemma ReachesItself(t: Table, x: Id)
    requires WellFormed(t) && x in t
    ensures Reaches(t, x, x)
  {
    assert Ancestor(t, x, 0) == Some(x);
  }

  /** The verdict on a move in terms of parent chains. */
  lemma VerdictByChains(t: Table, f: Id, target: Option<Id>)
    requires WellFormed(t) && f in t
    ensures var inside := target.Some? && target.value in t && Reaches(t, target.value, f);
            var known := target.Some? ==> target.value in t && t[target.value].projectId == t[f].projectId;
            var top := if target.Some? && target.value in t then t[target.value].depth + 1 else 0;
            var fits := forall x :: x in t && Reaches(t, x, f) ==> top + t[x].depth - t[f].depth < 10;
            MoveVerdict(t, f, target) ==
              if inside then Some(ValidationFailed) else if !known then Some(NotFound)
              else if !fits then Some(ValidationFailed) else None
  {
    hide Reaches, InSubtree, WellFormed, Consistent;
    ReachesItself(t, f);
    forall x | x in t
      ensures InSubtree(t, x, f) <==> Reaches(t, x, f)
    {
      SubtreeReaches(t, x, f);
    }
  }

  // --------------------------------------------------------------------- runs

  datatype Operation =
    | Create(newId: Id, projectId: Id, parent: Option<Id>, name: string)
    | Move(folderId: Id, target: Option<Id>)
    | Delete(folderId: Id)

  function Perform(t: Table, op: Operation): Table
    requires WellFormed(t)
  {
    match op
    case Create(newId, projectId, parent, name) =>
      var r := CreateOutcome(t, newId, projectId, parent, name);
      if r.Ok? then t[newId := r.value] else t
    case Move(f, target) =>
      if f in t && MoveVerdict(t, f, target).None? then Moved(t, f, target) else t
    case Delete(f) =>
      if f in t then Pruned(t, f) else t
  }

  lemma PerformKeepsForest(t: Table, op: Operation)
    requires WellFormed(t)
    ensures WellFormed(Perform(t, op))
  {
    match op
    case Create(newId, projectId, parent, name) =>
      if CreateOutcome(t, newId, projectId, parent, name).Ok? {
        CreateKeepsForest(t, newId, projectId, parent, name);
      }
    case Move(f, target) =>
      if f in t && MoveVerdict(t, f, target).None? {
        AcceptedMoveKeepsForest(t, f, target);
      }
    case Delete(f) =>
      if f in t {
        PruneKeepsForest(t, f);
      }
  }

  /** Over every run of operations from a forest within the cap, the table stays one. */
  function Run(t: Table, ops: seq<Operation>): (r: Table)
    requires WellFormed(t)
    ensures WellFormed(r)
    decreases |ops|
  {
    if ops == [] then t
    else
      PerformKeepsForest(t, ops[0]);
      Run(Perform(t, ops[0]), ops[1..])
  }

  // ------------------------------------------------------------- child lists

  /** The folders of the list that have the given parent, in list order. */
  function ChildrenIn(all: seq<Folder>, parent: Option<Id>): seq<Folder> {
    if all == [] then []
    else
      var last := all[|all| - 1];
      ChildrenIn(all[..|all| - 1], parent) + if last.parentFolderId == parent then [last] else []
  }

  type ChildMap = map<Option<Id>, seq<Folder>>

  /** `childrenOf.get(parent) ?? []`. */
  function ChildrenOf(childrenOf: ChildMap, parent: Option<Id>): seq<Folder> {
    if parent in childrenOf then childrenOf[parent] else []
  }

  method GroupByParent(all: seq<Folder>) returns (childrenOf: ChildMap)
    ensures forall k :: ChildrenOf(childrenOf, k) == ChildrenIn(all, k)
  {
    childrenOf := map[];
    for i := 0 to |all|
      invariant forall k :: ChildrenOf(childrenOf, k) == ChildrenIn(all[..i], k)
    {
      var key := all[i].parentFolderId;
      assert all[..i + 1][..i] == all[..i];
      childrenOf := childrenOf[key := ChildrenOf(childrenOf, key) + [all[i]]];
    }
    assert all[..|all|] == all;
  }

  ghost predicate NoRepeats(fs: seq<Folder>) {
    forall i, j :: 0 <= i < j < |fs| ==> fs[i].id != fs[j].id
  }

  lemma {:induction false} ChildrenInMembers(all: seq<Folder>, parent: Option<Id>)
    ensures forall c :: c in ChildrenIn(all, parent) <==> c in all && c.parentFolderId == parent
    ensures NoRepeats(all) ==> NoRepeats(ChildrenIn(all, parent))
  {
    if all != [] {
      var init, last := all[..|all| - 1], all[|all| - 1];
      ChildrenInMembers(init, parent);
      assert all == init + [last];
      if NoRepeats(all) {
        assert forall i :: 0 <= i < |init| ==> init[i] == all[i];
        assert forall c :: c in init ==> c.id != last.id;
      }
    }
  }

  /** The list holds each folder of the project once, in whatever order the database returned them. */
  ghost predicate Lists(t: Table, projectId: Id, all: seq<Folder>) {
    NoRepeats(all) && forall c :: c in all <==> c.id in t && t[c.id] == c && c.projectId == projectId
  }

  /** The child map of a listed project gives exactly the children of each of its folders, each once. */
  ghost predicate Indexes(t: Table, projectId: Id, childrenOf: ChildMap) {
    forall p :: p in t && t[p].projectId == projectId ==> ChildrenListed(t, p, ChildrenOf(childrenOf, Some(p)))
  }

  ghost predicate ChildrenListed(t: Table, p: Id, children: seq<Folder>) {
    && NoRepeats(children)
    && (forall i :: 0 <= i < |children| ==> IsChild(t, p, children[i]))
    && (forall x {:trigger HasId(children, x)} :: x in t && t[x].parentFolderId == Some(p) ==> HasId(children, x))
  }

  ghost predicate IsChild(t: Table, p: Id, c: Folder) {
    c.id in t && t[c.id] == c && c.parentFolderId == Some(p)
  }

  ghost predicate HasId(fs: seq<Folder>, x: Id) {
    exists i :: 0 <= i < |fs| && fs[i].id == x
  }

  lemma ListingIndexes(t: Table, projectId: Id, all: seq<Folder>, childrenOf: ChildMap)
    requires WellFormed(t) && Lists(t, projectId, all)
    requires forall k :: ChildrenOf(childrenOf, k) == ChildrenIn(all, k)
    ensures Indexes(t, projectId, childrenOf)
  {
    forall p | p in t && t[p].projectId == projectId
      ensures ChildrenListed(t, p, ChildrenOf(childrenOf, Some(p)))
    {
      ChildrenInMembers(all, Some(p));
      forall x | x in t && t[x].parentFolderId == Some(p)
        ensures HasId(ChildrenOf(childrenOf, Some(p)), x)
      {
        assert Consistent(t, x);
        assert t[x] in all;
        var i :| 0 <= i < |ChildrenOf(childrenOf, Some(p))| && ChildrenOf(childrenOf, Some(p))[i] == t[x];
      }
    }
  }

  // ------------------------------------------------------------ the tree walk

  ghost predicate ProperlyBelow(t: Table, x: Id, root: Id)
    requires WellFormed(t)
  {
    x in t && x != root && InSubtree(t, x, root)
  }

  lemma {:induction false} BelowViaChild(t: Table, x: Id, root: Id)
    requires WellFormed(t) && root in t && ProperlyBelow(t, x, root)
    ensures exists c :: c in t && t[c].parentFolderId == Some(root) && InSubtree(t, x, c)
    decreases if x in t then t[x].depth else 0
  {
    assert Consistent(t, x);
    var p := t[x].parentFolderId.value;
    assert Consistent(t, p);
    if p == root {
      assert InSubtree(t, x, x);
    } else {
      BelowViaChild(t, p, root);
      var c :| c in t && t[c].parentFolderId == Some(root) && InSubtree(t, p, c);
      assert InSubtree(t, x, c);
    }
  }

  lemma ChildIsBelow(t: Table, c: Id, root: Id)
    requires WellFormed(t) && c in t && t[c].parentFolderId == Some(root)
    ensures root in t && ProperlyBelow(t, c, root) && t[c].depth == t[root].depth + 1
    ensures t[c].projectId == t[root].projectId
    ensures forall x :: x in t && InSubtree(t, x, c) ==> ProperlyBelow(t, x, root)
  {
    assert Consistent(t, c);
    assert InSubtree(t, root, root);
    forall x | x in t && InSubtree(t, x, c)
      ensures ProperlyBelow(t, x, root)
    {
      SubtreeIsTransitive(t, x, c, root);
      SubtreeIsBelow(t, x, c);
    }
  }

  /** `x` lies under one of the first `n` children. */
  ghost predicate UnderFirst(t: Table, children: seq<Folder>, n: nat, x: Id)
    requires WellFormed(t) && n <= |children|
  {
    n > 0 && x in t && (InSubtree(t, x, children[n - 1].id) || UnderFirst(t, children, n - 1, x))
  }

  lemma {:induction false} UnderFirstHolds(t: Table, children: seq<Folder>, n: nat, j: nat, x: Id)
    requires WellFormed(t) && j < n <= |children| && x in t && InSubtree(t, x, children[j].id)
    ensures UnderFirst(t, children, n, x)
  {
    if j < n - 1 {
      UnderFirstHolds(t, children, n - 1, j, x);
    }
  }

  lemma {:induction false} UnderFirstIsBelow(t: Table, id: Id, children: seq<Folder>, n: nat, x: Id)
    requires WellFormed(t) && n <= |children| && ChildrenListed(t, id, children)
    requires UnderFirst(t, children, n, x)
    ensures ProperlyBelow(t, x, id)
  {
    assert IsChild(t, id, children[n - 1]);
    ChildIsBelow(t, children[n - 1].id, id);
    if !InSubtree(t, x, children[n - 1].id) {
      UnderFirstIsBelow(t, id, children, n - 1, x);
    }
  }

  lemma UnderChildrenIsBelow(t: Table, id: Id, children: seq<Folder>)
    requires WellFormed(t) && id in t && ChildrenListed(t, id, children)
    ensures forall x :: UnderFirst(t, children, |children|, x) <==> ProperlyBelow(t, x, id)
  {
    forall x
      ensures UnderFirst(t, children, |children|, x) <==> ProperlyBelow(t, x, id)
    {
      if ProperlyBelow(t, x, id) {
        BelowViaChild(t, x, id);
        var c :| c in t && t[c].parentFolderId == Some(id) && InSubtree(t, x, c);
        assert HasId(children, c);
        var j :| 0 <= j < |children| && children[j].id == c;
        UnderFirstHolds(t, children, |children|, j, x);
      } else if UnderFirst(t, children, |children|, x) {
        UnderFirstIsBelow(t, id, children, |children|, x);
      }
    }
  }

  /** The recursive `walk`: collect everything below `id`, with the ids alongside. */
  method Walk(ghost t: Table, childrenOf: ChildMap, id: Id, subtree: seq<Folder>, descendantIds: set<Id>)
    returns (subtree': seq<Folder>, descendantIds': set<Id>)
    requires WellFormed(t) && id in t && Indexes(t, t[id].projectId, childrenOf)
    ensures forall x :: x in descendantIds' <==> x in descendantIds || ProperlyBelow(t, x, id)
    ensures forall d :: d in subtree' <==> d in subtree || (ProperlyBelow(t, d.id, id) && d == t[d.id])
    decreases MAX_FOLDER_NESTING_DEPTH - t[id].depth
  {
    hide WellFormed, InSubtree, Indexes, ChildrenListed, ProperlyBelow;
    subtree', descendantIds' := subtree, descendantIds;
    var children := ChildrenOf(childrenOf, Some(id));
    for i := 0 to |children|
      invariant forall x :: x in descendantIds' <==> x in descendantIds || UnderFirst(t, children, i, x)
      invariant forall d :: d in subtree' <==> d in subtree || (UnderFirst(t, children, i, d.id) && d == t[d.id])
    {
      var child := children[i];
      ListedChild(t, childrenOf, id, i);
      descendantIds' := descendantIds' + {child.id};
      subtree' := subtree' + [child];
      subtree', descendantIds' := Walk(t, childrenOf, child.id, subtree', descendantIds');
    }
    IndexedChildren(t, childrenOf, id);
    UnderChildrenIsBelow(t, id, children);
  }

  lemma IndexedChildren(t: Table, childrenOf: ChildMap, id: Id)
    requires WellFormed(t) && id in t && Indexes(t, t[id].projectId, childrenOf)
    ensures ChildrenListed(t, id, ChildrenOf(childrenOf, Some(id)))
  {
  }

  lemma ListedChild(t: Table, childrenOf: ChildMap, id: Id, i: nat)
    requires WellFormed(t) && id in t && Indexes(t, t[id].projectId, childrenOf)
    requires i < |ChildrenOf(childrenOf, Some(id))|
    ensures var c := ChildrenOf(childrenOf, Some(id))[i];
            c.id in t && t[c.id] == c && c.parentFolderId == Some(id) && c.depth == t[id].depth + 1
            && c.projectId == t[id].projectId && c.depth < MAX_FOLDER_NESTING_DEPTH
            && forall x :: (x in t && InSubtree(t, x, c.id)) <==> x == c.id || ProperlyBelow(t, x, c.id)
  {
    var children := ChildrenOf(childrenOf, Some(id));
    assert ChildrenListed(t, id, children) && IsChild(t, id, children[i]);
    assert Consistent(t, children[i].id);
  }

  // ------------------------------------------------- breadth-first new depths

  function Shifted(t: Table, f: Id, newDepth: int, x: Id): int
    requires f in t && x in t
  {
    t[x].depth - t[f].depth + newDepth
  }

  /** The depths with one new depth for all of `ids`. */
  function WithDepth(depths: map<Id, int>, ids: seq<Id>, depth: int): map<Id, int> {
    if ids == [] then depths
    else WithDepth(depths, ids[..|ids| - 1], depth)[ids[|ids| - 1] := depth]
  }

  lemma {:induction false} WithDepthMembers(depths: map<Id, int>, ids: seq<Id>, depth: int)
    ensures forall x :: x in WithDepth(depths, ids, depth) <==> x in depths || x in ids
    ensures forall x :: x in WithDepth(depths, ids, depth) ==>
              WithDepth(depths, ids, depth)[x] == if x in ids then depth else depths[x]
  {
    if ids != [] {
      WithDepthMembers(depths, ids[..|ids| - 1], depth);
      assert ids == ids[..|ids| - 1] + [ids[|ids| - 1]];
    }
  }

  ghost predicate DistinctIds(q: seq<Id>) {
    forall i, j :: 0 <= i < j < |q| ==> q[i] != q[j]
  }

  /** The search has left `done` and waits for `queue`; together they are the folders with a new depth. */
  ghost predicate Frontier(t: Table, f: Id, newDepth: int, done: set<Id>, queue: seq<Id>, depths: map<Id, int>)
    requires WellFormed(t) && f in t
  {
    && f in depths
    && (forall x :: x in depths ==> x in t && InSubtree(t, x, f) && depths[x] == Shifted(t, f, newDepth, x))
    && (forall x :: x in depths <==> x in done || x in queue)
    && DistinctIds(queue) && (forall x :: x in queue ==> x !in done)
    && (forall x :: x in t && t[x].parentFolderId.Some? && t[x].parentFolderId.value in done ==> x in depths)
    && (forall x :: x in depths && x != f ==> t[x].parentFolderId.Some? && t[x].parentFolderId.value in done)
    && (forall x :: x in done ==> depths[x] < MAX_FOLDER_NESTING_DEPTH)
  }

  function IdsOf(fs: seq<Folder>): seq<Id> {
    seq(|fs|, i requires 0 <= i < |fs| => fs[i].id)
  }

  lemma ChildrenAreNew(t: Table, f: Id, newDepth: int, done: set<Id>, queue: seq<Id>, depths: map<Id, int>,
                       c: Id, children: seq<Folder>)
    requires WellFormed(t) && f in t && Frontier(t, f, newDepth, done, queue, depths)
    requires c in depths && c !in done && ChildrenListed(t, c, children)
    ensures forall x :: x in IdsOf(children) <==> x in t && t[x].parentFolderId == Some(c)
    ensures forall x :: x in IdsOf(children) ==>
              x !in depths && InSubtree(t, x, f) && t[x].depth == t[c].depth + 1
    ensures DistinctIds(IdsOf(children))
  {
    var ids := IdsOf(children);
    forall x | x in ids
      ensures x in t && t[x].parentFolderId == Some(c) && x !in depths
      ensures InSubtree(t, x, f) && t[x].depth == t[c].depth + 1
    {
      var i :| 0 <= i < |ids| && ids[i] == x;
      assert IsChild(t, c, children[i]);
      ChildIsBelow(t, x, c);
      if x == f {
        SubtreeIsBelow(t, c, f);
      }
    }
    forall x | x in t && t[x].parentFolderId == Some(c)
      ensures x in ids
    {
      assert HasId(children, x);
      var i :| 0 <= i < |children| && children[i].id == x;
      assert ids[i] == x;
    }
  }

  lemma QueueAdvances(queue: seq<Id>, ids: seq<Id>)
    requires queue != [] && DistinctIds(queue) && DistinctIds(ids)
    requires forall x :: x in ids ==> x !in queue
    ensures DistinctIds(queue[1..] + ids)
    ensures forall x :: x in queue[1..] + ids <==> (x in queue && x != queue[0]) || x in ids
  {
    var rest := queue[1..];
    assert queue == [queue[0]] + rest;
    assert forall x :: x in rest <==> x in queue && x != queue[0];
    forall i, j | 0 <= i < j < |rest + ids|
      ensures (rest + ids)[i] != (rest + ids)[j]
    {
      if j < |rest| {
        assert (rest + ids)[i] == queue[i + 1] && (rest + ids)[j] == queue[j + 1];
      } else if i < |rest| {
        assert (rest + ids)[i] in rest && (rest + ids)[j] in ids;
      }
    }
  }

  lemma FrontierAdvances(t: Table, f: Id, newDepth: int, done: set<Id>, queue: seq<Id>, depths: map<Id, int>,
                         children: seq<Folder>, depths': map<Id, int>)
    requires WellFormed(t) && f in t && queue != []
    requires Frontier(t, f, newDepth, done, queue, depths)
    requires depths[queue[0]] < MAX_FOLDER_NESTING_DEPTH
    requires ChildrenListed(t, queue[0], children)
    requires depths' == WithDepth(depths, IdsOf(children), depths[queue[0]] + 1)
    ensures Frontier(t, f, newDepth, done + {queue[0]}, queue[1..] + IdsOf(children), depths')
  {
    hide IdsOf, InSubtree, WellFormed, ChildrenListed, WithDepth, Consistent, DistinctIds;
    assert queue[0] in queue;
    ChildrenAreNew(t, f, newDepth, done, queue, depths, queue[0], children);
    WithDepthMembers(depths, IdsOf(children), depths[queue[0]] + 1);
    QueueAdvances(queue, IdsOf(children));
  }

  lemma FrontierStarts(t: Table, f: Id, newDepth: int)
    requires WellFormed(t) && f in t
    ensures Frontier(t, f, newDepth, {}, [f], map[f := newDepth])
  {
  }

  lemma FrontierHead(t: Table, f: Id, newDepth: int, done: set<Id>, queue: seq<Id>, depths: map<Id, int>)
    requires WellFormed(t) && f in t && queue != [] && Frontier(t, f, newDepth, done, queue, depths)
    ensures queue[0] in depths && queue[0] in t && queue[0] !in done
    ensures t[queue[0]].projectId == t[f].projectId
    ensures depths[queue[0]] >= MAX_FOLDER_NESTING_DEPTH ==> !FitsUnder(t, f, newDepth)
  {
    assert queue[0] in queue;
    SubtreeIsBelow(t, queue[0], f);
  }

  /** With nothing left to wait for, the folders with a new depth are the whole subtree. */
  lemma {:induction false} FrontierCovers(t: Table, f: Id, newDepth: int, done: set<Id>, depths: map<Id, int>, x: Id)
    requires WellFormed(t) && f in t && Frontier(t, f, newDepth, done, [], depths)
    requires x in t && InSubtree(t, x, f)
    ensures x in depths
    decreases t[x].depth
  {
    assert Consistent(t, x);
    if x != f {
      assert Consistent(t, t[x].parentFolderId.value);
      FrontierCovers(t, f, newDepth, done, depths, t[x].parentFolderId.value);
    }
  }

  lemma FrontierDone(t: Table, f: Id, newDepth: int, done: set<Id>, depths: map<Id, int>)
    requires WellFormed(t) && f in t && Frontier(t, f, newDepth, done, [], depths)
    ensures FitsUnder(t, f, newDepth)
    ensures forall x :: x in depths <==> x in t && InSubtree(t, x, f)
    ensures forall x :: x in depths ==> depths[x] == Shifted(t, f, newDepth, x)
  {
    forall x | x in t && InSubtree(t, x, f)
      ensures x in depths && x in done
    {
      FrontierCovers(t, f, newDepth, done, depths, x);
    }
  }

  /** New depths for the moved folder and everything below it, unless one would reach the cap. */
  method RecomputeDepths(ghost t: Table, childrenOf: ChildMap, f: Id, newDepth: int)
    returns (fits: bool, depths: map<Id, int>)
    requires WellFormed(t) && f in t && Indexes(t, t[f].projectId, childrenOf)
    ensures fits <==> FitsUnder(t, f, newDepth)
    ensures fits ==> forall x :: x in depths <==> x in t && InSubtree(t, x, f)
    ensures fits ==> forall x :: x in depths ==> depths[x] == Shifted(t, f, newDepth, x)
  {
    hide *;
    depths := map[f := newDepth];
    var queue := [f];
    ghost var done: set<Id> := {};
    FrontierStarts(t, f, newDepth);
    while |queue| > 0
      invariant Frontier(t, f, newDepth, done, queue, depths)
      invariant done <= t.Keys
      decreases t.Keys - done
    {
      FrontierHead(t, f, newDepth, done, queue, depths);
      ghost var before := queue;
      var current, currentDepth := queue[0], depths[queue[0]];
      queue := queue[1..];
      if currentDepth >= MAX_FOLDER_NESTING_DEPTH {
        return false, depths;
      }
      var children := ChildrenOf(childrenOf, Some(current));
      IndexedChildren(t, childrenOf, current);
      FrontierAdvances(t, f, newDepth, done, before, depths, children,
                       WithDepth(depths, IdsOf(children), currentDepth + 1));
      depths, queue := PushChildren(children, currentDepth, depths, queue);
      done := done + {current};
    }
    assert queue == [];
    FrontierDone(t, f, newDepth, done, depths);
    fits := true;
  }

  /** The inner loop: one level down, at the end of the queue. */
  method PushChildren(children: seq<Folder>, currentDepth: int, depths: map<Id, int>, queue: seq<Id>)
    returns (depths': map<Id, int>, queue': seq<Id>)
    ensures queue' == queue + IdsOf(children)
    ensures depths' == WithDepth(depths, IdsOf(children), currentDepth + 1)
  {
    depths', queue' := depths, queue;
    ghost var ids := IdsOf(children);
    for i := 0 to |children|
      invariant queue' == queue + ids[..i]
      invariant depths' == WithDepth(depths, ids[..i], currentDepth + 1)
    {
      assert ids[..i + 1] == ids[..i] + [children[i].id];
      assert ids[..i + 1][..i] == ids[..i];
      depths' := depths'[children[i].id := currentDepth + 1];
      queue' := queue' + [children[i].id];
    }
    assert ids[..|children|] == ids;
  }

  // ------------------------------------------------------------- the service

  /** The content service over the folder table; a project is known by the organization that owns it. */
  class ContentService {
    var folders: Table
    var projects: map<Id, Id>

    ghost predicate Valid()
      reads this
    {
      WellFormed(folders)
    }

    constructor (projects: map<Id, Id>)
      ensures Valid() && folders == map[] && this.projects == projects
    {
      folders, this.projects := map[], projects;
    }

    predicate ProjectIn(orgId: Id, projectId: Id)
      reads this`projects
    {
      projectId in projects && projects[projectId] == orgId
    }

    /** The folders of a project, in any order: the database query has no ORDER BY. */
    method ListFoldersByProject(projectId: Id) returns (all: seq<Folder>)
      requires Valid()
      ensures Lists(folders, projectId, all)
    {
      all := [];
      var pending := folders.Keys;
      while pending != {}
        invariant pending <= folders.Keys && NoRepeats(all)
        invariant forall c :: c in all <==>
                    c.id in folders.Keys - pending && folders[c.id] == c && c.projectId == projectId
        decreases pending
      {
        var id :| id in pending;
        assert Consistent(folders, id);
        pending := pending - {id};
        if folders[id].projectId == projectId {
          assert forall c :: c in all ==> c.id != id;
          all := all + [folders[id]];
        }
      }
    }

    /** Update a row in place by its primary key. */
    method UpdateFolder(record: Folder)
      modifies this`folders
      ensures folders == if record.id in old(folders) then old(folders)[record.id := record] else old(folders)
    {
      if record.id in folders {
        folders := folders[record.id := record];
      }
    }

    method CreateFolder(orgId: Id, projectId: Id, parent: Option<Id>, name: string, newId: Id)
      returns (r: Result<Folder, Error>)
      requires Valid()
      modifies this`folders
      ensures Valid()
      ensures r == if !IsValidName(name) then Err(ValidationFailed)
                   else if !ProjectIn(orgId, projectId) then Err(NotFound)
                   else CreateOutcome(old(folders), newId, projectId, parent, name)
      ensures folders == if r.Ok? then old(folders)[newId := r.value] else old(folders)
      // The new folder is in its project under its parent, one step deeper, or at the top.
      ensures var nested := parent.Some? && parent.value != "";
              && (r.Ok? <==>
                    1 <= |name| <= 255 && ProjectIn(orgId, projectId) && newId !in old(folders) &&
                    (nested ==> parent.value in old(folders) && old(folders)[parent.value].projectId == projectId &&
                                old(folders)[parent.value].depth + 1 < 10))
              && (r.Ok? ==>
                    r.value.id == newId && r.value.projectId == projectId && r.value.name == name &&
                    r.value.parentFolderId == (if nested then parent else None) &&
                    r.value.depth == if nested then old(folders)[parent.value].depth + 1 else 0)
    {
      hide WellFormed, Consistent;
      if !IsValidName(name) {
        return Err(ValidationFailed);
      }
      if !ProjectIn(orgId, projectId) {
        return Err(NotFound);
      }
      var depth := 0;
      var parentFolderId := None;
      if parent.Some? && parent.value != "" {
        if parent.value !in folders || folders[parent.value].projectId != projectId {
          return Err(NotFound);
        }
        depth := folders[parent.value].depth + 1;
        if depth >= MAX_FOLDER_NESTING_DEPTH {
          return Err(ValidationFailed);
        }
        RowHasItsKey(folders, parent.value);
        parentFolderId := Some(folders[parent.value].id);
      }
      if newId in folders {
        return Err(Conflict);
      }
      r := Ok(Folder(newId, projectId, parentFolderId, name, depth));
      CreateKeepsForest(folders, newId, projectId, parent, name);
      folders := folders[newId := r.value];
    }

    method DeleteFolder(orgId: Id, folderId: Id) returns (r: Result<(), Error>)
      requires Valid()
      modifies this`folders
      ensures Valid()
      ensures r.Ok? <==> folderId in old(folders) && ProjectIn(orgId, old(folders)[folderId].projectId)
      ensures r.Err? ==> r.error == NotFound
      ensures folders == if r.Ok? then Pruned(old(folders), folderId) else old(folders)
      // A row is left exactly when no number of steps up its parent chain reaches the folder.
      ensures r.Ok? ==>
                forall x :: x in folders <==>
                  x in old(folders) && !Reaches(old(folders), x, folderId)
      ensures forall x :: x in folders ==> x in old(folders) && folders[x] == old(folders)[x]
      // So folders beside it stay, and all other roots.
      ensures folderId in old(folders) ==>
                forall x | x in old(folders) && x != folderId &&
                           (old(folders)[x].parentFolderId == old(folders)[folderId].parentFolderId ||
                            old(folders)[x].parentFolderId.None?) :: x in folders
    {
      hide WellFormed, Consistent, Reaches, Pruned;
      if folderId !in folders || !ProjectIn(orgId, folders[folderId].projectId) {
        return Err(NotFound);
      }
      PruneKeepsForest(folders, folderId);
      PrunedRows(folders, folderId);
      forall x | x in folders && x != folderId &&
                 (folders[x].parentFolderId == folders[folderId].parentFolderId || folders[x].parentFolderId.None?)
        ensures !Reaches(folders, x, folderId)
      {
        SiblingsAreApart(folders, x, folderId);
      }
      folders := Pruned(folders, folderId);
      r := Ok(());
    }

    /**
     * Move a folder under a new parent, or to the project root. Nothing is
     * written unless every check passes; then exactly the subtree changes.
     */
    method MoveFolder(orgId: Id, folderId: Id, newParent: Option<Id>) returns (r: Result<Folder, Error>)
      requires Valid()
      modifies this`folders
      ensures Valid()
      ensures if folderId !in old(folders) || !ProjectIn(orgId, old(folders)[folderId].projectId)
              then r == Err(NotFound)
              else match MoveVerdict(old(folders), folderId, newParent)
                   case Some(e) => r == Err(e)
                   case None => r == Ok(Moved(old(folders), folderId, newParent)[folderId])
      ensures folders == if r.Ok? then Moved(old(folders), folderId, newParent) else old(folders)
      // It is accepted exactly when the target is a folder of the project whose own chain does not reach
      // the moved one, and nothing below it ends up too deep; then it alone has a new parent, and nothing
      // but depths changes elsewhere, which are right since the table is a forest.
      ensures r.Ok? <==>
                && folderId in old(folders) && ProjectIn(orgId, old(folders)[folderId].projectId)
                && (newParent.Some? ==>
                      newParent.value in old(folders) &&
                      old(folders)[newParent.value].projectId == old(folders)[folderId].projectId &&
                      !Reaches(old(folders), newParent.value, folderId))
                && (forall x :: x in old(folders) && Reaches(old(folders), x, folderId) ==>
                      (if newParent.Some? then old(folders)[newParent.value].depth + 1 else 0) +
                      old(folders)[x].depth - old(folders)[folderId].depth < 10)
      ensures folders.Keys == old(folders).Keys
      ensures r.Ok? ==>
                r.value == folders[folderId] &&
                folders[folderId] == old(folders)[folderId].(parentFolderId := newParent, depth := r.value.depth)
      ensures forall x | x in old(folders) && x != folderId :: folders[x] == old(folders)[x].(depth := folders[x].depth)
    {
      hide WellFormed, InSubtree, ProperlyBelow, Indexes, FitsUnder, Moved, Consistent, ChildrenOf, ChildrenIn, Lists,
           Shifted, MoveVerdict, NewDepth, Reaches;
      if folderId !in folders || !ProjectIn(orgId, folders[folderId].projectId) {
        return Err(NotFound);
      }
      VerdictByChains(folders, folderId, newParent);
      VerdictSteps(folders, folderId, newParent);
      MovedFolder(folders, folderId, newParent);
      var folder := folders[folderId];
      var all := ListFoldersByProject(folder.projectId);
      var childrenOf := GroupByParent(all);
      ListingIndexes(folders, folder.projectId, all, childrenOf);
      var subtree, descendantIds := Walk(folders, childrenOf, folderId, [], {});
      var newDepth := ResolveTarget(folder, all, descendantIds, newParent);
      if newDepth.Err? {
        return Err(newDepth.error);
      }
      var fits, depths := RecomputeDepths(folders, childrenOf, folderId, newDepth.value);
      if !fits {
        return Err(ValidationFailed);
      }
      AcceptedMoveKeepsForest(folders, folderId, newParent);
      DepthsCoverSubtree(folders, folderId, subtree, depths);
      var moved := folder.(parentFolderId := newParent, depth := newDepth.value);
      WriteMove(moved, subtree, depths, newParent);
      r := Ok(moved);
    }

    /** The new depth under the target, once it is known to be a folder of the project outside the subtree. */
    method ResolveTarget(folder: Folder, all: seq<Folder>, descendantIds: set<Id>, newParent: Option<Id>)
      returns (newDepth: Result<int, Error>)
      requires Valid() && folder.id in folders && folders[folder.id] == folder
      requires Lists(folders, folder.projectId, all)
      requires forall x :: x in descendantIds <==> ProperlyBelow(folders, x, folder.id)
      ensures var inside := newParent.Some? &&
                (newParent.value == folder.id || ProperlyBelow(folders, newParent.value, folder.id));
              var known := newParent.Some? ==>
                newParent.value in folders && folders[newParent.value].projectId == folder.projectId;
              newDepth == if inside then Err(ValidationFailed)
                          else if !known then Err(NotFound)
                          else Ok(NewDepth(folders, newParent))
    {
      hide WellFormed, ProperlyBelow, Lists;
      if newParent.None? {
        return Ok(0);
      }
      if newParent.value == folder.id || newParent.value in descendantIds {
        return Err(ValidationFailed);
      }
      var parent := FindById(all, newParent.value);
      ListedOrNot(folders, folder.projectId, all, newParent.value);
      if parent.None? {
        return Err(NotFound);
      }
      newDepth := Ok(parent.value.depth + 1);
    }

    /** Rewrite one descendant, unless its depth is already right. */
    method WriteDepth(desc: Folder, depths: map<Id, int>)
      requires desc.id in folders && desc.id in depths
      requires depths[desc.id] == desc.depth ==> folders[desc.id] == desc
      modifies this`folders
      ensures folders == old(folders)[desc.id := desc.(depth := depths[desc.id])]
    {
      if desc.id in depths && depths[desc.id] != desc.depth {
        UpdateFolder(desc.(depth := depths[desc.id]));
      }
    }

    /** The writes of an accepted move: the folder itself, then each descendant whose depth changes. */
    method WriteMove(moved: Folder, subtree: seq<Folder>, depths: map<Id, int>, ghost target: Option<Id>)
      requires Valid() && moved.id in folders
      requires moved == folders[moved.id].(parentFolderId := target, depth := NewDepth(folders, target))
      requires forall d :: d in subtree <==> ProperlyBelow(folders, d.id, moved.id) && d == folders[d.id]
      requires forall d | d in subtree :: d.id in folders && d.id in depths
      requires forall d | d in subtree ::
                 depths[d.id] == Shifted(folders, moved.id, NewDepth(folders, target), d.id)
      modifies this`folders
      ensures folders == Moved(old(folders), moved.id, target)
    {
      hide WellFormed, ProperlyBelow, Moved, Consistent, NewDepth, InSubtree, Shifted;
      ghost var t, goal := folders, Moved(folders, moved.id, target);
      MovedRows(t, moved.id, target, subtree);
      UpdateFolder(moved);
      ghost var written := {moved.id};
      for i := 0 to |subtree|
        invariant folders.Keys == t.Keys && written <= t.Keys && moved.id in written
        invariant AllWritten(subtree, i, written)
        invariant forall x :: x in t ==> folders[x] == if x in written then goal[x] else t[x]
      {
        hide AllWritten;
        assert subtree[i] in subtree;
        WriteDepth(subtree[i], depths);
        MoreWritten(subtree, i, written);
        written := written + {subtree[i].id};
      }
    }
  }

  ghost predicate AllWritten(subtree: seq<Folder>, n: nat, written: set<Id>)
    requires n <= |subtree|
  {
    forall j :: 0 <= j < n ==> subtree[j].id in written
  }

  lemma MoreWritten(subtree: seq<Folder>, n: nat, written: set<Id>)
    requires n < |subtree| && AllWritten(subtree, n, written)
    ensures AllWritten(subtree, n + 1, written + {subtree[n].id})
  {
  }

  lemma DepthsCoverSubtree(t: Table, f: Id, subtree: seq<Folder>, depths: map<Id, int>)
    requires WellFormed(t)
    requires forall d :: d in subtree ==> ProperlyBelow(t, d.id, f)
    requires forall x :: x in depths <==> x in t && InSubtree(t, x, f)
    ensures forall d | d in subtree :: d.id in t && d.id in depths
  {
  }

  /** The move's verdict in terms of what its steps find out. */
  lemma VerdictSteps(t: Table, f: Id, target: Option<Id>)
    requires WellFormed(t) && f in t
    ensures var inside := target.Some? && (target.value == f || ProperlyBelow(t, target.value, f));
            var known := target.Some? ==> target.value in t && t[target.value].projectId == t[f].projectId;
            MoveVerdict(t, f, target) ==
              if inside then Some(ValidationFailed)
              else if !known then Some(NotFound)
              else if !FitsUnder(t, f, NewDepth(t, target)) then Some(ValidationFailed)
              else None
  {
  }

  lemma RowHasItsKey(t: Table, x: Id)
    requires WellFormed(t) && x in t
    ensures t[x].id == x
  {
    assert Consistent(t, x);
  }

  lemma ListedOrNot(t: Table, projectId: Id, all: seq<Folder>, x: Id)
    requires WellFormed(t) && Lists(t, projectId, all)
    ensures x in t && t[x].projectId == projectId ==> t[x] in all && t[x].id == x
    ensures forall c :: c in all && c.id == x ==> x in t && c == t[x] && t[x].projectId == projectId
  {
    if x in t {
      assert Consistent(t, x);
    }
  }

  lemma MovedFolder(t: Table, f: Id, target: Option<Id>)
    requires WellFormed(t) && f in t
    ensures t[f].id == f && f in Moved(t, f, target)
    ensures Moved(t, f, target)[f] == t[f].(parentFolderId := target, depth := NewDepth(t, target))
    ensures Moved(t, f, target).Keys == t.Keys
    ensures forall x | x in t && x != f :: Moved(t, f, target)[x] == t[x].(depth := Moved(t, f, target)[x].depth)
  {
    assert Consistent(t, f);
  }

  /** A move row by row: the folder, the rows below it, and the rest. */
  lemma MovedRows(t: Table, f: Id, target: Option<Id>, subtree: seq<Folder>)
    requires WellFormed(t) && f in t
    requires forall d :: d in subtree <==> ProperlyBelow(t, d.id, f) && d == t[d.id]
    ensures Moved(t, f, target).Keys == t.Keys
    ensures Moved(t, f, target)[f] == t[f].(parentFolderId := target, depth := NewDepth(t, target))
    ensures forall i | 0 <= i < |subtree| ::
              subtree[i].id in t && subtree[i].id != f && subtree[i] == t[subtree[i].id]
    ensures forall i | 0 <= i < |subtree| ::
              Moved(t, f, target)[subtree[i].id] ==
              subtree[i].(depth := Shifted(t, f, NewDepth(t, target), subtree[i].id))
    ensures forall x :: x in t && x != f ==> Moved(t, f, target)[x] == t[x] || HasId(subtree, x)
  {
    forall i | 0 <= i < |subtree|
      ensures subtree[i].id in t && subtree[i].id != f && subtree[i] == t[subtree[i].id]
    {
      assert subtree[i] in subtree;
    }
    forall x | x in t && x != f
      ensures Moved(t, f, target)[x] == t[x] || HasId(subtree, x)
    {
      assert Consistent(t, x);
      if InSubtree(t, x, f) {
        assert t[x] in subtree;
      }
    }
  }

  /** `all.find((f) => f.id === id)`. */
  method FindById(all: seq<Folder>, id: Id) returns (found: Option<Folder>)
    ensures found.Some? ==> found.value in all && found.value.id == id
    ensures found.None? ==> forall c :: c in all ==> c.id != id
  {
    for i := 0 to |all|
      invariant forall c :: c in all[..i] ==> c.id != id
    {
      if all[i].id == id {
        return Some(all[i]);
      }
    }
    assert all[..|all|] == all;
    found := None;
  }
}
