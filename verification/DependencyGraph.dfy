/**
 * The workspace cycle detector: depth-first search with white/gray/black
 * colouring, an explicit path stack, and de-duplication of the cycles found by
 * a key that does not depend on where the cycle was entered.
 */
module DependencyGraph {
  import opened Strings

  /** An edge map. Targets need not be keys of it. */
  type Edges = map<string, seq<string>>

  // -------------------------------------------------------------------- graphs

  function Successors(edges: Edges, u: string): seq<string> {
    if u in edges then edges[u] else []
  }

  ghost predicate IsWalk(edges: Edges, p: seq<string>) {
    forall i, j :: 0 <= i && j == i + 1 && j < |p| ==> p[j] in Successors(edges, p[i])
  }

  ghost predicate IsClosedWalk(edges: Edges, p: seq<string>) {
    |p| >= 2 && p[0] == p[|p| - 1] && IsWalk(edges, p)
  }

  ghost predicate Acyclic(edges: Edges) {
    forall p :: !IsClosedWalk(edges, p)
  }

  ghost predicate Distinct(s: seq<string>) {
    forall i, j :: 0 <= i < j < |s| ==> s[i] != s[j]
  }

  /** A closed walk that repeats no node but the first, which is also its last. */
  ghost predicate IsSimpleCycle(edges: Edges, p: seq<string>) {
    IsClosedWalk(edges, p) && Distinct(Nodes(p))
  }

  /** The nodes of a reported cycle: its path without the repeated last node. */
  function Nodes(p: seq<string>): seq<string> {
    if p == [] then [] else p[..|p| - 1]
  }

  /** The edges that close the reported paths: from the last node of a cycle back to its first. */
  function ClosingEdges(cycles: seq<seq<string>>): set<(string, string)> {
    if cycles == [] then {}
    else
      var c := cycles[|cycles| - 1];
      ClosingEdges(cycles[..|cycles| - 1]) + if |c| >= 2 then {(c[|c| - 2], c[|c| - 1])} else {}
  }

  lemma {:induction false} ClosingEdgeOf(cycles: seq<seq<string>>, c: seq<string>)
    requires c in cycles && |c| >= 2
    ensures (c[|c| - 2], c[|c| - 1]) in ClosingEdges(cycles)
  {
    if c != cycles[|cycles| - 1] {
      ClosingEdgeOf(cycles[..|cycles| - 1], c);
    }
  }

  /** No name contains the separator of the de-duplication key. */
  ghost predicate NamesFreeOfArrow(edges: Edges) {
    forall u :: u in edges ==> FreeOfArrow(u)
  }

  // ------------------------------------------------------------- finish order

  function IndexOf(s: seq<string>, x: string): (i: nat)
    ensures i <= |s|
    ensures x in s <==> i < |s|
    ensures i < |s| ==> s[i] == x
  {
    if s == [] then 0
    else if s[0] == x then 0
    else 1 + IndexOf(s[1..], x)
  }

  lemma {:induction false} IndexOfIsFirst(s: seq<string>, x: string, j: nat)
    requires j < |s| && s[j] == x
    ensures IndexOf(s, x) <= j
  {
    if j > 0 && s[0] != x {
      IndexOfIsFirst(s[1..], x, j - 1);
    }
  }

  /** Every node of `order` comes after all of its successors but those over a cut edge. */
  ghost predicate SuccessorsFirst(edges: Edges, cut: set<(string, string)>, order: seq<string>) {
    forall i, v :: 0 <= i < |order| && v in Successors(edges, order[i]) ==>
      v in order[..i] || (order[i], v) in cut
  }

  ghost predicate UsesEdgeOf(p: seq<string>, cut: set<(string, string)>) {
    exists i, j :: 0 <= i && j == i + 1 && j < |p| && (p[i], p[j]) in cut
  }

  lemma {:induction false} WalkDescends(edges: Edges, cut: set<(string, string)>, order: seq<string>, p: seq<string>)
    requires SuccessorsFirst(edges, cut, order) && IsWalk(edges, p) && !UsesEdgeOf(p, cut)
    requires p != [] && p[0] in order
    ensures p[|p| - 1] in order
    ensures IndexOf(order, p[|p| - 1]) + |p| - 1 <= IndexOf(order, p[0])
  {
    if |p| > 1 {
      var i := IndexOf(order, p[0]);
      assert p[1] in Successors(edges, p[0]);
      assert (p[0], p[1]) !in cut;
      assert p[1] in order[..i];
      var j :| 0 <= j < i && order[j] == p[1];
      IndexOfIsFirst(order, p[1], j);
      WalkDescends(edges, cut, order, p[1..]);
    }
  }

  /** A finish order that covers every source of an edge leaves no closed walk outside the cut. */
  lemma FinishOrderCutsWalks(edges: Edges, cut: set<(string, string)>, order: seq<string>)
    requires SuccessorsFirst(edges, cut, order)
    requires forall u :: u in edges ==> u in order
    ensures forall p :: IsClosedWalk(edges, p) ==> UsesEdgeOf(p, cut)
  {
    forall p | IsClosedWalk(edges, p)
      ensures UsesEdgeOf(p, cut)
    {
      if !UsesEdgeOf(p, cut) {
        assert p[1] in Successors(edges, p[0]);
        assert p[0] in edges;
        WalkDescends(edges, cut, order, p);
      }
    }
  }

  // ---------------------------------------------------------- canonical keys

  function Rotate<T>(s: seq<T>, k: nat): seq<T>
    requires k <= |s|
  {
    s[k..] + s[..k]
  }

  ghost predicate IsRotation<T>(a: seq<T>, b: seq<T>) {
    exists k :: 0 <= k <= |a| && b == Rotate(a, k)
  }

  /** The index the minimum search holds after looking at the first `n` nodes. */
  function MinIndexUpTo(s: seq<string>, n: nat): (m: nat)
    requires 1 <= n <= |s|
    ensures m < n
  {
    if n == 1 then 0
    else
      var m := MinIndexUpTo(s, n - 1);
      if Less(s[n - 1], s[m]) then n - 1 else m
  }

  lemma {:induction false} MinIndexIsLeast(s: seq<string>, n: nat)
    requires 1 <= n <= |s|
    ensures forall i :: 0 <= i < n ==> !Less(s[i], s[MinIndexUpTo(s, n)])
  {
    if n == 1 {
      LessIrreflexive(s[0]);
    } else {
      MinIndexIsLeast(s, n - 1);
      var m := MinIndexUpTo(s, n - 1);
      LessIrreflexive(s[n - 1]);
      forall i | 0 <= i < n
        ensures !Less(s[i], s[MinIndexUpTo(s, n)])
      {
        if i < n - 1 && Less(s[n - 1], s[m]) && Less(s[i], s[n - 1]) {
          LessTransitive(s[i], s[n - 1], s[m]);
        }
      }
    }
  }

  /** The node list rotated to start at its least node. */
  function Canonical(nodes: seq<string>): seq<string> {
    if nodes == [] then [] else Rotate(nodes, MinIndexUpTo(nodes, |nodes|))
  }

  function CanonicalKey(nodes: seq<string>): string {
    Join(Canonical(nodes), "->")
  }

  function KeyOf(path: seq<string>): string {
    CanonicalKey(Nodes(path))
  }

  lemma RotateTwice<T>(s: seq<T>, k: nat, j: nat)
    requires k <= |s| && j <= |s|
    ensures Rotate(Rotate(s, k), j) == if k + j <= |s| then Rotate(s, k + j) else Rotate(s, k + j - |s|)
  {
    if k + j <= |s| {
      SplitTwice(s, k, k + j);
    } else {
      SplitTwice(s, k + j - |s|, k);
    }
  }

  /** Rotating past two cuts of a list, one at a time. */
  lemma SplitTwice<T>(s: seq<T>, a: nat, b: nat)
    requires a <= b <= |s|
    ensures Rotate(Rotate(s, a), b - a) == Rotate(s, b)
    ensures Rotate(Rotate(s, b), |s| - (b - a)) == Rotate(s, a)
  {
    var x, y, z := s[..a], s[a..b], s[b..];
    assert s == x + y + z;
    assert Rotate(s, a) == y + z + x && Rotate(s, b) == z + x + y;
    assert (y + z + x)[b - a..] == z + x && (y + z + x)[..b - a] == y;
    assert (z + x + y)[|s| - (b - a)..] == y && (z + x + y)[..|s| - (b - a)] == z + x;
    assert y + (z + x) == y + z + x;
  }

  /** Two rotations of a list of distinct nodes that start at the same node are the same list. */
  lemma SameStartSameRotation(s: seq<string>, i: nat, j: nat)
    requires Distinct(s) && i <= |s| && j <= |s| && s != []
    requires Rotate(s, i)[0] == Rotate(s, j)[0]
    ensures Rotate(s, i) == Rotate(s, j)
  {
    assert Rotate(s, |s|) == s == Rotate(s, 0);
    var i', j' := if i == |s| then 0 else i, if j == |s| then 0 else j;
    assert Rotate(s, i)[0] == s[i'] && Rotate(s, j)[0] == s[j'];
    assert i' == j';
  }

  lemma CanonicalIsRotation(nodes: seq<string>)
    ensures IsRotation(nodes, Canonical(nodes)) && IsRotation(Canonical(nodes), nodes)
  {
    if nodes == [] {
      assert nodes == Rotate(nodes, 0);
    } else {
      var m := MinIndexUpTo(nodes, |nodes|);
      RotateTwice(nodes, m, |nodes| - m);
      assert Rotate(nodes, |nodes|) == nodes;
      assert nodes == Rotate(Canonical(nodes), |nodes| - m);
    }
  }

  lemma RotationsCompose(a: seq<string>, b: seq<string>, c: seq<string>)
    requires IsRotation(a, b) && IsRotation(b, c)
    ensures IsRotation(a, c)
  {
    var k :| 0 <= k <= |a| && b == Rotate(a, k);
    var j :| 0 <= j <= |b| && c == Rotate(b, j);
    RotateTwice(a, k, j);
    if k + j <= |a| {
      assert c == Rotate(a, k + j);
    } else {
      assert c == Rotate(a, k + j - |a|);
    }
  }

  lemma SameLeast(a: seq<string>, b: seq<string>)
    requires a != [] && b != [] && forall x :: x in a <==> x in b
    ensures a[MinIndexUpTo(a, |a|)] == b[MinIndexUpTo(b, |b|)]
  {
    var x, y := a[MinIndexUpTo(a, |a|)], b[MinIndexUpTo(b, |b|)];
    MinIndexIsLeast(a, |a|);
    MinIndexIsLeast(b, |b|);
    assert x in b && y in a;
    LessTotal(x, y);
  }

  lemma RotationHasSameNodes(a: seq<string>, k: nat)
    requires k <= |a|
    ensures forall x :: x in a <==> x in Rotate(a, k)
  {
    assert a == a[..k] + a[k..];
  }

  /** Entering a cycle of distinct nodes elsewhere does not change its canonical form. */
  lemma CanonicalIgnoresRotation(a: seq<string>, b: seq<string>)
    requires Distinct(a) && IsRotation(a, b)
    ensures Canonical(a) == Canonical(b)
  {
    hide Less, MinIndexUpTo;
    var k :| 0 <= k <= |a| && b == Rotate(a, k);
    if a != [] {
      RotationHasSameNodes(a, k);
      SameLeast(a, b);
      var i, j := MinIndexUpTo(a, |a|), MinIndexUpTo(b, |b|);
      var n := if k + j <= |a| then k + j else k + j - |a|;
      RotateTwice(a, k, j);
      assert Canonical(b) == Rotate(a, n) && Canonical(b)[0] == b[j];
      assert Canonical(a) == Rotate(a, i) && Canonical(a)[0] == a[i];
      SameStartSameRotation(a, i, n);
    }
  }

  /** Conversely, when no name contains the separator, equal keys mean the same cycle. */
  lemma EqualKeysAreRotations(edges: Edges, p: seq<string>, q: seq<string>)
    requires IsSimpleCycle(edges, p) && IsSimpleCycle(edges, q) && NamesFreeOfArrow(edges)
    ensures CanonicalKey(Nodes(p)) == CanonicalKey(Nodes(q)) <==> IsRotation(Nodes(p), Nodes(q))
  {
    if CanonicalKey(Nodes(p)) == CanonicalKey(Nodes(q)) {
      CycleNodesAreSources(edges, p);
      CycleNodesAreSources(edges, q);
      CanonicalIsRotation(Nodes(p));
      CanonicalIsRotation(Nodes(q));
      ArrowJoinInjective(Canonical(Nodes(p)), Canonical(Nodes(q)));
      RotationsCompose(Nodes(p), Canonical(Nodes(p)), Nodes(q));
    }
    if IsRotation(Nodes(p), Nodes(q)) {
      CanonicalIgnoresRotation(Nodes(p), Nodes(q));
    }
  }

  lemma CycleNodesAreSources(edges: Edges, p: seq<string>)
    requires IsClosedWalk(edges, p)
    ensures forall u :: u in Nodes(p) ==> u in edges
    ensures forall u :: u in Canonical(Nodes(p)) ==> u in edges
  {
    forall u | u in Nodes(p)
      ensures u in edges
    {
      var i :| 0 <= i < |p| - 1 && p[i] == u;
      assert p[i + 1] in Successors(edges, p[i]);
    }
    assert forall u :: u in Canonical(Nodes(p)) ==> u in Nodes(p);
  }

  /** No two cycles of the graph share a key, other than rotations of one cycle. */
  ghost predicate KeysTellCycles(edges: Edges) {
    forall p, q {:trigger KeyOf(p), KeyOf(q)} ::
      IsSimpleCycle(edges, p) && IsSimpleCycle(edges, q) && KeyOf(p) == KeyOf(q) ==> IsRotation(Nodes(p), Nodes(q))
  }

  lemma SameCycle(edges: Edges, p: seq<string>, q: seq<string>)
    requires KeysTellCycles(edges) && IsSimpleCycle(edges, p) && IsSimpleCycle(edges, q) && KeyOf(p) == KeyOf(q)
    ensures IsRotation(Nodes(p), Nodes(q))
  {
    hide KeyOf, IsSimpleCycle, IsRotation;
  }

  lemma ArrowFreeKeysTell(edges: Edges)
    requires NamesFreeOfArrow(edges)
    ensures KeysTellCycles(edges)
  {
    hide CanonicalKey, IsSimpleCycle, NamesFreeOfArrow, IsRotation;
    forall p, q | IsSimpleCycle(edges, p) && IsSimpleCycle(edges, q) && KeyOf(p) == KeyOf(q)
      ensures IsRotation(Nodes(p), Nodes(q))
    {
      EqualKeysAreRotations(edges, p, q);
    }
  }

  /** A path of distinct nodes closed by an edge back into it holds a simple cycle. */
  lemma ClosingTheStack(edges: Edges, stack: seq<string>, k: nat, target: string)
    requires k < |stack| && stack[k] == target
    requires Distinct(stack) && IsWalk(edges, stack)
    requires target in Successors(edges, stack[|stack| - 1])
    ensures Nodes(stack[k..] + [target]) == stack[k..]
    ensures IsSimpleCycle(edges, stack[k..] + [target])
  {
    var path := stack[k..] + [target];
    forall i | 0 <= i < |path| - 1
      ensures path[i + 1] in Successors(edges, path[i])
    {
      assert path[i] == stack[k + i];
      if k + i + 1 < |stack| {
        assert path[i + 1] == stack[k + i + 1];
      }
    }
    assert Nodes(path) == stack[k..];
  }

  ghost predicate InOrderAt(stack: seq<string>, c: seq<string>, i: nat, j: nat, m: nat, n: nat)
    requires i < |c| && j < |c| && m < |stack| && n < |stack|
  {
    c[i] == stack[m] && c[j] == stack[n] ==> m < n
  }

  /** The nodes of `c` that are on the stack lie there in the order of `c`. */
  ghost predicate InStackOrder(stack: seq<string>, c: seq<string>) {
    forall i, j, m, n {:trigger InOrderAt(stack, c, i, j, m, n)} |
      0 <= i < j < |c| && 0 <= m < |stack| && 0 <= n < |stack| :: InOrderAt(stack, c, i, j, m, n)
  }

  /** A stretch of the stack that is truly turned does not lie in stack order. */
  lemma TurnedIsOutOfOrder(stack: seq<string>, k: nat, c: seq<string>, r: nat)
    requires k < |stack| && 0 < r < |c| && stack[k..] == Rotate(c, r)
    ensures !InStackOrder(stack, c)
  {
    assert c[r] == stack[k..][0] == stack[k];
    assert c[0] == stack[k..][|c| - r] == stack[k + (|c| - r)];
    assert !InOrderAt(stack, c, 0, r, k + (|c| - r), k);
  }

  /** A rotation of a stretch of the stack that lies in stack order is that stretch. */
  lemma InOrderRotationIsSame(stack: seq<string>, k: nat, c: seq<string>)
    requires Distinct(stack) && k < |stack|
    requires IsRotation(c, stack[k..]) && InStackOrder(stack, c)
    ensures c == stack[k..]
  {
    hide InStackOrder;
    var r :| 0 <= r <= |c| && stack[k..] == Rotate(c, r);
    if 0 < r < |c| {
      TurnedIsOutOfOrder(stack, k, c, r);
    }
  }

  // ------------------------------------------------------ detectCycles itself

  datatype Color = White | Gray | Black

  /** `color.get(u) ?? WHITE`. */
  function ColorIn(color: map<string, Color>, u: string): Color {
    if u in color then color[u] else White
  }

  /** The stack is a walk through the gray nodes; the finished nodes are the black ones. */
  ghost predicate ValidPath(edges: Edges, color: map<string, Color>,
                            stack: seq<string>, onStack: set<string>, finished: seq<string>)
  {
    && Distinct(stack)
    && (forall u :: u in stack <==> u in onStack)
    && (forall u :: u in stack <==> ColorIn(color, u) == Gray)
    && (forall u :: u in finished <==> ColorIn(color, u) == Black)
    && IsWalk(edges, stack)
  }

  lemma PathTells(edges: Edges, color: map<string, Color>, stack: seq<string>, onStack: set<string>, finished: seq<string>)
    requires ValidPath(edges, color, stack, onStack, finished)
    ensures Distinct(stack) && IsWalk(edges, stack)
    ensures forall u :: u in stack ==> ColorIn(color, u) == Gray
    ensures forall u :: u in onStack <==> u in stack
    ensures forall u :: ColorIn(color, u) == Gray ==> u in stack
    ensures forall u :: ColorIn(color, u) == Black ==> u in finished
  {
  }

  lemma PushNode(edges: Edges, color: map<string, Color>, stack: seq<string>, onStack: set<string>,
                 finished: seq<string>, node: string)
    requires ValidPath(edges, color, stack, onStack, finished)
    requires ColorIn(color, node) == White
    requires stack != [] ==> node in Successors(edges, stack[|stack| - 1])
    ensures ValidPath(edges, color[node := Gray], stack + [node], onStack + {node}, finished)
  {
    assert node !in stack;
  }

  lemma PopNode(edges: Edges, color: map<string, Color>, stack: seq<string>, onStack: set<string>,
                finished: seq<string>, node: string)
    requires ValidPath(edges, color, stack + [node], onStack, finished)
    ensures ValidPath(edges, color[node := Black], stack, onStack - {node}, finished + [node])
    ensures node !in finished
  {
    var full := stack + [node];
    assert full[|stack|] == node && node in full;
    assert forall i :: 0 <= i < |stack| ==> stack[i] == full[i] != node;
    assert forall u :: u in full <==> u in stack || u == node;
    forall i | 0 <= i < |stack| - 1
      ensures stack[i + 1] in Successors(edges, stack[i])
    {
      assert full[i + 1] in Successors(edges, full[i]);
    }
  }

  lemma FinishNode(edges: Edges, cut: set<(string, string)>, finished: seq<string>, node: string)
    requires SuccessorsFirst(edges, cut, finished)
    requires forall v :: v in Successors(edges, node) ==> v in finished || (node, v) in cut
    ensures SuccessorsFirst(edges, cut, finished + [node])
  {
    var order := finished + [node];
    forall i, v | 0 <= i < |order| && v in Successors(edges, order[i])
      ensures v in order[..i] || (order[i], v) in cut
    {
      if i < |finished| {
        assert order[..i] == finished[..i];
      } else {
        assert order[..i] == finished;
      }
    }
  }

  ghost predicate Reported(edges: Edges, seenCycleKeys: set<string>, c: seq<string>) {
    IsSimpleCycle(edges, c) && KeyOf(c) in seenCycleKeys
  }

  ghost predicate IsKeyOfOne(cycles: seq<seq<string>>, key: string) {
    exists c :: c in cycles && KeyOf(c) == key
  }

  /** The reported cycles are simple and have different keys, which are the keys seen. */
  ghost predicate ValidReport(edges: Edges, cycles: seq<seq<string>>, seenCycleKeys: set<string>) {
    && (forall c {:trigger Reported(edges, seenCycleKeys, c)} :: c in cycles ==> Reported(edges, seenCycleKeys, c))
    && (forall k {:trigger IsKeyOfOne(cycles, k)} :: k in seenCycleKeys ==> IsKeyOfOne(cycles, k))
    && DifferentKeys(cycles)
  }

  ghost predicate DifferentKeys(cycles: seq<seq<string>>) {
    forall i, j {:trigger KeyOf(cycles[i]), KeyOf(cycles[j])} ::
      0 <= i < j < |cycles| ==> KeyOf(cycles[i]) != KeyOf(cycles[j])
  }

  lemma ReportCycle(edges: Edges, cycles: seq<seq<string>>, seenCycleKeys: set<string>, path: seq<string>)
    requires ValidReport(edges, cycles, seenCycleKeys)
    requires IsSimpleCycle(edges, path) && KeyOf(path) !in seenCycleKeys
    ensures ValidReport(edges, cycles + [path], seenCycleKeys + {KeyOf(path)})
  {
    hide KeyOf, IsSimpleCycle;
    var cycles', keys' := cycles + [path], seenCycleKeys + {KeyOf(path)};
    assert cycles'[|cycles|] == path && path in cycles';
    forall c | c in cycles'
      ensures Reported(edges, keys', c)
    {
      assert c in cycles ==> Reported(edges, seenCycleKeys, c);
    }
    forall k | k in keys'
      ensures IsKeyOfOne(cycles', k)
    {
      if k in seenCycleKeys {
        assert IsKeyOfOne(cycles, k);
        var c :| c in cycles && KeyOf(c) == k;
        assert c in cycles';
      }
    }
    forall i, j | 0 <= i < j < |cycles'|
      ensures KeyOf(cycles'[i]) != KeyOf(cycles'[j])
    {
      assert cycles'[i] == cycles[i];
      assert Reported(edges, seenCycleKeys, cycles[i]);
      if j < |cycles| {
        assert cycles'[j] == cycles[j];
      }
    }
  }

  lemma SeenKeyWasReported(edges: Edges, cycles: seq<seq<string>>, seenCycleKeys: set<string>, key: string)
    requires ValidReport(edges, cycles, seenCycleKeys) && key in seenCycleKeys
    ensures cycles != []
  {
    assert IsKeyOfOne(cycles, key);
  }

  ghost predicate Met(color: map<string, Color>, c: seq<string>) {
    forall u :: u in Nodes(c) ==> ColorIn(color, u) != White
  }

  /** The nodes of every reported cycle were all met, and those on the path keep the cycle's order. */
  ghost predicate ValidOrder(color: map<string, Color>, stack: seq<string>, cycles: seq<seq<string>>) {
    && (forall c {:trigger Met(color, c)} :: c in cycles ==> Met(color, c))
    && (forall c {:trigger InStackOrder(stack, Nodes(c))} :: c in cycles ==> InStackOrder(stack, Nodes(c)))
  }

  lemma PushKeepsOrder(color: map<string, Color>, stack: seq<string>, cycles: seq<seq<string>>, node: string)
    requires ValidOrder(color, stack, cycles) && ColorIn(color, node) == White
    ensures ValidOrder(color[node := Gray], stack + [node], cycles)
  {
    forall c | c in cycles
      ensures Met(color[node := Gray], c) && InStackOrder(stack + [node], Nodes(c))
    {
      assert Met(color, c);
      assert InStackOrder(stack, Nodes(c));
      assert node !in Nodes(c);
      forall i, j, m, n | 0 <= i < j < |Nodes(c)| && 0 <= m < |stack| + 1 && 0 <= n < |stack| + 1
        ensures InOrderAt(stack + [node], Nodes(c), i, j, m, n)
      {
        assert Nodes(c)[i] != node && Nodes(c)[j] != node;
        assert m < |stack| && n < |stack| ==> InOrderAt(stack, Nodes(c), i, j, m, n);
      }
    }
  }

  lemma PopKeepsOrder(color: map<string, Color>, stack: seq<string>, cycles: seq<seq<string>>, node: string)
    requires ValidOrder(color, stack + [node], cycles)
    ensures ValidOrder(color[node := Black], stack, cycles)
  {
    forall c | c in cycles
      ensures Met(color[node := Black], c) && InStackOrder(stack, Nodes(c))
    {
      assert Met(color, c);
      assert InStackOrder(stack + [node], Nodes(c));
      forall i, j, m, n | 0 <= i < j < |Nodes(c)| && 0 <= m < |stack| && 0 <= n < |stack|
        ensures InOrderAt(stack, Nodes(c), i, j, m, n)
      {
        assert InOrderAt(stack + [node], Nodes(c), i, j, m, n);
      }
    }
  }

  lemma ReportKeepsOrder(color: map<string, Color>, stack: seq<string>, cycles: seq<seq<string>>, k: nat, target: string)
    requires ValidOrder(color, stack, cycles) && Distinct(stack) && k < |stack|
    requires forall u :: u in stack ==> ColorIn(color, u) == Gray
    ensures ValidOrder(color, stack, cycles + [stack[k..] + [target]])
  {
    var found := stack[k..];
    assert Nodes(found + [target]) == found;
    forall i, j, m, n | 0 <= i < j < |found| && 0 <= m < |stack| && 0 <= n < |stack|
      ensures InOrderAt(stack, found, i, j, m, n)
    {
      assert found[i] == stack[k + i] && found[j] == stack[k + j];
    }
  }

  /** A key seen before stands for a cycle reported with this very closing edge. */
  lemma SeenKeyIsReported(edges: Edges, color: map<string, Color>, stack: seq<string>, cycles: seq<seq<string>>,
                          seenCycleKeys: set<string>, k: nat, target: string)
    requires ValidReport(edges, cycles, seenCycleKeys) && ValidOrder(color, stack, cycles)
    requires Distinct(stack) && k < |stack| && stack[k] == target
    requires IsSimpleCycle(edges, stack[k..] + [target])
    requires KeyOf(stack[k..] + [target]) in seenCycleKeys && KeysTellCycles(edges)
    ensures (stack[|stack| - 1], target) in ClosingEdges(cycles)
  {
    hide KeyOf, KeysTellCycles, DifferentKeys, Distinct, IsRotation, InStackOrder, ClosingEdges, IsWalk;
    var path := stack[k..] + [target];
    assert Nodes(path) == stack[k..];
    assert IsKeyOfOne(cycles, KeyOf(path));
    var c :| c in cycles && KeyOf(c) == KeyOf(path);
    assert Reported(edges, seenCycleKeys, c);
    assert InStackOrder(stack, Nodes(c));
    SameCycle(edges, c, path);
    ClosedInOrder(stack, k, c, target);
    ClosingEdgeOf(cycles, c);
  }

  lemma ClosedInOrder(stack: seq<string>, k: nat, c: seq<string>, target: string)
    requires Distinct(stack) && k < |stack| && stack[k] == target
    requires |c| >= 2 && c[0] == c[|c| - 1]
    requires IsRotation(Nodes(c), stack[k..]) && InStackOrder(stack, Nodes(c))
    ensures c == stack[k..] + [target]
  {
    InOrderRotationIsSame(stack, k, Nodes(c));
    assert c == Nodes(c) + [c[|c| - 1]];
    assert c[|c| - 1] == Nodes(c)[0] == target;
  }

  /** The variables the search closes over, and its nested functions. */
  class CycleDetector {
    const edges: Edges
    var color: map<string, Color>
    var cycles: seq<seq<string>>
    var seenCycleKeys: set<string>
    var stack: seq<string>
    var onStack: set<string>
    /** The black nodes in the order they finished. */
    ghost var finished: seq<string>

    constructor (edges: Edges)
      ensures this.edges == edges && Valid()
      ensures cycles == [] && stack == [] && finished == []
      ensures forall u :: u in edges ==> u in color
    {
      this.edges := edges;
      color := map u | u in edges :: White;
      cycles, seenCycleKeys, stack, onStack, finished := [], {}, [], {}, [];
    }

    function ColorOf(u: string): Color
      reads this`color
    {
      ColorIn(color, u)
    }

    /** Every node the search can meet: the sources and the targets. */
    ghost function Universe(): set<string> {
      edges.Keys + set u, v | u in edges && v in edges[u] :: v
    }

    ghost function Unvisited(): set<string>
      reads this`color
    {
      set u | u in Universe() && ColorOf(u) == White
    }

    /** When the closing edges of the report can be told from the keys seen. */
    ghost predicate Telling()
      reads this`cycles
    {
      cycles == [] || KeysTellCycles(edges)
    }

    ghost predicate Valid()
      reads this
    {
      && ValidPath(edges, color, stack, onStack, finished)
      && ValidReport(edges, cycles, seenCycleKeys)
      && ValidOrder(color, stack, cycles)
      && (Telling() ==> SuccessorsFirst(edges, ClosingEdges(cycles), finished))
    }

    /** The edge from `u` to `v` leads to a finished node or closes a reported cycle. */
    ghost predicate Settled(u: string, v: string)
      reads this
    {
      v in finished || (u, v) in ClosingEdges(cycles)
    }

    /** What a search never takes back: finished nodes, reported cycles and met nodes. */
    twostate predicate Progress()
      reads this
    {
      && old(finished) <= finished && old(cycles) <= cycles
      && ClosingEdges(old(cycles)) <= ClosingEdges(cycles)
      && Unvisited() <= old(Unvisited())
    }

    /** Push a cycle whose key is new. */
    method Report(startIndex: nat, target: string, key: string)
      requires Valid() && startIndex < |stack| && stack[startIndex] == target
      requires IsSimpleCycle(edges, stack[startIndex..] + [target])
      requires key == KeyOf(stack[startIndex..] + [target]) && key !in seenCycleKeys
      modifies this`cycles, this`seenCycleKeys
      ensures Valid() && Settled(stack[|stack| - 1], target)
      ensures cycles == old(cycles) + [stack[startIndex..] + [target]] && Progress()
    {
      hide ValidPath, ValidReport, ValidOrder, KeysTellCycles, SuccessorsFirst, ClosingEdges, IsSimpleCycle, KeyOf, Nodes;
      PathTells(edges, color, stack, onStack, finished);
      var path := stack[startIndex..] + [target];
      ReportCycle(edges, cycles, seenCycleKeys, path);
      ReportKeepsOrder(color, stack, cycles, startIndex, target);
      MoreCuts(edges, cycles, path, finished);
      seenCycleKeys := seenCycleKeys + {key};
      cycles := cycles + [path];
    }

    /** Report the part of the stack from `target` on, unless its key was seen before. */
    method RecordCycle(target: string)
      requires Valid() && target in stack
      requires target in Successors(edges, stack[|stack| - 1])
      modifies this`cycles, this`seenCycleKeys
      ensures Valid() && cycles != []
      ensures Progress() && (Telling() ==> Settled(stack[|stack| - 1], target))
      ensures var path := stack[IndexOf(stack, target)..] + [target];
              cycles == if KeyOf(path) in old(seenCycleKeys) then old(cycles) else old(cycles) + [path]
    {
      hide CanonicalKey, ClosingEdges, KeysTellCycles, ValidPath, ValidReport, ValidOrder, SuccessorsFirst, IsWalk, Distinct,
           IsSimpleCycle;
      PathTells(edges, color, stack, onStack, finished);
      var startIndex := IndexOf(stack, target);
      var cycleNodes := stack[startIndex..];
      var key := ComputeCanonicalKey(cycleNodes);
      ClosingTheStack(edges, stack, startIndex, target);
      assert key == KeyOf(cycleNodes + [target]);
      if key in seenCycleKeys {
        SeenKeyWasReported(edges, cycles, seenCycleKeys, key);
        if KeysTellCycles(edges) {
          SeenKeyIsReported(edges, color, stack, cycles, seenCycleKeys, startIndex, target);
        }
      } else {
        Report(startIndex, target, key);
      }
    }

    /** The head of `visit`: colour the node gray and put it on the path. */
    method Enter(node: string)
      requires Valid() && ColorOf(node) == White
      requires stack != [] ==> node in Successors(edges, stack[|stack| - 1])
      modifies this`color, this`stack, this`onStack
      ensures Valid() && stack == old(stack) + [node]
      ensures Unvisited() == old(Unvisited()) - {node}
    {
      hide ValidReport, KeysTellCycles, SuccessorsFirst, ClosingEdges, ValidOrder;
      PushNode(edges, color, stack, onStack, finished, node);
      PushKeepsOrder(color, stack, cycles, node);
      color := color[node := Gray];
      stack := stack + [node];
      onStack := onStack + {node};
    }

    /** The tail of `visit`: take the node off the path and colour it black. */
    method Leave(node: string)
      requires Valid() && stack != [] && stack[|stack| - 1] == node
      requires Telling() ==> forall v :: v in Successors(edges, node) ==> Settled(node, v)
      modifies this`color, this`stack, this`onStack, this`finished
      ensures Valid() && stack == old(stack)[..|old(stack)| - 1]
      ensures finished == old(finished) + [node]
      ensures Unvisited() == old(Unvisited())
    {
      hide ValidReport, KeysTellCycles, ClosingEdges, ValidOrder, SuccessorsFirst;
      var below := stack[..|stack| - 1];
      assert stack == below + [node];
      assert ColorOf(node) == Gray;
      PopNode(edges, color, below, onStack, finished, node);
      PopKeepsOrder(color, below, cycles, node);
      if Telling() {
        FinishNode(edges, ClosingEdges(cycles), finished, node);
      }
      stack := below;
      onStack := onStack - {node};
      color := color[node := Black];
      finished := finished + [node];
    }

    /** One turn of `visit`'s loop: follow the edge from the top of the stack to `next`. */
    method Follow(next: string)
      requires Valid() && stack != []
      requires next in Successors(edges, stack[|stack| - 1]) && next in Universe()
      modifies this
      ensures Valid() && stack == old(stack) && Progress()
      ensures Telling() ==> Settled(stack[|stack| - 1], next)
      decreases Unvisited(), 1
    {
      hide ValidPath, ValidReport, KeysTellCycles, ClosingEdges, ValidOrder, SuccessorsFirst;
      PathTells(edges, color, stack, onStack, finished);
      var nextColor := ColorOf(next);
      if nextColor == Gray && next in onStack {
        RecordCycle(next);
      } else if nextColor == White {
        Visit(next);
      }
    }

    /** The loop of `visit` over the edges out of the top of the stack. */
    method FollowAll(node: string)
      requires Valid() && stack != [] && stack[|stack| - 1] == node
      modifies this
      ensures Valid() && stack == old(stack) && Progress()
      ensures Telling() ==> forall v :: v in Successors(edges, node) ==> Settled(node, v)
      decreases Unvisited(), 2
    {
      hide ValidPath, ValidReport, KeysTellCycles, ClosingEdges, ValidOrder, SuccessorsFirst;
      var targets := Successors(edges, node);
      for i := 0 to |targets|
        invariant Valid() && stack == old(stack) && Progress()
        invariant Telling() ==> forall j :: 0 <= j < i ==> Settled(node, targets[j])
      {
        assert targets[i] in edges[node];
        Follow(targets[i]);
      }
    }

    /** Search from a white node that the top of the stack, if any, depends on. */
    method Visit(node: string)
      requires Valid() && ColorOf(node) == White && node in Universe()
      requires stack != [] ==> node in Successors(edges, stack[|stack| - 1])
      modifies this
      ensures Valid() && stack == old(stack) && Progress()
      ensures node in finished
      decreases Unvisited(), 0
    {
      hide ClosingEdges, ValidPath, ValidReport, ValidOrder, SuccessorsFirst, KeysTellCycles;
      assert node in Unvisited();
      Enter(node);
      FollowAll(node);
      Leave(node);
    }
  }

  lemma MoreCuts(edges: Edges, cycles: seq<seq<string>>, path: seq<string>, finished: seq<string>)
    requires |path| >= 2
    ensures (path[|path| - 2], path[|path| - 1]) in ClosingEdges(cycles + [path])
    ensures ClosingEdges(cycles) <= ClosingEdges(cycles + [path])
    ensures SuccessorsFirst(edges, ClosingEdges(cycles), finished) ==>
              SuccessorsFirst(edges, ClosingEdges(cycles + [path]), finished)
  {
    assert (cycles + [path])[..|cycles|] == cycles;
  }

  /** The rotation-invariant key, by the source's loop over the nodes. */
  method ComputeCanonicalKey(cycleNodes: seq<string>) returns (key: string)
    ensures key == CanonicalKey(cycleNodes)
  {
    if |cycleNodes| == 0 {
      return "";
    }
    var minIndex := 0;
    for i := 1 to |cycleNodes|
      invariant minIndex == MinIndexUpTo(cycleNodes, i)
    {
      if Less(cycleNodes[i], cycleNodes[minIndex]) {
        minIndex := i;
      }
    }
    var rotated := cycleNodes[minIndex..] + cycleNodes[..minIndex];
    key := Join(rotated, "->");
  }

  /**
   * Detect the cycles of an arbitrary edge map. The result is empty exactly for
   * an acyclic graph; every reported path is a simple cycle, no two with the same
   * key, so none a rotation of another; and, where keys tell cycles, every closed
   * walk of the graph runs through the closing edge of a reported path.
   */
  method DetectCycles(edges: Edges) returns (cycles: seq<seq<string>>)
    ensures cycles == [] <==> Acyclic(edges)
    ensures forall c :: c in cycles ==> IsSimpleCycle(edges, c)
    ensures forall i, j :: 0 <= i < j < |cycles| ==> !IsRotation(Nodes(cycles[i]), Nodes(cycles[j]))
    ensures DifferentKeys(cycles)
    ensures KeysTellCycles(edges) ==> EveryCycleCut(edges, cycles)
  {
    hide ClosingEdges, ValidReport, ValidOrder, SuccessorsFirst, Acyclic, EveryCycleCut, KeysTellCycles, DifferentKeys;
    var d := new CycleDetector(edges);
    var names := SortedNames(edges.Keys);
    for i := 0 to |names|
      invariant d.Valid() && d.stack == [] && d.edges == edges
      invariant forall j :: 0 <= j < i ==> names[j] in d.finished
    {
      if d.ColorOf(names[i]) == White {
        d.Visit(names[i]);
      }
    }
    cycles := d.cycles;
    if d.Telling() {
      FinishedReport(edges, cycles, d.finished);
    }
    ReportIsSound(edges, cycles, d.seenCycleKeys);
  }

  /** Every closed walk of the graph runs through the closing edge of a reported path. */
  ghost predicate EveryCycleCut(edges: Edges, cycles: seq<seq<string>>) {
    forall p :: IsClosedWalk(edges, p) ==> UsesEdgeOf(p, ClosingEdges(cycles))
  }

  lemma FinishedReport(edges: Edges, cycles: seq<seq<string>>, finished: seq<string>)
    requires SuccessorsFirst(edges, ClosingEdges(cycles), finished)
    requires forall u :: u in edges ==> u in finished
    ensures EveryCycleCut(edges, cycles)
    ensures cycles == [] ==> Acyclic(edges)
  {
    FinishOrderCutsWalks(edges, ClosingEdges(cycles), finished);
  }

  lemma ReportIsSound(edges: Edges, cycles: seq<seq<string>>, seenCycleKeys: set<string>)
    requires ValidReport(edges, cycles, seenCycleKeys)
    ensures cycles != [] ==> !Acyclic(edges)
    ensures forall c :: c in cycles ==> IsSimpleCycle(edges, c)
    ensures forall i, j :: 0 <= i < j < |cycles| ==> !IsRotation(Nodes(cycles[i]), Nodes(cycles[j]))
    ensures DifferentKeys(cycles)
  {
    forall c | c in cycles
      ensures IsSimpleCycle(edges, c)
    {
      assert Reported(edges, seenCycleKeys, c);
    }
    if cycles != [] {
      assert cycles[0] in cycles;
      assert IsClosedWalk(edges, cycles[0]);
    }
    forall i, j | 0 <= i < j < |cycles|
      ensures !IsRotation(Nodes(cycles[i]), Nodes(cycles[j]))
    {
      assert cycles[i] in cycles && cycles[j] in cycles;
      assert KeyOf(cycles[i]) != KeyOf(cycles[j]);
      if IsRotation(Nodes(cycles[i]), Nodes(cycles[j])) {
        CanonicalIgnoresRotation(Nodes(cycles[i]), Nodes(cycles[j]));
      }
    }
  }

  // ------------------------------------------------- a separator inside a name

  /** Two cycles, `a` to `b` and back and `a->b` to itself, with one key. */
  const ARROW_EDGES: Edges := map["a" := ["b"], "b" := ["a"], "a->b" := ["a->b"]]

  lemma ArrowKeys()
    ensures KeyOf(["a", "b", "a"]) == "a->b" && KeyOf(["b", "a", "b"]) == "a->b" && KeyOf(["a->b", "a->b"]) == "a->b"
  {
    assert Nodes(["a", "b", "a"]) == ["a", "b"] && Nodes(["b", "a", "b"]) == ["b", "a"] && Nodes(["a->b", "a->b"]) == ["a->b"];
    assert Less("a", "b") && !Less("b", "a");
    assert MinIndexUpTo(["a", "b"], 1) == 0 && MinIndexUpTo(["b", "a"], 1) == 0;
    assert MinIndexUpTo(["a", "b"], 2) == 0 && MinIndexUpTo(["b", "a"], 2) == 1;
    assert Canonical(["a", "b"]) == ["a", "b"] && Canonical(["b", "a"]) == ["a", "b"];
    assert Canonical(["a->b"]) == ["a->b"];
    assert Join(["b"], "->") == "b";
    assert Join(["a", "b"], "->") == "a" + "->" + "b";
  }

  /** These are all the simple cycles of that map. */
  lemma ArrowCycles(c: seq<string>)
    requires IsSimpleCycle(ARROW_EDGES, c)
    ensures c == ["a", "b", "a"] || c == ["b", "a", "b"] || c == ["a->b", "a->b"]
  {
    assert c[1] in Successors(ARROW_EDGES, c[0]);
    assert forall i :: 0 <= i < |c| - 1 ==> Nodes(c)[i] == c[i];
    if c[0] == "a->b" {
      assert c[1] == c[0];
      assert |c| == 2;
    } else {
      assert c[0] != c[1];
      assert c[2] in Successors(ARROW_EDGES, c[1]);
      assert c[2] == c[0];
      assert |c| == 3;
    }
  }

  /**
   * Whatever cycles a search of that map reports, it drops one of the two: with
   * different keys it reports at most one cycle, and the other runs through no
   * edge that closes it.
   */
  lemma ArrowInNameHidesCycle(cycles: seq<seq<string>>)
    requires forall c :: c in cycles ==> IsSimpleCycle(ARROW_EDGES, c)
    requires DifferentKeys(cycles)
    ensures !KeysTellCycles(ARROW_EDGES) && !EveryCycleCut(ARROW_EDGES, cycles)
  {
    hide CanonicalKey, ClosingEdges, DifferentKeys, Canonical;
    ArrowKeys();
    forall i | 0 <= i < |cycles|
      ensures KeyOf(cycles[i]) == "a->b"
    {
      ArrowCycles(cycles[i]);
    }
    AtMostOne(cycles);
    var p, q := ["a", "b", "a"], ["a->b", "a->b"];
    assert Nodes(p) == ["a", "b"] && Nodes(q) == ["a->b"];
    assert IsSimpleCycle(ARROW_EDGES, p) && IsSimpleCycle(ARROW_EDGES, q) && KeyOf(p) == KeyOf(q);
    assert !IsRotation(Nodes(p), Nodes(q));
    OneClosingEdge(cycles);
    if cycles == [q] {
      assert !UsesEdgeOf(p, ClosingEdges(cycles));
    } else {
      if cycles != [] {
        ArrowCycles(cycles[0]);
      }
      assert !UsesEdgeOf(q, ClosingEdges(cycles));
    }
  }

  lemma FirstTwoDiffer(cycles: seq<seq<string>>)
    requires DifferentKeys(cycles) && |cycles| > 1
    ensures KeyOf(cycles[0]) != KeyOf(cycles[1])
  {
    hide KeyOf;
  }

  lemma AtMostOne(cycles: seq<seq<string>>)
    requires DifferentKeys(cycles) && forall i :: 0 <= i < |cycles| ==> KeyOf(cycles[i]) == "a->b"
    ensures |cycles| <= 1
  {
    hide DifferentKeys, KeyOf;
    if |cycles| > 1 {
      FirstTwoDiffer(cycles);
    }
  }

  lemma OneClosingEdge(cycles: seq<seq<string>>)
    requires |cycles| <= 1
    ensures ClosingEdges(cycles) ==
            if cycles == [] || |cycles[0]| < 2 then {} else {(cycles[0][|cycles[0]| - 2], cycles[0][|cycles[0]| - 1])}
  {
    if cycles != [] {
      assert cycles[..0] == [];
    }
  }

  /**
   * That keys tell cycles is not needed: here `a`, `b`, `c`, `z` and `a`, `b->c`,
   * `z` share a key, and the one cycle reported closes over the edge that both
   * run through.
   */
  lemma CutWithoutTelling(cycles: seq<seq<string>>)
    requires cycles == [["a", "b", "c", "z", "a"]]
    ensures !KeysTellCycles(SHARED_EDGES) && EveryCycleCut(SHARED_EDGES, cycles)
    ensures DifferentKeys(cycles) && forall c :: c in cycles ==> IsSimpleCycle(SHARED_EDGES, c)
  {
    hide CanonicalKey, ClosingEdges, IsSimpleCycle, IsRotation, Nodes, SuccessorsFirst;
    var p, q := ["a", "b", "c", "z", "a"], ["a", "b->c", "z", "a"];
    SharedEdgeKeys();
    SharedEdgeCycles(p, q);
    assert KeyOf(p) == KeyOf(q);
    OneClosingEdge(cycles);
    SharedEdgeOrder();
    FinishedReport(SHARED_EDGES, cycles, SHARED_ORDER);
  }

  const SHARED_EDGES: Edges := map["a" := ["b", "b->c"], "b" := ["c"], "c" := ["z"], "b->c" := ["z"], "z" := ["a"]]
  const SHARED_ORDER := ["z", "c", "b", "b->c", "a"]

  lemma SharedEdgeCycles(p: seq<string>, q: seq<string>)
    requires p == ["a", "b", "c", "z", "a"] && q == ["a", "b->c", "z", "a"]
    ensures IsSimpleCycle(SHARED_EDGES, p) && IsSimpleCycle(SHARED_EDGES, q) && !IsRotation(Nodes(p), Nodes(q))
  {
    assert Nodes(p) == ["a", "b", "c", "z"] && Nodes(q) == ["a", "b->c", "z"];
  }

  lemma SharedEdgeOrder()
    ensures SuccessorsFirst(SHARED_EDGES, {("z", "a")}, SHARED_ORDER)
  {
    assert SHARED_ORDER[..1] == ["z"] && SHARED_ORDER[..2] == ["z", "c"] && SHARED_ORDER[..3] == ["z", "c", "b"];
    assert SHARED_ORDER[..4] == ["z", "c", "b", "b->c"];
  }

  lemma SharedEdgeKeys()
    ensures KeyOf(["a", "b", "c", "z", "a"]) == "a->b->c->z" && KeyOf(["a", "b->c", "z", "a"]) == "a->b->c->z"
  {
    var p, q := ["a", "b", "c", "z"], ["a", "b->c", "z"];
    assert Nodes(["a", "b", "c", "z", "a"]) == p && Nodes(["a", "b->c", "z", "a"]) == q;
    assert MinIndexUpTo(p, 1) == 0 && MinIndexUpTo(p, 2) == 0 && MinIndexUpTo(p, 3) == 0 && MinIndexUpTo(p, 4) == 0;
    assert MinIndexUpTo(q, 1) == 0 && MinIndexUpTo(q, 2) == 0 && MinIndexUpTo(q, 3) == 0;
    assert Canonical(p) == p && Canonical(q) == q;
    assert p[1..] == ["b", "c", "z"] && p[1..][1..] == ["c", "z"] && p[1..][1..][1..] == ["z"];
    assert q[1..] == ["b->c", "z"] && q[1..][1..] == ["z"];
    assert Join(p, "->") == "a" + "->" + ("b" + "->" + ("c" + "->" + "z"));
    assert Join(q, "->") == "a" + "->" + ("b->c" + "->" + "z");
  }
}
