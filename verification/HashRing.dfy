/**
 The consistent hash ring (internal/hashring/ring.go).

 The hash is an arbitrary function from strings to 32-bit values. Two hypotheses
 appear explicitly where the code depends on them: every member owns at least one
 point, and points of different members never collide. Points of one member may
 collide with each other.
 */
module HashRing {
  import opened Sequences

  type Hash = h: int | 0 <= h < 0x1_0000_0000

  /** What is fixed about a ring: the hash function and the points per member. */
  datatype Layout = Layout(hash: string -> Hash, virtualNodes: nat)

  /** The three fields `Add` and `Remove` change. */
  datatype State = State(nodes: map<Hash, string>, hashes: seq<Hash>, members: set<string>)

  function Decimal(n: nat): string {
    if n < 10 then ["0123456789"[n]] else Decimal(n / 10) + ["0123456789"[n % 10]]
  }

  function VirtualName(node: string, i: nat): string {
    node + "#" + Decimal(i)
  }

  function Point(l: Layout, node: string, i: nat): Hash {
    l.hash(VirtualName(node, i))
  }

  /** The first `k` points of a member, in the order the code computes them. */
  function PointsUpTo(l: Layout, node: string, k: nat): seq<Hash> {
    if k == 0 then [] else PointsUpTo(l, node, k - 1) + [Point(l, node, k - 1)]
  }

  function Points(l: Layout, node: string): seq<Hash> {
    PointsUpTo(l, node, l.virtualNodes)
  }

  predicate Sorted(hs: seq<Hash>) {
    forall i, j :: 0 <= i < j < |hs| ==> hs[i] <= hs[j]
  }

  function Insert(h: Hash, hs: seq<Hash>): seq<Hash> {
    if hs == [] || hs[|hs| - 1] <= h then hs + [h]
    else Insert(h, hs[..|hs| - 1]) + [hs[|hs| - 1]]
  }

  /** The sorted arrangement of `hs`, standing for the library's in-place sort. */
  function Sort(hs: seq<Hash>): seq<Hash> {
    if hs == [] then [] else Insert(hs[|hs| - 1], Sort(hs[..|hs| - 1]))
  }

  lemma {:induction false} InsertSorted(h: Hash, hs: seq<Hash>)
    requires Sorted(hs)
    ensures Sorted(Insert(h, hs))
    ensures |Insert(h, hs)| == |hs| + 1
    ensures Insert(h, hs)[|hs|] == if hs == [] || hs[|hs| - 1] <= h then h else hs[|hs| - 1]
  {
    if hs != [] {
      InsertSorted(h, hs[..|hs| - 1]);
    }
  }

  lemma {:induction false} InsertMultiset(h: Hash, hs: seq<Hash>)
    ensures multiset(Insert(h, hs)) == multiset(hs) + multiset{h}
  {
    if hs != [] {
      InsertMultiset(h, hs[..|hs| - 1]);
      assert hs == hs[..|hs| - 1] + [hs[|hs| - 1]];
    }
  }

  lemma {:induction false} SortIsSorted(hs: seq<Hash>)
    ensures Sorted(Sort(hs))
  {
    if hs != [] {
      SortIsSorted(hs[..|hs| - 1]);
      InsertSorted(hs[|hs| - 1], Sort(hs[..|hs| - 1]));
    }
  }

  lemma SplitLast(hs: seq<Hash>)
    requires hs != []
    ensures multiset(hs) == multiset(hs[..|hs| - 1]) + multiset{hs[|hs| - 1]}
  {
    assert hs == hs[..|hs| - 1] + [hs[|hs| - 1]];
  }

  lemma {:induction false} SortMultiset(hs: seq<Hash>)
    ensures multiset(Sort(hs)) == multiset(hs)
  {
    if hs != [] {
      var n := |hs| - 1;
      SortMultiset(hs[..n]);
      InsertMultiset(hs[n], Sort(hs[..n]));
      SplitLast(hs);
      hide Insert;
    }
  }

  const EMPTY := State(map[], [], {})

  /** State after `Add(node)`. */
  function Added(l: Layout, s: State, node: string): State {
    if node in s.members then s
    else State(
      Assign(s.nodes, Points(l, node), node),
      Sort(s.hashes + Points(l, node)),
      s.members + {node})
  }

  function Assign(nodes: map<Hash, string>, points: seq<Hash>, node: string): map<Hash, string> {
    if points == [] then nodes
    else Assign(nodes, points[..|points| - 1], node)[points[|points| - 1] := node]
  }

  function NotIn(drop: set<Hash>): Hash -> bool {
    h => h !in drop
  }

  /** State after `Remove(node)`. */
  function Removed(l: Layout, s: State, node: string): State {
    if node !in s.members then s
    else
      var drop := Elements(Points(l, node));
      State(s.nodes - drop, Keep(NotIn(drop), s.hashes), s.members - {node})
  }

  /** State of a ring built by `New(nodes, virtualNodes)`. */
  function Built(l: Layout, nodes: seq<string>): State {
    if nodes == [] then EMPTY else Added(l, Built(l, nodes[..|nodes| - 1]), nodes[|nodes| - 1])
  }

  // ------------------------------------------------------------------ canonical rings

  /** Points of different members never collide. */
  ghost predicate Separate(l: Layout, members: set<string>) {
    forall a, b, h :: a in members && b in members && Owns(l, a, h) && Owns(l, b, h) ==> a == b
  }

  predicate Owns(l: Layout, node: string, h: Hash) {
    h in Points(l, node)
  }

  /** How many entries for point `h` the sorted point list holds. */
  function Load(l: Layout, nodes: map<Hash, string>, h: Hash): nat {
    if h in nodes then multiset(Points(l, nodes[h]))[h] else 0
  }

  /** The state is determined by its member set: owner of each point, sorted points, multiplicities. */
  ghost predicate Canonical(l: Layout, s: State) {
    && OwnersRight(l, s)
    && Sorted(s.hashes)
    && (forall h :: multiset(s.hashes)[h] == Load(l, s.nodes, h))
  }

  ghost predicate OwnersRight(l: Layout, s: State) {
    && (forall h :: h in s.nodes ==> s.nodes[h] in s.members && Owns(l, s.nodes[h], h))
    && (forall m, h :: m in s.members && Owns(l, m, h) ==> h in s.nodes && s.nodes[h] == m)
  }

  lemma LastBounds(hs: seq<Hash>, h: Hash)
    requires Sorted(hs) && h in multiset(hs)
    ensures h <= hs[|hs| - 1]
  {
    var i :| 0 <= i < |hs| && hs[i] == h;
  }

  lemma SortedPrefix(hs: seq<Hash>, n: nat)
    requires Sorted(hs) && n <= |hs|
    ensures Sorted(hs[..n])
  {
  }

  lemma SameSize(a: seq<Hash>, b: seq<Hash>)
    requires multiset(a) == multiset(b)
    ensures |a| == |b|
  {
    assert |multiset(a)| == |a| && |multiset(b)| == |b|;
  }

  lemma CancelLast(a: seq<Hash>, b: seq<Hash>, x: Hash)
    requires multiset(a + [x]) == multiset(b + [x])
    ensures multiset(a) == multiset(b)
  {
    assert multiset(a) == multiset(a + [x]) - multiset{x};
    assert multiset(b) == multiset(b + [x]) - multiset{x};
  }

  lemma {:induction false} SortedUnique(a: seq<Hash>, b: seq<Hash>)
    requires Sorted(a) && Sorted(b) && multiset(a) == multiset(b)
    ensures a == b
  {
    hide Sorted;
    SameSize(a, b);
    if a != [] {
      var n := |a| - 1;
      SortedPrefix(a, n);
      SortedPrefix(b, n);
      LastBounds(a, b[n]);
      LastBounds(b, a[n]);
      assert a == a[..n] + [a[n]] && b == b[..n] + [a[n]];
      CancelLast(a[..n], b[..n], a[n]);
      SortedUnique(a[..n], b[..n]);
    }
  }

  lemma OwnersUnique(l: Layout, s: State, t: State)
    requires OwnersRight(l, s) && OwnersRight(l, t) && s.members == t.members
    ensures s.nodes == t.nodes
  {
    forall h ensures (h in s.nodes <==> h in t.nodes) && (h in s.nodes ==> s.nodes[h] == t.nodes[h]) {
      if h in s.nodes {
        assert Owns(l, s.nodes[h], h);
      }
      if h in t.nodes {
        assert Owns(l, t.nodes[h], h);
      }
    }
  }

  /** History does not matter: canonical rings with the same members are the same ring. */
  lemma CanonicalUnique(l: Layout, s: State, t: State)
    requires Canonical(l, s) && Canonical(l, t) && s.members == t.members
    ensures s == t
  {
    OwnersUnique(l, s, t);
    assert multiset(s.hashes) == multiset(t.hashes) by {
      forall h ensures multiset(s.hashes)[h] == multiset(t.hashes)[h] {
        assert multiset(s.hashes)[h] == Load(l, s.nodes, h);
      }
    }
    SortedUnique(s.hashes, t.hashes);
  }

  lemma {:induction false} AssignLookup(nodes: map<Hash, string>, points: seq<Hash>, node: string, h: Hash)
    ensures h in Assign(nodes, points, node) <==> h in nodes || h in points
    ensures h in points ==> Assign(nodes, points, node)[h] == node
    ensures h in nodes && h !in points ==> Assign(nodes, points, node)[h] == nodes[h]
  {
    if points != [] {
      var n := |points| - 1;
      AssignLookup(nodes, points[..n], node, h);
      assert points == points[..n] + [points[n]];
    }
  }

  lemma AddedCanonical(l: Layout, s: State, node: string)
    requires Canonical(l, s) && Separate(l, s.members + {node})
    ensures Canonical(l, Added(l, s, node))
  {
    hide Owns, Load, Sort, Assign, Points, Sorted;
    if node !in s.members {
      var t := Added(l, s, node);
      SortIsSorted(s.hashes + Points(l, node));
      forall h
        ensures h in t.nodes <==> h in s.nodes || Owns(l, node, h)
        ensures Owns(l, node, h) ==> t.nodes[h] == node && h !in s.nodes
        ensures h in s.nodes ==> t.nodes[h] == s.nodes[h]
        ensures multiset(t.hashes)[h] == Load(l, t.nodes, h)
      {
        AddedPoint(l, s, node, h);
      }
    }
  }

  lemma AddedPoint(l: Layout, s: State, node: string, h: Hash)
    requires Canonical(l, s) && Separate(l, s.members + {node}) && node !in s.members
    ensures h in Added(l, s, node).nodes <==> h in s.nodes || Owns(l, node, h)
    ensures Owns(l, node, h) ==> Added(l, s, node).nodes[h] == node && h !in s.nodes
    ensures h in s.nodes ==> Added(l, s, node).nodes[h] == s.nodes[h]
    ensures multiset(Added(l, s, node).hashes)[h] == Load(l, Added(l, s, node).nodes, h)
  {
    AssignLookup(s.nodes, Points(l, node), node, h);
    assert h in s.nodes ==> Owns(l, s.nodes[h], h);
    assert multiset(s.hashes)[h] == Load(l, s.nodes, h);
    SortMultiset(s.hashes + Points(l, node));
    assert multiset(Sort(s.hashes + Points(l, node))) == multiset(s.hashes) + multiset(Points(l, node));
  }

  lemma RemovedCanonical(l: Layout, s: State, node: string)
    requires Canonical(l, s)
    ensures Canonical(l, Removed(l, s, node))
  {
    if node in s.members {
      KeepSorted(NotIn(Elements(Points(l, node))), s.hashes);
      RemovedOwners(l, s, node);
      forall h ensures multiset(Removed(l, s, node).hashes)[h] == Load(l, Removed(l, s, node).nodes, h) {
        RemovedPoint(l, s, node, h);
      }
    }
  }

  lemma RemovedOwners(l: Layout, s: State, node: string)
    requires Canonical(l, s) && node in s.members
    ensures OwnersRight(l, Removed(l, s, node))
  {
    var t := Removed(l, s, node);
    forall h | h in t.nodes ensures t.nodes[h] in t.members && Owns(l, t.nodes[h], h) {
      assert Owns(l, s.nodes[h], h);
    }
  }

  lemma RemovedPoint(l: Layout, s: State, node: string, h: Hash)
    requires Canonical(l, s) && node in s.members
    ensures h in Removed(l, s, node).nodes <==> h in s.nodes && !Owns(l, node, h)
    ensures multiset(Removed(l, s, node).hashes)[h] == Load(l, Removed(l, s, node).nodes, h)
  {
    KeepCount(NotIn(Elements(Points(l, node))), s.hashes, h);
    assert multiset(s.hashes)[h] == Load(l, s.nodes, h);
  }

  lemma {:induction false} KeepSorted(f: Hash -> bool, hs: seq<Hash>)
    requires Sorted(hs)
    ensures Sorted(Keep(f, hs))
  {
    if hs != [] {
      var n := |hs| - 1;
      KeepSorted(f, hs[..n]);
      forall i | 0 <= i < |Keep(f, hs[..n])| ensures Keep(f, hs[..n])[i] <= hs[n] {
        KeepMember(f, hs[..n], Keep(f, hs[..n])[i]);
      }
    }
  }

  /** `New` over any list of addresses, in any order and with repeats, is canonical for its element set. */
  lemma {:induction false} BuiltCanonical(l: Layout, nodes: seq<string>)
    requires Separate(l, Elements(nodes))
    ensures Canonical(l, Built(l, nodes)) && Built(l, nodes).members == Elements(nodes)
  {
    if nodes != [] {
      var n := |nodes| - 1;
      assert Elements(nodes) == Elements(nodes[..n]) + {nodes[n]};
      BuiltCanonical(l, nodes[..n]);
      AddedCanonical(l, Built(l, nodes[..n]), nodes[n]);
    }
  }

  datatype Change = Join(node: string) | Leave(node: string)

  /** The ring after a history of joins and leaves. */
  function AfterChanges(l: Layout, s: State, changes: seq<Change>): State {
    if changes == [] then s
    else
      var t := AfterChanges(l, s, changes[..|changes| - 1]);
      match changes[|changes| - 1]
      case Join(node) => Added(l, t, node)
      case Leave(node) => Removed(l, t, node)
  }

  /** No two addresses that ever joined share a point. */
  ghost predicate SeparateHistory(l: Layout, s: State, changes: seq<Change>) {
    Separate(l, s.members + set c | c in changes :: c.node)
  }

  lemma {:induction false} ChangesCanonical(l: Layout, s: State, changes: seq<Change>)
    requires Canonical(l, s) && SeparateHistory(l, s, changes)
    ensures Canonical(l, AfterChanges(l, s, changes))
    ensures AfterChanges(l, s, changes).members <= s.members + set c | c in changes :: c.node
  {
    if changes != [] {
      var n := |changes| - 1;
      assert forall c :: c in changes[..n] ==> c in changes;
      assert (set c | c in changes[..n] :: c.node) <= set c | c in changes :: c.node;
      ChangesCanonical(l, s, changes[..n]);
      var t := AfterChanges(l, s, changes[..n]);
      assert changes[n] in changes;
      assert t.members + {changes[n].node} <= s.members + set c | c in changes :: c.node;
      if changes[n].Join? {
        AddedCanonical(l, t, changes[n].node);
      } else {
        RemovedCanonical(l, t, changes[n].node);
      }
    }
  }

  /**
   Ring construction is history-independent: any joins and leaves that end in the member set
   of `nodes` yield exactly the ring `New` builds from `nodes`, in any order of `nodes`.
   */
  lemma HistoryIndependent(l: Layout, start: seq<string>, changes: seq<Change>, nodes: seq<string>)
    requires Separate(l, Elements(start) + (set c | c in changes :: c.node))
    requires AfterChanges(l, Built(l, start), changes).members == Elements(nodes)
    ensures AfterChanges(l, Built(l, start), changes) == Built(l, nodes)
  {
    var s := Built(l, start);
    BuiltCanonical(l, start);
    ChangesCanonical(l, s, changes);
    BuiltCanonical(l, nodes);
    CanonicalUnique(l, AfterChanges(l, s, changes), Built(l, nodes));
  }

  /**
   Without separate points the result depends on history: when `b` shares a point with `a`, adding and then
   removing `b` leaves the ring of `a` alone without that point.
   */
  lemma CollisionBreaksHistory(l: Layout, a: string, b: string, p: Hash)
    requires a != b && Owns(l, a, p) && Owns(l, b, p)
    ensures var s := Built(l, [a]); var t := AfterChanges(l, s, [Join(b), Leave(b)]);
            && s.members == {a} && t.members == {a}
            && p in s.hashes && p in s.nodes && s.nodes[p] == a
            && p !in t.hashes && p !in t.nodes
  {
    var s := Built(l, [a]);
    assert [a][..0] == [] && Built(l, []) == EMPTY;
    assert s == Added(l, EMPTY, a);
    SortMember(EMPTY.hashes + Points(l, a), p);
    AssignLookup(EMPTY.nodes, Points(l, a), a, p);
    hide Built, AfterChanges, Points, Sort, Assign, Keep;
    var both := Added(l, s, b);
    TwoChanges(l, s, Join(b), Leave(b));
    KeepMember(NotIn(Elements(Points(l, b))), both.hashes, p);
  }

  /** Joins, leaves and the addresses the ring was first built from all come from `names`. */
  predicate Within(names: set<string>, start: seq<string>, changes: seq<Change>) {
    (forall m :: m in start ==> m in names) && (forall c :: c in changes ==> c.node in names)
  }

  /** Every history over these names that ends in the members of some list ends in the ring `New` builds from it. */
  ghost predicate HistoriesAgree(l: Layout, names: set<string>) {
    forall start: seq<string>, changes: seq<Change>, nodes: seq<string> ::
      Within(names, start, changes) && AfterChanges(l, Built(l, start), changes).members == Elements(nodes)
      ==> AfterChanges(l, Built(l, start), changes) == Built(l, nodes)
  }

  /** Over given names, the history of the ring never matters if and only if no two names share a point. */
  lemma HistoriesAgreeIff(l: Layout, names: set<string>)
    ensures HistoriesAgree(l, names) <==> Separate(l, names)
  {
    hide Built, AfterChanges, Owns;
    if Separate(l, names) {
      forall start: seq<string>, changes: seq<Change>, nodes: seq<string>
        | Within(names, start, changes) && AfterChanges(l, Built(l, start), changes).members == Elements(nodes)
        ensures AfterChanges(l, Built(l, start), changes) == Built(l, nodes)
      {
        SeparateWithin(l, names, start, changes);
        HistoryIndependent(l, start, changes, nodes);
      }
    } else {
      var a, b, p :| a in names && b in names && Owns(l, a, p) && Owns(l, b, p) && a != b;
      CollisionBreaksHistory(l, a, b, p);
      assert Within(names, [a], [Join(b), Leave(b)]);
      assert Elements([a]) == {a};
      assert AfterChanges(l, Built(l, [a]), [Join(b), Leave(b)]).members == Elements([a]);
    }
  }

  lemma SeparateWithin(l: Layout, names: set<string>, start: seq<string>, changes: seq<Change>)
    requires Separate(l, names) && Within(names, start, changes)
    ensures Separate(l, Elements(start) + (set c | c in changes :: c.node))
  {
    hide Owns;
  }

  lemma SortMember(hs: seq<Hash>, h: Hash)
    ensures h in Sort(hs) <==> h in hs
  {
    SortMultiset(hs);
    assert h in multiset(Sort(hs)) <==> h in multiset(hs);
  }

  lemma TwoChanges(l: Layout, s: State, c: Change, d: Change)
    ensures AfterChanges(l, s, [c, d]) == AfterChanges(l, AfterChanges(l, s, [c]), [d])
    ensures c.Join? ==> AfterChanges(l, s, [c]) == Added(l, s, c.node)
    ensures d.Leave? ==> AfterChanges(l, s, [c, d]) == Removed(l, AfterChanges(l, s, [c]), d.node)
  {
    assert [c, d][..1] == [c] && [c][..0] == [] && [d][..0] == [];
    assert AfterChanges(l, s, []) == s;
    assert AfterChanges(l, AfterChanges(l, s, [c]), []) == AfterChanges(l, s, [c]);
  }
}
