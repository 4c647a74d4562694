/**
 The two halves of the siblings put together: the children of every node of a tree can be kept in
 a linked list with groups, and what each step of the tree does to its sequence of children is
 what the operation on the linked list does.
 */
module KidLists {
  import opened Sequences
  import opened Suffixes
  import opened Nodes
  import opened Trie
  import opened TrieKids
  import opened SiblingOrder
  import L = Siblings

  /** The objects of a linked list. */
  ghost function Objects(l: L.Siblings): (objects: set<object>)
    reads l
  {
    {l} + (set x: object | x in l.list) + (set g: object | g in l.groups)
  }

  /** The linked list has the children s in their order: child i has the count of node i. */
  ghost predicate Represents(V: Snapshot, s: seq<Node>, l: L.Siblings)
    reads Objects(l), l
  {
    l.Valid() && L.Counts(l.list) == Counts(V, s)
  }

  lemma CountsLast(kids: seq<L.Kid>, x: L.Kid)
    ensures L.Counts(kids + [x]) == L.Counts(kids) + [x.count]
  {
    assert (kids + [x])[..|kids|] == kids;
  }

  /** A child with no higher count than any other goes last, and is the first of a node without children. */
  method PutLast(l: L.Siblings, c: int)
    requires l.Valid() && L.Fits(L.Counts(l.list), |l.list|, c)
    modifies Objects(l)
    ensures l.Valid() && L.Counts(l.list) == old(L.Counts(l.list)) + [c]
    ensures fresh(Objects(l) - old(Objects(l)))
  {
    var x := new L.Kid(c);
    CountsLast(l.list, x);
    if l.head == null {
      l.InsertFirst(x);
    } else {
      l.InsertLast(x);
    }
    CountsLast(old(l.list), x);
  }

  lemma NextFits(cs: seq<int>, i: nat, l: L.Siblings)
    requires Descending(cs) && i < |cs| && L.Counts(l.list) == cs[..i]
    ensures L.Fits(L.Counts(l.list), |l.list|, cs[i])
  {
    assert i > 0 ==> InOrder(cs, i - 1, i);
    assert |L.Counts(l.list)| == |l.list|;
  }

  method PutNext(l: L.Siblings, cs: seq<int>, i: nat)
    requires Descending(cs) && i < |cs| && l.Valid() && L.Counts(l.list) == cs[..i]
    modifies Objects(l)
    ensures l.Valid() && L.Counts(l.list) == cs[..i + 1] && fresh(Objects(l) - old(Objects(l)))
  {
    assert cs[..i + 1] == cs[..i] + [cs[i]];
    hide *;
    NextFits(cs, i, l);
    PutLast(l, cs[i]);
  }

  method NoKids() returns (l: L.Siblings)
    ensures l.Valid() && L.Counts(l.list) == [] && fresh(Objects(l))
  {
    l := new L.Siblings();
    assert Objects(l) == {l};
  }

  /** A linked list for children with these counts. */
  method Build(cs: seq<int>) returns (l: L.Siblings)
    requires Descending(cs)
    ensures l.Valid() && L.Counts(l.list) == cs && fresh(Objects(l))
  {
    hide L.Siblings.Valid, L.Counts, Descending;
    l := NoKids();
    assert cs[..0] == [];
    for i := 0 to |cs|
      invariant l.Valid() && L.Counts(l.list) == cs[..i] && fresh(Objects(l))
    {
      ghost var before := Objects(l);
      PutNext(l, cs, i);
      assert Objects(l) <= before + (Objects(l) - before);
    }
    assert cs[..|cs|] == cs;
  }

  /** The children of node n are kept in the list for it. */
  ghost predicate Kept(V: Snapshot, K: Lists, lists: map<Node, L.Siblings>, n: Node)
    requires n in lists
    reads Objects(lists[n]), lists[n]
  {
    n in K && Represents(V, K[n], lists[n])
  }

  /** The children of all nodes of a tree can be kept in such lists, each with objects of its own. */
  method BuildAll(V: Snapshot, K: Lists) returns (lists: map<Node, L.Siblings>)
    requires AllKids(V, K)
    ensures lists.Keys == V.Keys && forall n | n in lists :: Kept(V, K, lists, n)
    ensures forall n, m | n in lists && m in lists && n != m :: Objects(lists[n]) !! Objects(lists[m])
  {
    lists := map[];
    var todo := V.Keys;
    ghost var objects: set<object> := {};
    while todo != {}
      invariant todo <= V.Keys && lists.Keys == V.Keys - todo
      invariant forall n | n in lists :: Kept(V, K, lists, n) && Objects(lists[n]) <= objects
      invariant forall n, m | n in lists && m in lists && n != m :: Objects(lists[n]) !! Objects(lists[m])
    {
      hide Represents, Objects;
      var n :| n in todo;
      assert KidsAt(V, K, n);
      var l := Build(Counts(V, K[n]));
      RepresentsIf(V, K[n], l);
      lists := lists[n := l];
      objects := objects + Objects(l);
      todo := todo - {n};
    }
  }

  lemma RepresentsIf(V: Snapshot, s: seq<Node>, l: L.Siblings)
    requires l.Valid() && L.Counts(l.list) == Counts(V, s)
    ensures Represents(V, s, l)
  {
  }

  // ----- What a step of the tree does to the list of one node -----

  /** The counts after child i has got another one and been moved to index j. */
  lemma CountsMoved(kids: seq<L.Kid>, cs: seq<int>, i: nat, j: nat, delta: int)
    requires |cs| == |kids| && i < |kids| && j < |kids| && kids[i].count == cs[i] + delta
    requires forall k | 0 <= k < |kids| && k != i :: kids[k].count == cs[k]
    ensures L.Counts(Moved(kids, i, j)) == Moved(cs, i, j)[j := cs[i] + delta]
  {
    forall k | 0 <= k < |cs| ensures L.Counts(Moved(kids, i, j))[k] == Moved(cs, i, j)[j := cs[i] + delta][k] {
      MovedAt(kids, i, j, k);
      MovedAt(cs, i, j, k);
    }
    MovedAt(cs, i, j, i);
    MovedAt(kids, i, j, i);
  }

  /** What the lists of the kids say of child i. */
  lemma ChildAt(V: Snapshot, s: seq<Node>, l: L.Siblings, i: nat)
    requires Represents(V, s, l) && i < |s|
    ensures l.Valid() && L.Counts(l.list) == Counts(V, s) && |l.list| == |s| && IndexOf(l.list, l.list[i]) == i
    ensures Distinct(l.list) && forall k | 0 <= k < |s| :: l.list[k].count == Counts(V, s)[k]
  {
    L.IndexIs(l.list, i);
    assert |L.Counts(l.list)| == |l.list|;
  }

  /** A new leaf of node n. */
  method Append(ghost V: Snapshot, ghost V': Snapshot, ghost n: Node, ghost s: seq<Node>, ghost m: Node, ghost t: Token,
                l: L.Siblings)
    requires n in V && ListOk(V, n, s) && ChildrenSame(V, V', n, {}) && m !in V && t !in V[n].children
    requires forall u | u in V[n].children :: V[n].children[u] in V && V[V[n].children[u]].count >= 1
    requires n in V' && m in V' && V'[m].token == t && V'[m].count == 1 && V'[n].children == V[n].children[t := m]
    requires Represents(V, s, l)
    modifies Objects(l)
    ensures ListOk(V', n, s + [m]) && Represents(V', s + [m], l) && fresh(Objects(l) - old(Objects(l)))
  {
    ListAppend(V, V', n, s, m, t);
    assert |L.Counts(l.list)| == |l.list|;
    hide ListOk, L.Siblings.Valid, L.Counts, Counts;
    PutLast(l, 1);
  }

  /** Of the children of n only child i of the list changes, and of that only its count. */
  ghost predicate Recounted(V: Snapshot, V': Snapshot, n: Node, s: seq<Node>, i: nat, delta: int) {
    && n in V && ListOk(V, n, s) && i < |s| && s[i] in V
    && n in V' && V'[n].children == V[n].children && ChildrenSame(V, V', n, {V[s[i]].token})
    && s[i] in V' && V'[s[i]].token == V[s[i]].token && V'[s[i]].count == V[s[i]].count + delta
  }

  lemma SameKids(kids: seq<L.Kid>, i: nat, j: nat)
    requires i < |kids| && j < |kids|
    ensures forall x | x in Moved(kids, i, j) :: x in kids
  {
  }

  /** Child i has got another count and has been moved to index j in both lists. */
  lemma MovedBoth(V: Snapshot, V': Snapshot, s: seq<Node>, l: L.Siblings, kids: seq<L.Kid>, i: nat, j: nat, delta: int)
    requires |kids| == |s| && i < |s| && j < |s| && l.Valid() && l.list == Moved(kids, i, j)
    requires kids[i].count == Counts(V, s)[i] + delta
    requires forall k | 0 <= k < |s| && k != i :: kids[k].count == Counts(V, s)[k]
    requires Counts(V', Moved(s, i, j)) == Moved(Counts(V, s), i, j)[j := Counts(V, s)[i] + delta]
    ensures Represents(V', Moved(s, i, j), l)
  {
    CountsMoved(kids, Counts(V, s), i, j, delta);
  }

  lemma ObjectsIs(l: L.Siblings)
    ensures Objects(l) == {l} + (set x: object | x in l.list) + (set g: object | g in l.groups)
  {
  }

  /** Increment, Decrement and Replace bring no objects but new ones. */
  method Increment(l: L.Siblings, x: L.Kid)
    requires l.Valid() && x in l.list
    modifies Objects(l)
    ensures l.Valid() && x.count == old(x.count) + 1 && forall y | y in old(l.list) && y != x :: y.count == old(y.count)
    ensures var i := IndexOf(old(l.list), x); var j := RaisedIndex(old(L.Counts(l.list)), i);
            j < |old(l.list)| && l.list == Moved(old(l.list), i, j)
    ensures fresh(Objects(l) - old(Objects(l)))
  {
    ghost var kids, i := l.list, IndexOf(l.list, x);
    hide *;
    ObjectsIs(l);
    l.Increment(x);
    SameKids(kids, i, RaisedIndex(old(L.Counts(l.list)), i));
    ObjectsIs(l);
  }

  method Decrement(l: L.Siblings, x: L.Kid)
    requires l.Valid() && x in l.list
    modifies Objects(l)
    ensures l.Valid() && x.count == old(x.count) - 1 && forall y | y in old(l.list) && y != x :: y.count == old(y.count)
    ensures var i := IndexOf(old(l.list), x); var j := LoweredIndex(old(L.Counts(l.list)), i);
            j < |old(l.list)| && l.list == Moved(old(l.list), i, j)
    ensures fresh(Objects(l) - old(Objects(l)))
  {
    ghost var kids, i := l.list, IndexOf(l.list, x);
    hide *;
    ObjectsIs(l);
    l.Decrement(x);
    SameKids(kids, i, LoweredIndex(old(L.Counts(l.list)), i));
    ObjectsIs(l);
  }

  method Replace(l: L.Siblings, x: L.Kid, ghost i: nat) returns (y: L.Kid)
    requires l.Valid() && i < |l.list| && x == l.list[i] && i == IndexOf(l.list, x)
    modifies Objects(l)
    ensures l.Valid() && fresh(y) && l.list == old(l.list)[i := y] && L.Counts(l.list) == old(L.Counts(l.list))
    ensures fresh(Objects(l) - old(Objects(l)))
  {
    y := new L.Kid(x.count);
    ghost var kids := l.list;
    L.CountsReplaced(kids, i, y);
    assert forall z: object | z in kids[i := y] :: z in kids || z == y;
    hide L.Siblings.Valid, L.Counts;
    assert L.Counts(kids[i := y]) == L.Counts(kids);
    l.Replace(x, y);
  }

  /** The count of child i grows by one: _increment_count leaves the list as the tree has it then. */
  method Raise(ghost V: Snapshot, ghost V': Snapshot, ghost n: Node, ghost s: seq<Node>, ghost i: nat,
               l: L.Siblings, x: L.Kid)
    requires Recounted(V, V', n, s, i, 1) && Represents(V, s, l) && i < |l.list| && x == l.list[i]
    modifies Objects(l)
    ensures RaisedIndex(Counts(V, s), i) < |s| && fresh(Objects(l) - old(Objects(l)))
    ensures var r := Moved(s, i, RaisedIndex(Counts(V, s), i)); ListOk(V', n, r) && Represents(V', r, l)
  {
    ListRaised(V, V', n, s, i);
    ChildAt(V, s, l, i);
    ghost var kids, j := l.list, RaisedIndex(Counts(V, s), i);
    hide *;
    Increment(l, x);
    MovedBoth(V, V', s, l, kids, i, j, 1);
  }

  /** The count of child i drops by one. */
  method Lower(ghost V: Snapshot, ghost V': Snapshot, ghost n: Node, ghost s: seq<Node>, ghost i: nat,
               l: L.Siblings, x: L.Kid)
    requires Recounted(V, V', n, s, i, -1) && Represents(V, s, l) && i < |l.list| && x == l.list[i]
    modifies Objects(l)
    ensures LoweredIndex(Counts(V, s), i) < |s| && fresh(Objects(l) - old(Objects(l)))
    ensures var r := Moved(s, i, LoweredIndex(Counts(V, s), i)); ListOk(V', n, r) && Represents(V', r, l)
  {
    ListLowered(V, V', n, s, i);
    ChildAt(V, s, l, i);
    ghost var kids, j := l.list, LoweredIndex(Counts(V, s), i);
    hide *;
    Decrement(l, x);
    MovedBoth(V, V', s, l, kids, i, j, -1);
  }

  /** Child i leaves, as a leaf that is removed does. */
  method Take(ghost V: Snapshot, ghost V': Snapshot, ghost n: Node, ghost s: seq<Node>, ghost i: nat, ghost t: Token,
              l: L.Siblings, x: L.Kid)
    requires n in V && ListOk(V, n, s) && i < |s| && s[i] in V && V[s[i]].token == t
    requires n in V' && V'[n].children == V[n].children - {t} && ChildrenSame(V, V', n, {t})
    requires Represents(V, s, l) && i < |l.list| && x == l.list[i]
    modifies Objects(l)
    ensures ListOk(V', n, RemoveAt(s, i)) && Represents(V', RemoveAt(s, i), l)
    ensures Objects(l) <= old(Objects(l))
  {
    ListRemoved(V, V', n, s, i, t);
    ChildAt(V, s, l, i);
    ghost var kids, groups := l.list, l.groups;
    L.CountsRemoved(kids, i);
    L.RemovedMembers(kids, i);
    L.RemovedMembers(groups, i);
    hide *;
    ObjectsIs(l);
    assert L.Counts(RemoveAt(kids, i)) == RemoveAt(Counts(V, s), i);
    l.Remove(x);
    RepresentsIf(V', RemoveAt(s, i), l);
    ObjectsIs(l);
  }

  /** Another node takes the place of child i, with the same token and count. */
  method Swap(ghost V: Snapshot, ghost V': Snapshot, ghost n: Node, ghost s: seq<Node>, ghost i: nat, ghost c: Node,
              l: L.Siblings, x: L.Kid) returns (y: L.Kid)
    requires n in V && ListOk(V, n, s) && i < |s| && s[i] in V && (c in V ==> V[c].parent != n || c == s[i])
    requires ChildrenSame(V, V', n, {V[s[i]].token})
    requires forall u | u in V[n].children :: V[n].children[u] in V && V[V[n].children[u]].parent == n
    requires n in V' && c in V' && V'[c].token == V[s[i]].token && V'[c].count == V[s[i]].count
    requires V'[n].children == V[n].children[V[s[i]].token := c]
    requires Represents(V, s, l) && i < |l.list| && x == l.list[i]
    modifies Objects(l)
    ensures ListOk(V', n, s[i := c]) && Represents(V', s[i := c], l) && fresh(Objects(l) - old(Objects(l)))
    ensures fresh(y) && l.list == old(l.list)[i := y]
  {
    ListReplace(V, V', n, s, i, c);
    ChildAt(V, s, l, i);
    hide *;
    y := Replace(l, x, i);
    RepresentsIf(V', s[i := c], l);
  }
}
