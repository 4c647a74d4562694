/**
 The order of the children: next to its child map, every node lists its children by
 nonincreasing count.  Each step of append and remove keeps the list in step with the map.
 */
module TrieKids {
  import opened Sequences
  import opened Suffixes
  import opened Nodes
  import opened Trie
  import opened TrieAppend
  import opened TrieRemove
  import opened SiblingOrder

  type Lists = map<Node, seq<Node>>

  function CountOf(V: Snapshot, c: Node): int {
    if c in V then V[c].count else 0
  }

  function Counts(V: Snapshot, s: seq<Node>): seq<int> {
    seq(|s|, i requires 0 <= i < |s| => CountOf(V, s[i]))
  }

  /** Entry i of the list is the child the map holds for its token. */
  ghost predicate KidOk(V: Snapshot, n: Node, s: seq<Node>, i: int)
    requires n in V && 0 <= i < |s|
  {
    s[i] in V && V[s[i]].token in V[n].children && V[n].children[V[s[i]].token] == s[i]
  }

  /** The child the map holds for t is in the list. */
  ghost predicate Listed(V: Snapshot, n: Node, s: seq<Node>, t: Token)
    requires n in V && t in V[n].children
  {
    exists i :: 0 <= i < |s| && s[i] == V[n].children[t]
  }

  /** The list s holds exactly the children of n, each once, by nonincreasing count. */
  ghost predicate ListOk(V: Snapshot, n: Node, s: seq<Node>)
    requires n in V
  {
    && (forall i {:trigger KidOk(V, n, s, i)} | 0 <= i < |s| :: KidOk(V, n, s, i))
    && (forall t {:trigger Listed(V, n, s, t)} | t in V[n].children :: Listed(V, n, s, t))
    && Distinct(s)
    && Descending(Counts(V, s))
  }

  ghost predicate KidsAt(V: Snapshot, K: Lists, n: Node) {
    n in V && n in K && ListOk(V, n, K[n])
  }

  ghost predicate AllKids(V: Snapshot, K: Lists) {
    && K.Keys == V.Keys
    && forall n {:trigger KidsAt(V, K, n)} | n in V :: KidsAt(V, K, n)
  }

  // ----- What happens to one list -----

  /** Token and count of the children of n, but the one for token u, are as before. */
  ghost predicate ChildSame(V: Snapshot, V': Snapshot, n: Node, t: Token)
    requires n in V && t in V[n].children
  {
    var c := V[n].children[t];
    c in V && c in V' && V'[c].token == V[c].token == t && V'[c].count == V[c].count
  }

  ghost predicate ChildrenSame(V: Snapshot, V': Snapshot, n: Node, but: set<Token>)
    requires n in V
  {
    forall t {:trigger ChildSame(V, V', n, t)} | t in V[n].children && t !in but :: ChildSame(V, V', n, t)
  }

  lemma ListKept(V: Snapshot, V': Snapshot, n: Node, s: seq<Node>)
    requires n in V && ListOk(V, n, s) && ChildrenSame(V, V', n, {})
    requires n in V' && V'[n].children == V[n].children
    ensures ListOk(V', n, s)
  {
    forall i | 0 <= i < |s| ensures KidOk(V', n, s, i) && Counts(V', s)[i] == Counts(V, s)[i] {
      assert KidOk(V, n, s, i);
      assert ChildSame(V, V', n, V[s[i]].token);
    }
    assert Counts(V', s) == Counts(V, s);
    forall t | t in V'[n].children ensures Listed(V', n, s, t) {
      assert Listed(V, n, s, t);
    }
  }

  /** A new child with count 1 goes to the tail. */
  lemma ListAppend(V: Snapshot, V': Snapshot, n: Node, s: seq<Node>, m: Node, t: Token)
    requires n in V && ListOk(V, n, s) && ChildrenSame(V, V', n, {}) && m !in V && t !in V[n].children
    requires forall u | u in V[n].children :: V[n].children[u] in V && V[V[n].children[u]].count >= 1
    requires n in V' && m in V' && V'[m].token == t && V'[m].count == 1 && V'[n].children == V[n].children[t := m]
    ensures ListOk(V', n, s + [m]) && Counts(V', s + [m]) == Counts(V, s) + [1]
    ensures forall i | 0 <= i < |s| :: Counts(V, s)[i] >= 1
  {
    var s' := s + [m];
    forall i | 0 <= i < |s| ensures KidOk(V', n, s', i) && Counts(V', s')[i] == Counts(V, s)[i] >= 1 && s[i] != m {
      assert KidOk(V, n, s, i);
      assert ChildSame(V, V', n, V[s[i]].token);
    }
    assert KidOk(V', n, s', |s|);
    forall u | u in V'[n].children ensures Listed(V', n, s', u) {
      if u == t {
        assert s'[|s|] == m;
      } else {
        assert Listed(V, n, s, u);
        var i :| 0 <= i < |s| && s[i] == V[n].children[u];
        assert s'[i] == s[i];
      }
    }
    forall i, j | 0 <= i < j < |s'| ensures InOrder(Counts(V', s'), i, j) {
      assert j < |s| ==> InOrder(Counts(V, s), i, j);
    }
  }

  /** A child is replaced by a node with the same token and count. */
  lemma ListReplace(V: Snapshot, V': Snapshot, n: Node, s: seq<Node>, i: nat, c: Node)
    requires n in V && ListOk(V, n, s) && i < |s| && s[i] in V && (c in V ==> V[c].parent != n || c == s[i])
    requires ChildrenSame(V, V', n, {V[s[i]].token})
    requires forall u | u in V[n].children :: V[n].children[u] in V && V[V[n].children[u]].parent == n
    requires n in V' && c in V' && V'[c].token == V[s[i]].token && V'[c].count == V[s[i]].count
    requires V'[n].children == V[n].children[V[s[i]].token := c]
    ensures ListOk(V', n, s[i := c])
    ensures Counts(V', s[i := c]) == Counts(V, s)
  {
    var s' := s[i := c];
    forall k | 0 <= k < |s'| ensures KidOk(V', n, s', k) && Counts(V', s')[k] == Counts(V, s)[k]
           && (k != i ==> s[k] != c) {
      assert KidOk(V, n, s, k) && KidOk(V, n, s, i);
      assert k != i ==> ChildSame(V, V', n, V[s[k]].token);
    }
    assert Counts(V', s') == Counts(V, s);
    forall u | u in V'[n].children ensures Listed(V', n, s', u) {
      if u == V[s[i]].token {
        assert s'[i] == c;
      } else {
        assert Listed(V, n, s, u);
        assert KidOk(V, n, s, i) && ChildSame(V, V', n, u);
        var k :| 0 <= k < |s| && s[k] == V[n].children[u];
        assert s'[k] == s[k];
      }
    }
  }

  lemma MovedDistinct(s: seq<Node>, i: nat, j: nat)
    requires Distinct(s) && i < |s| && j < |s|
    ensures Distinct(Moved(s, i, j))
  {
    var s' := Moved(s, i, j);
    forall a, b | 0 <= a < b < |s'| ensures s'[a] != s'[b] {
      MovedAt(s, i, j, a);
      MovedAt(s, i, j, b);
    }
  }

  /** The count of child i changes by delta and the child moves to index j. */
  lemma ListMoved(V: Snapshot, V': Snapshot, n: Node, s: seq<Node>, i: nat, j: nat, delta: int)
    requires n in V && ListOk(V, n, s) && i < |s| && j < |s| && s[i] in V
    requires n in V' && V'[n].children == V[n].children && ChildrenSame(V, V', n, {V[s[i]].token})
    requires s[i] in V' && V'[s[i]].token == V[s[i]].token && V'[s[i]].count == V[s[i]].count + delta
    requires Descending(Moved(Counts(V, s), i, j)[j := Counts(V, s)[i] + delta])
    ensures ListOk(V', n, Moved(s, i, j))
    ensures Counts(V', Moved(s, i, j)) == Moved(Counts(V, s), i, j)[j := Counts(V, s)[i] + delta]
  {
    var s' := Moved(s, i, j);
    var cs := Counts(V, s);
    forall k | 0 <= k < |s| ensures KidOk(V', n, s', k) && Counts(V', s')[k] == Moved(cs, i, j)[j := cs[i] + delta][k] {
      MovedAt(s, i, j, k);
      MovedAt(cs, i, j, k);
      var k' := MovedFrom(i, j, k);
      assert KidOk(V, n, s, k') && KidOk(V, n, s, i);
      assert k' != i ==> ChildSame(V, V', n, V[s[k']].token);
    }
    assert Counts(V', s') == Moved(cs, i, j)[j := cs[i] + delta];
    forall t | t in V'[n].children ensures Listed(V', n, s', t) {
      assert Listed(V, n, s, t);
      var k :| 0 <= k < |s| && s[k] == V[n].children[t];
      MovedAt(s, i, j, k);
      assert s'[MovedTo(i, j, k)] == s[k];
    }
    MovedDistinct(s, i, j);
  }

  lemma ListRemoved(V: Snapshot, V': Snapshot, n: Node, s: seq<Node>, i: nat, t: Token)
    requires n in V && ListOk(V, n, s) && i < |s| && s[i] in V && V[s[i]].token == t
    requires n in V' && V'[n].children == V[n].children - {t} && ChildrenSame(V, V', n, {t})
    ensures ListOk(V', n, RemoveAt(s, i)) && Counts(V', RemoveAt(s, i)) == RemoveAt(Counts(V, s), i)
  {
    var r := RemoveAt(s, i);
    var cs := Counts(V, s);
    forall k | 0 <= k < |r| ensures KidOk(V', n, r, k) && Counts(V', r)[k] == RemoveAt(cs, i)[k] {
      var k' := if k < i then k else k + 1;
      assert KidOk(V, n, s, k') && KidOk(V, n, s, i);
      assert ChildSame(V, V', n, V[s[k']].token);
    }
    assert Counts(V', r) == RemoveAt(cs, i);
    forall u | u in V'[n].children ensures Listed(V', n, r, u) {
      StillListed(V, V', n, s, i, t, u);
    }
    forall a, b | 0 <= a < b < |r| ensures InOrder(Counts(V', r), a, b) {
      assert InOrder(cs, if a < i then a else a + 1, if b < i then b else b + 1);
    }
  }

  lemma StillListed(V: Snapshot, V': Snapshot, n: Node, s: seq<Node>, i: nat, t: Token, u: Token)
    requires n in V && ListOk(V, n, s) && i < |s| && s[i] in V && V[s[i]].token == t
    requires n in V' && V'[n].children == V[n].children - {t} && ChildrenSame(V, V', n, {t}) && u in V'[n].children
    ensures Listed(V', n, RemoveAt(s, i), u)
  {
    var r := RemoveAt(s, i);
    assert Listed(V, n, s, u) && KidOk(V, n, s, i) && ChildSame(V, V', n, u);
    var k :| 0 <= k < |s| && s[k] == V[n].children[u];
    assert r[if k < i then k else k - 1] == s[k];
  }

  lemma ListRaised(V: Snapshot, V': Snapshot, n: Node, s: seq<Node>, i: nat)
    requires n in V && ListOk(V, n, s) && i < |s| && s[i] in V
    requires n in V' && V'[n].children == V[n].children && ChildrenSame(V, V', n, {V[s[i]].token})
    requires s[i] in V' && V'[s[i]].token == V[s[i]].token && V'[s[i]].count == V[s[i]].count + 1
    ensures RaisedIndex(Counts(V, s), i) < |s|
    ensures ListOk(V', n, Moved(s, i, RaisedIndex(Counts(V, s), i)))
    ensures var cs := Counts(V, s); var j := RaisedIndex(cs, i);
            Counts(V', Moved(s, i, j)) == Moved(cs, i, j)[j := cs[i] + 1]
  {
    RaisedDescending(Counts(V, s), i);
    ListMoved(V, V', n, s, i, RaisedIndex(Counts(V, s), i), 1);
  }

  lemma ListLowered(V: Snapshot, V': Snapshot, n: Node, s: seq<Node>, i: nat)
    requires n in V && ListOk(V, n, s) && i < |s| && s[i] in V
    requires n in V' && V'[n].children == V[n].children && ChildrenSame(V, V', n, {V[s[i]].token})
    requires s[i] in V' && V'[s[i]].token == V[s[i]].token && V'[s[i]].count == V[s[i]].count - 1
    ensures LoweredIndex(Counts(V, s), i) < |s|
    ensures ListOk(V', n, Moved(s, i, LoweredIndex(Counts(V, s), i)))
    ensures var cs := Counts(V, s); var j := LoweredIndex(cs, i);
            Counts(V', Moved(s, i, j)) == Moved(cs, i, j)[j := cs[i] - 1]
  {
    LoweredDescending(Counts(V, s), i);
    ListMoved(V, V', n, s, i, LoweredIndex(Counts(V, s), i), -1);
  }

  // ----- What happens to all lists -----

  /** Only the lists of the nodes in near have to be looked at again. */
  lemma KidsStep(V: Snapshot, K: Lists, V': Snapshot, K': Lists, root: Node, n: Node, near: set<Node>)
    requires Shape(V, root) && AllKids(V, K) && K'.Keys == V'.Keys && n in near
    requires forall x | x in V' && x in near :: ListOk(V', x, K'[x])
    requires forall x | x in V' && x !in near :: x in V && K'[x] == K[x] && V'[x].children == V[x].children
    requires forall c | c in V && c != root && V[c].parent !in near ::
               c in V' && V'[c].token == V[c].token && V'[c].count == V[c].count
    ensures AllKids(V', K')
  {
    forall x | x in V' ensures KidsAt(V', K', x) {
      if x !in near {
        assert KidsAt(V, K, x) && ChildrenOk(V, root, x);
        forall t | t in V[x].children ensures ChildSame(V, V', x, t) {
        }
        ListKept(V, V', x, K[x]);
      }
    }
  }

  /** Index i of the list of n is its child c. */
  ghost predicate Kid(V: Snapshot, K: Lists, root: Node, n: Node, i: int, c: Node) {
    && n in V && n in K && 0 <= i < |K[n]| && K[n][i] == c
    && c in V && c != n && c != root && V[c].parent == n && V[c].token in V[n].children
    && V[n].children[V[c].token] == c
  }

  lemma KidAt(V: Snapshot, K: Lists, root: Node, n: Node, i: int)
    requires Shape(V, root) && AllKids(V, K) && n in V && 0 <= i < |K[n]|
    ensures Kid(V, K, root, n, i, K[n][i])
  {
    assert KidsAt(V, K, n) && KidOk(V, n, K[n], i);
    assert ChildrenOk(V, root, n);
    assert Linked(V, K[n][i]);
  }

  /** The children of n but c have the same token and count. */
  lemma SiblingsSame(V: Snapshot, V': Snapshot, root: Node, n: Node, c: Node)
    requires Shape(V, root) && n in V && c in V
    requires forall k | k in V && k != c && k != root && V[k].parent == n ::
               k in V' && V'[k].token == V[k].token && V'[k].count == V[k].count
    ensures ChildrenSame(V, V', n, {V[c].token})
    ensures c == n || c == root || V[c].parent != n ==> ChildrenSame(V, V', n, {})
  {
    assert ChildrenOk(V, root, n);
    forall t | t in V[n].children && V[n].children[t] != c ensures ChildSame(V, V', n, t) {
    }
    assert c != root ==> Linked(V, c);
  }

  // ----- Append -----

  lemma PlantKids(V: Snapshot, K: Lists, root: Node, p: Pos)
    requires Shape(V, root) && AllKids(V, K)
    ensures AllKids(Plant(V, root, p), K)
  {
    var V' := Plant(V, root, p);
    assert KidsAt(V, K, root);
    SiblingsSame(V, V', root, root, root);
    ListKept(V, V', root, K[root]);
    KidsStep(V, K, V', K, root, root, {root});
  }

  lemma GrowLeafKids(V: Snapshot, K: Lists, root: Node, n: Node, sid: int, t: Token)
    requires Shape(V, root) && AllKids(V, K) && n in V && sid in V[n].endpoints && V[n].children == map[]
    ensures AllKids(GrowLeaf(V, n, sid, t), K)
  {
    var V' := GrowLeaf(V, n, sid, t);
    assert KidsAt(V, K, n);
    ListKept(V, V', n, K[n]);
    KidsStep(V, K, V', K, root, n, {n});
  }

  lemma AddLeafKids(V: Snapshot, K: Lists, root: Node, n: Node, m: Node, sid: int, last: int, t: Token)
    requires Shape(V, root) && AllKids(V, K) && n in V && m !in V && t !in V[n].children
    requires forall x | x in V && x != root :: V[x].count >= 1
    ensures AllKids(AddLeaf(V, n, m, sid, last, t), K[m := []][n := K[n] + [m]])
  {
    var V' := AddLeaf(V, n, m, sid, last, t);
    var K' := K[m := []][n := K[n] + [m]];
    assert KidsAt(V, K, n) && ChildrenOk(V, root, n);
    SiblingsSame(V, V', root, n, n);
    ListAppend(V, V', n, K[n], m, t);
    KidsStep(V, K, V', K', root, n, {n, m});
  }

  lemma FuseKids(V: Snapshot, K: Lists, root: Node, n: Node, c: Node, sid: int, last: int, u: Node, i: nat)
    requires Shape(V, root) && AllKids(V, K) && Kid(V, K, root, u, i, n)
    requires c in V && c != n && c != root && V[c].parent == n && V[n].count == V[c].count + 1 && u != c
    ensures AllKids(Fuse(V, n, c, sid, last), (K - {n})[u := K[u][i := c]])
  {
    var V' := Fuse(V, n, c, sid, last);
    assert KidsAt(V, K, u) && ChildrenOk(V, root, u);
    SiblingsSame(V, V', root, u, n);
    ListReplace(V, V', u, K[u], i, c);
    KidsStep(V, K, V', (K - {n})[u := K[u][i := c]], root, u, {u, n});
  }

  lemma SlideKids(V: Snapshot, K: Lists, root: Node, n: Node, c: Node, sid: int, last: int, t: Token, t2: Token)
    requires Shape(V, root) && AllKids(V, K) && n in V && V[n].children == map[t := c]
    requires c in V && c != n && c != root && V[c].parent == n && sid in V[n].endpoints
    ensures AllKids(Slide(V, n, c, sid, last, t, t2), K)
  {
    var V' := Slide(V, n, c, sid, last, t, t2);
    assert KidsAt(V, K, n);
    SlideList(V, V', n, K[n], c, t, t2);
    KidsStep(V, K, V', K, root, n, {n});
  }

  lemma SlideList(V: Snapshot, V': Snapshot, n: Node, s: seq<Node>, c: Node, t: Token, t2: Token)
    requires n in V && ListOk(V, n, s) && V[n].children == map[t := c] && c in V
    requires n in V' && V'[n].children == map[t2 := c] && c in V' && V'[c].token == t2 && V'[c].count == V[c].count
    ensures ListOk(V', n, s)
  {
    forall i | 0 <= i < |s| ensures KidOk(V', n, s, i) && s[i] == c {
      assert KidOk(V, n, s, i);
    }
    assert Counts(V', s) == Counts(V, s);
    assert V[n].children[t] == c && Listed(V, n, s, t);
    assert Listed(V', n, s, t2);
  }

  lemma DescendKids(V: Snapshot, K: Lists, root: Node, n: Node, c: Node, sid: int, last: int, i: nat)
    requires Shape(V, root) && AllKids(V, K) && Kid(V, K, root, n, i, c)
    ensures RaisedIndex(Counts(V, K[n]), i) < |K[n]|
    ensures AllKids(Descend(V, n, c, sid, last), K[n := Moved(K[n], i, RaisedIndex(Counts(V, K[n]), i))])
  {
    var V' := Descend(V, n, c, sid, last);
    assert KidsAt(V, K, n);
    SiblingsSame(V, V', root, n, c);
    ListRaised(V, V', n, K[n], i);
    KidsStep(V, K, V', K[n := Moved(K[n], i, RaisedIndex(Counts(V, K[n]), i))], root, n, {n});
  }

  lemma SplitKids(V: Snapshot, K: Lists, root: Node, n: Node, c: Node, m: Node, sid: int, last: int, t: Token,
                  t2: Token, i: nat)
    requires Shape(V, root) && AllKids(V, K) && Kid(V, K, root, n, i, c) && m !in V && V[c].token == t
    ensures RaisedIndex(Counts(V, K[n]), i) < |K[n]|
    ensures AllKids(Split(V, n, c, m, sid, last, t, t2),
                    K[m := [c]][n := Moved(K[n][i := m], i, RaisedIndex(Counts(V, K[n]), i))])
  {
    var V' := Split(V, n, c, m, sid, last, t, t2);
    assert KidsAt(V, K, n);
    SplitList(V, V', root, n, K[n], c, m, i);
    SplitNewList(V', c, m, t2);
    KidsStep(V, K, V', K[m := [c]][n := Moved(K[n][i := m], i, RaisedIndex(Counts(V, K[n]), i))], root, n, {n, m});
  }

  lemma SplitList(V: Snapshot, V': Snapshot, root: Node, n: Node, s: seq<Node>, c: Node, m: Node, i: nat)
    requires Shape(V, root) && n in V && ListOk(V, n, s) && i < |s| && s[i] == c && c in V && m !in V
    requires forall k | k in V && k != c && k != root && V[k].parent == n ::
               k in V' && V'[k].token == V[k].token && V'[k].count == V[k].count
    requires n in V' && V'[n].children == V[n].children[V[c].token := m]
    requires m in V' && V'[m].token == V[c].token && V'[m].count == V[c].count + 1
    ensures RaisedIndex(Counts(V, s), i) < |s|
    ensures ListOk(V', n, Moved(s[i := m], i, RaisedIndex(Counts(V, s), i)))
  {
    var V1 := V'[m := V'[m].(count := V[c].count)];
    assert ChildrenOk(V, root, n) && KidOk(V, n, s, i);
    SiblingsSame(V, V1, root, n, c);
    ListReplace(V, V1, n, s, i, m);
    assert ChildrenSame(V1, V', n, {V[c].token}) by {
      forall t | t in V1[n].children && t != V[c].token ensures ChildSame(V1, V', n, t) {
        assert ChildSame(V, V1, n, t);
      }
    }
    ListRaised(V1, V', n, s[i := m], i);
  }

  lemma SplitNewList(V': Snapshot, c: Node, m: Node, t2: Token)
    requires m in V' && c in V' && V'[m].children == map[t2 := c] && V'[c].token == t2
    ensures ListOk(V', m, [c])
  {
    assert Listed(V', m, [c], t2) by {
      assert [c][0] == c;
    }
  }

  // ----- Remove -----

  lemma RootKids(V: Snapshot, K: Lists, root: Node, V': Snapshot)
    requires Shape(V, root) && AllKids(V, K) && V' == V[root := V[root].(count := V[root].count - 1)]
    ensures AllKids(V', K)
  {
    assert KidsAt(V, K, root);
    SiblingsSame(V, V', root, root, root);
    ListKept(V, V', root, K[root]);
    KidsStep(V, K, V', K, root, root, {root});
  }

  lemma LowerKids(V: Snapshot, K: Lists, root: Node, n: Node, c: Node, sid: int, i: nat)
    requires Shape(V, root) && AllKids(V, K) && Kid(V, K, root, n, i, c)
    ensures LoweredIndex(Counts(V, K[n]), i) < |K[n]|
    ensures AllKids(V[c := V[c].(count := V[c].count - 1, endpoints := V[c].endpoints - {sid})],
                    K[n := Moved(K[n], i, LoweredIndex(Counts(V, K[n]), i))])
  {
    var V' := V[c := V[c].(count := V[c].count - 1, endpoints := V[c].endpoints - {sid})];
    assert KidsAt(V, K, n);
    SiblingsSame(V, V', root, n, c);
    ListLowered(V, V', n, K[n], i);
    KidsStep(V, K, V', K[n := Moved(K[n], i, LoweredIndex(Counts(V, K[n]), i))], root, n, {n});
  }

  lemma DropLeafKids(V: Snapshot, K: Lists, root: Node, n: Node, c: Node, t: Token, i: nat)
    requires Shape(V, root) && AllKids(V, K) && Kid(V, K, root, n, i, c) && V[c].token == t && V[c].children == map[]
    ensures AllKids(DropLeaf(V, n, c, t), (K - {c})[n := RemoveAt(K[n], i)])
  {
    var V' := DropLeaf(V, n, c, t);
    assert KidsAt(V, K, n);
    SiblingsSame(V, V', root, n, c);
    ListRemoved(V, V', n, K[n], i, t);
    KidsStep(V, K, V', (K - {c})[n := RemoveAt(K[n], i)], root, n, {n});
  }

  lemma MergeKids(V: Snapshot, K: Lists, root: Node, n: Node, c: Node, u: Node, i: nat)
    requires Shape(V, root) && AllKids(V, K) && Kid(V, K, root, u, i, n)
    requires c in V && c != n && c != root && V[c].parent == n && V[n].count == V[c].count && u != c
    ensures AllKids(Merge(V, n, c), (K - {n})[u := K[u][i := c]])
  {
    var V' := Merge(V, n, c);
    assert KidsAt(V, K, u) && ChildrenOk(V, root, u);
    SiblingsSame(V, V', root, u, n);
    ListReplace(V, V', u, K[u], i, c);
    KidsStep(V, K, V', (K - {n})[u := K[u][i := c]], root, u, {u, n});
  }

  lemma RepairKids(V: Snapshot, V': Snapshot, K: Lists, root: Node)
    requires Shape(V, root) && AllKids(V, K) && SameButRefs(V, V')
    ensures AllKids(V', K)
  {
    assert KidsAt(V, K, root);
    SiblingsSame(V, V', root, root, root);
    ListKept(V, V', root, K[root]);
    KidsStep(V, K, V', K, root, root, {root});
  }
}
