/**
 The assignments each branch of append and remove makes to the nodes it touches, in the
 order of the code, with the resulting fields of those nodes.
 */
module NodeWrites {
  import opened Suffixes
  import opened Nodes
  import opened Sequences
  import opened SiblingOrder

  lemma {:induction false} FirstIndex(s: seq<Node>, c: Node, i: nat)
    requires i < |s| && s[i] == c && c !in s[..i]
    ensures c in s && IndexOf(s, c) == i
  {
    if i > 0 {
      assert s[0] in s[..i];
      assert s[1..][..i - 1] == s[..i][1..];
      FirstIndex(s[1..], c, i - 1);
    }
  }

  function KidCounts(s: seq<Node>): seq<int>
    reads s
  {
    seq(|s|, i requires 0 <= i < |s| reads s => s[i].count)
  }

  // ----- The list of children -----

  /** _replace_in_siblings: c takes the place of n in the list of n's parent u. */
  method ReplaceInSiblings(u: Node, n: Node, c: Node)
    requires n in u.kids
    modifies u`kids
    ensures u.kids == old(u.kids)[IndexOf(old(u.kids), n) := c]
  {
    u.kids := u.kids[IndexOf(u.kids, n) := c];
  }

  /** _increment_count for a child c of u. */
  method IncrementCount(u: Node, c: Node)
    requires c in u.kids && c != u
    modifies u`kids, c`count
    ensures c.count == old(c.count) + 1
    ensures var i := IndexOf(old(u.kids), c); var j := RaisedIndex(old(KidCounts(u.kids)), i);
            j < |old(u.kids)| && u.kids == Moved(old(u.kids), i, j)
  {
    var i := IndexOf(u.kids, c);
    u.kids := Moved(u.kids, i, RaisedIndex(KidCounts(u.kids), i));
    c.count := c.count + 1;
  }

  /** _decrement_count for a child c of u. */
  method DecrementCount(u: Node, c: Node)
    requires c in u.kids && c != u
    modifies u`kids, c`count
    ensures c.count == old(c.count) - 1
    ensures var i := IndexOf(old(u.kids), c); var j := LoweredIndex(old(KidCounts(u.kids)), i);
            j < |old(u.kids)| && u.kids == Moved(old(u.kids), i, j)
  {
    var i := IndexOf(u.kids, c);
    u.kids := Moved(u.kids, i, LoweredIndex(KidCounts(u.kids), i));
    c.count := c.count - 1;
  }

  // ----- Append -----

  method GrowLeafWrites(sid: int, t: Token, n: Node)
    requires sid in n.endpoints
    modifies n
    ensures n.Get() == old(n.Get()).(length := old(n.length) + 1,
                                     endpoints := old(n.endpoints)[sid := old(n.endpoints)[sid] + 1],
                                     path := old(n.path) + [t])
    ensures n.kids == old(n.kids)
  {
    n.length := n.length + 1;
    n.endpoints := n.endpoints[sid := n.endpoints[sid] + 1];
    n.path := n.path + [t];
  }

  method AddLeafWrites(sid: int, last: int, t: Token, n: Node) returns (m: Node)
    modifies n
    ensures fresh(m) && m.kids == []
    ensures m.Get() == Rec(1, t, 1, sid, last, map[sid := last + 1], n, map[], old(n.path) + [t])
    ensures n.Get() == old(n.Get()).(children := old(n.children)[t := m], endpoints := old(n.endpoints) - {sid})
    ensures n.kids == old(n.kids) + [m]
  {
    m := new Node(1, t, 1, sid, last, map[sid := last + 1], n, map[], [], n.path + [t]);
    n.children := n.children[t := m];
    n.endpoints := n.endpoints - {sid};
    n.kids := n.kids + [m];
  }

  method FuseWrites(sid: int, last: int, n: Node, c: Node, u: Node)
    requires n != c && n != u && c != u && n in u.kids
    modifies c, u
    ensures c.Get() == old(c.Get()).(count := old(c.count) + 1, token := n.token, length := n.length + 1, refSeq := sid,
                                     refIdx := last + 1 - (n.length + 1),
                                     endpoints := old(c.endpoints)[sid := last + 1], parent := u)
    ensures u.Get() == old(u.Get()).(children := old(u.children)[n.token := c])
    ensures c.kids == old(c.kids) && u.kids == old(u.kids)[IndexOf(old(u.kids), n) := c]
  {
    c.count := c.count + 1;
    c.token := n.token;
    c.length := n.length + 1;
    c.refSeq := sid;
    c.refIdx := last + 1 - c.length;
    c.endpoints := c.endpoints[sid := last + 1];
    c.parent := u;
    ReplaceInSiblings(u, n, c);
    u.children := u.children[c.token := c];
  }

  /** Here t2 is the token after t in the child's label. */
  method SlideWrites(sid: int, last: int, t: Token, t2: Token, n: Node, c: Node)
    requires n != c && sid in n.endpoints && t in n.children && n.children[t] == c
    modifies n, c
    ensures n.Get() == old(n.Get()).(length := old(n.length) + 1,
                                     endpoints := old(n.endpoints)[sid := old(n.endpoints)[sid] + 1],
                                     refSeq := sid, refIdx := last + 1 - (old(n.length) + 1),
                                     children := (old(n.children) - {t})[t2 := c], path := old(n.path) + [t])
    ensures c.Get() == old(c.Get()).(length := old(c.length) - 1, refIdx := old(c.refIdx) + 1, token := t2)
    ensures n.kids == old(n.kids) && c.kids == old(c.kids)
  {
    n.length := n.length + 1;
    n.endpoints := n.endpoints[sid := n.endpoints[sid] + 1];
    n.refSeq := sid;
    n.refIdx := last + 1 - n.length;
    c.length := c.length - 1;
    c.refIdx := c.refIdx + 1;
    c.token := t2;
    if c.token != t {
      n.children := n.children[c.token := c];
      n.children := n.children - {t};
    }
    n.path := n.path + [t];
    assert n.children == (old(n.children) - {t})[t2 := c];
  }

  method DescendWrites(sid: int, last: int, n: Node, c: Node)
    requires n != c && c in n.kids
    modifies n, c
    ensures n.Get() == old(n.Get()).(endpoints := old(n.endpoints) - {sid})
    ensures c.Get() == old(c.Get()).(count := old(c.count) + 1, endpoints := old(c.endpoints)[sid := last + 1])
    ensures c.kids == old(c.kids)
    ensures var i := IndexOf(old(n.kids), c); var j := RaisedIndex(old(KidCounts(n.kids)), i);
            j < |old(n.kids)| && n.kids == Moved(old(n.kids), i, j)
  {
    n.endpoints := n.endpoints - {sid};
    c.endpoints := c.endpoints[sid := last + 1];
    assert KidCounts(n.kids) == old(KidCounts(n.kids));
    IncrementCount(n, c);
  }

  method SplitLinks(sid: int, last: int, t: Token, t2: Token, n: Node, c: Node, m: Node)
    requires n != c && n != m && c != m
    modifies n, c, m
    ensures n.Get() == old(n.Get()).(endpoints := old(n.endpoints) - {sid}, children := old(n.children)[t := m])
    ensures c.Get() == old(c.Get()).(length := old(c.length) - 1, refIdx := old(c.refIdx) + 1, token := t2, parent := m)
    ensures m.Get() == old(m.Get()).(children := old(m.children)[t2 := c],
                                     endpoints := old(m.endpoints)[sid := last + 1])
    ensures n.kids == old(n.kids) && c.kids == old(c.kids) && m.kids == [c]
  {
    n.children := n.children[t := m];
    c.length := c.length - 1;
    c.refIdx := c.refIdx + 1;
    c.token := t2;
    m.children := m.children[c.token := c];
    c.parent := m;
    n.endpoints := n.endpoints - {sid};
    m.endpoints := m.endpoints[sid := last + 1];
    m.kids := [c];
  }

  method SplitWrites(sid: int, last: int, t: Token, t2: Token, n: Node, c: Node) returns (m: Node)
    requires n != c && c in n.kids
    modifies n, c
    ensures fresh(m) && m.kids == [c] && c.kids == old(c.kids)
    ensures n.Get() == old(n.Get()).(endpoints := old(n.endpoints) - {sid}, children := old(n.children)[t := m])
    ensures c.Get() == old(c.Get()).(length := old(c.length) - 1, refIdx := old(c.refIdx) + 1, token := t2, parent := m)
    ensures m.Get() == Rec(old(c.count) + 1, t, 1, sid, last, map[sid := last + 1], n, map[t2 := c], old(n.path) + [t])
    ensures var i := IndexOf(old(n.kids), c); var j := RaisedIndex(old(KidCounts(n.kids)), i);
            j < |old(n.kids)| && n.kids == Moved(old(n.kids)[i := m], i, j)
  {
    ghost var i := IndexOf(n.kids, c);
    m := new Node(c.count, t, 1, sid, last, map[], n, map[], [], n.path + [t]);
    FirstIndex(n.kids[i := m], m, i);
    ReplaceInSiblings(n, c, m);
    assert n.kids == old(n.kids)[i := m];
    SplitLinks(sid, last, t, t2, n, c, m);
    assert KidCounts(n.kids) == old(KidCounts(n.kids));
    IncrementCount(n, m);
  }

  // ----- Remove -----

  method WalkWrites(sid: int, n: Node, c: Node)
    requires n != c && c in n.kids
    modifies n, c
    ensures n.Get() == old(n.Get()) && c.kids == old(c.kids)
    ensures c.Get() == old(c.Get()).(count := old(c.count) - 1, endpoints := old(c.endpoints) - {sid})
    ensures var i := IndexOf(old(n.kids), c); var j := LoweredIndex(old(KidCounts(n.kids)), i);
            j < |old(n.kids)| && n.kids == Moved(old(n.kids), i, j)
  {
    DecrementCount(n, c);
    if sid in c.endpoints {
      c.endpoints := c.endpoints - {sid};
    }
    assert c.endpoints == old(c.endpoints) - {sid};
  }

  method DropWrites(t: Token, n: Node, c: Node)
    requires c in n.kids
    modifies n
    ensures n.Get() == old(n.Get()).(children := old(n.children) - {t})
    ensures n.kids == RemoveAt(old(n.kids), IndexOf(old(n.kids), c))
  {
    n.kids := RemoveAt(n.kids, IndexOf(n.kids, c));
    n.children := n.children - {t};
  }

  method MergeWrites(n: Node, c: Node, u: Node)
    requires n != c && n != u && c != u && n in u.kids
    modifies c, u
    ensures c.Get() == old(c.Get()).(token := n.token, length := old(c.length) + n.length,
                                     refIdx := old(c.refIdx) - n.length, parent := u)
    ensures u.Get() == old(u.Get()).(children := old(u.children)[n.token := c])
    ensures c.kids == old(c.kids) && u.kids == old(u.kids)[IndexOf(old(u.kids), n) := c]
  {
    c.token := n.token;
    c.length := c.length + n.length;
    c.refIdx := c.refIdx - n.length;
    c.parent := u;
    ReplaceInSiblings(u, n, c);
    u.children := u.children[n.token := c];
  }
}
