/**
 The children of a node in a doubly linked list ordered by nonincreasing count, and the groups
 of children with equal counts in a second doubly linked list, proved to do to the list what
 the functions of SiblingOrder say.
 */
module Siblings {
  import opened Sequences
  import opened SiblingOrder

  /** The part of struct Node that links it to its siblings. */
  class Kid {
    var count: int
    var next: Kid?
    var prev: Kid?
    var group: Group?

    constructor (count: int)
      ensures this.count == count && next == null && prev == null && group == null
    {
      this.count, next, prev, group := count, null, null, null;
    }
  }

  class Group {
    var head: Kid
    var next: Group?
    var prev: Group?

    constructor (head: Kid)
      ensures this.head == head && next == null && prev == null
    {
      this.head, next, prev := head, null, null;
    }
  }

  /** The sibling pointers of the child with index k. */
  ghost predicate Linked(L: seq<Kid>, k: int)
    reads L`next, L`prev
    requires 0 <= k < |L|
  {
    && L[k].prev == (if k == 0 then null else L[k - 1])
    && L[k].next == (if k + 1 == |L| then null else L[k + 1])
  }

  /** Its group, which the first of the run heads, and the neighbours of the group. */
  ghost predicate Grouped(L: seq<Kid>, G: seq<Group>, k: int)
    reads L`group, G`head, G`next, G`prev
    requires 0 <= k < |L| == |G|
  {
    && L[k].group == G[k]
    && (k == 0 || G[k - 1] != G[k] ==> G[k].head == L[k] && G[k].prev == (if k == 0 then null else G[k - 1]))
    && (k + 1 == |L| || G[k + 1] != G[k] ==> G[k].next == (if k + 1 == |L| then null else G[k + 1]))
  }

  ghost predicate AllLinked(L: seq<Kid>)
    reads L`next, L`prev
  {
    forall k {:trigger Linked(L, k)} | 0 <= k < |L| :: Linked(L, k)
  }

  ghost predicate AllGrouped(L: seq<Kid>, G: seq<Group>)
    reads L`group, G`head, G`next, G`prev
  {
    |L| == |G| && forall k {:trigger Grouped(L, G, k)} | 0 <= k < |L| :: Grouped(L, G, k)
  }

  function Counts(L: seq<Kid>): (cs: seq<int>)
    reads L`count
    ensures |cs| == |L| && forall k | 0 <= k < |L| :: cs[k] == L[k].count
  {
    if L == [] then [] else Counts(L[..|L| - 1]) + [L[|L| - 1].count]
  }

  /** Runs are contiguous: a child in the run of another shares it with all between them. */
  lemma Contiguous(cs: seq<int>, G: seq<Group>, i: nat, j: nat)
    requires Runs(cs, G) && i < |G| && j < |G| && G[i] == G[j]
    ensures i < j ==> G[i] == G[i + 1] && G[j - 1] == G[j]
    ensures j < i ==> G[j] == G[j + 1] && G[i - 1] == G[i]
  {
    var a, b := if i < j then i else j, if i < j then j else i;
    if a < b {
      assert SameRun(cs, G, a, b) && SameRun(cs, G, a, a + 1) && SameRun(cs, G, b - 1, b);
      assert InOrder(cs, a, a + 1) && InOrder(cs, b - 1, b)
             && (a + 1 < b ==> InOrder(cs, a + 1, b) && InOrder(cs, a, b - 1));
    }
  }

  /** If child k shares the group of child i, so do the children between them. */
  ghost predicate Near(G: seq<Group>, i: int, k: int)
    requires 0 <= i < |G| && 0 <= k < |G|
  {
    G[k] == G[i] ==>
      && (k < i ==> G[k] == G[k + 1] && G[i - 1] == G[i])
      && (i < k ==> G[k] == G[k - 1] && G[i + 1] == G[i])
  }

  ghost predicate Apart(G: seq<Group>, i: int)
    requires 0 <= i < |G|
  {
    forall k {:trigger Near(G, i, k)} | 0 <= k < |G| :: Near(G, i, k)
  }

  lemma RunsApart(cs: seq<int>, G: seq<Group>, i: nat)
    requires Runs(cs, G) && i < |G|
    ensures Apart(G, i)
  {
    forall k | 0 <= k < |G| ensures Near(G, i, k) {
      if G[k] == G[i] {
        Contiguous(cs, G, k, i);
      }
    }
  }

  /** The head of a group is the first child of its run. */
  lemma {:induction false} GroupHead(L: seq<Kid>, G: seq<Group>, cs: seq<int>, k: nat)
    requires AllGrouped(L, G) && Runs(cs, G) && |cs| == |L| && k < |L|
    ensures G[k].head == L[RunStart(cs, k)]
  {
    assert Grouped(L, G, k);
    if k > 0 {
      assert SameRun(cs, G, k - 1, k);
      if cs[k - 1] == cs[k] {
        GroupHead(L, G, cs, k - 1);
      }
    }
  }

  /** Children share a group just when they have the same count. */
  ghost predicate SameRun(cs: seq<int>, G: seq<Group>, i: int, j: int)
    requires 0 <= i < j < |cs| == |G|
  {
    G[i] == G[j] <==> cs[i] == cs[j]
  }

  ghost predicate Runs(cs: seq<int>, G: seq<Group>) {
    && |cs| == |G| && Descending(cs)
    && forall i, j {:trigger SameRun(cs, G, i, j)} | 0 <= i < j < |cs| :: SameRun(cs, G, i, j)
  }

  // ----- Runs, as values -----

  lemma RemoveDistinct<T>(s: seq<T>, i: nat)
    requires Distinct(s) && i < |s|
    ensures Distinct(RemoveAt(s, i)) && s[i] !in RemoveAt(s, i)
    ensures forall x | x in RemoveAt(s, i) :: x in s
  {
  }

  lemma InsertMembers<T>(s: seq<T>, j: nat, x: T)
    requires j <= |s|
    ensures |InsertAt(s, j, x)| == |s| + 1 && forall y :: y in InsertAt(s, j, x) <==> y == x || y in s
  {
    forall y ensures y in InsertAt(s, j, x) <==> y == x || y in s {
      assert InsertAt(s, j, x)[j] == x;
      assert s == s[..j] + s[j..];
    }
  }

  lemma InsertDistinct<T>(s: seq<T>, j: nat, x: T)
    requires Distinct(s) && j <= |s| && x !in s
    ensures Distinct(InsertAt(s, j, x))
  {
  }

  lemma CountsRemoved(L: seq<Kid>, i: nat)
    requires i < |L|
    ensures Counts(RemoveAt(L, i)) == RemoveAt(Counts(L), i)
  {
    hide Counts;
  }

  lemma InsertedAt<T>(s: seq<T>, j: nat, x: T, k: nat)
    requires j <= |s| && k <= |s|
    ensures |InsertAt(s, j, x)| == |s| + 1
            && InsertAt(s, j, x)[k] == if k < j then s[k] else if k == j then x else s[k - 1]
  {
  }

  lemma CountsInserted(L: seq<Kid>, j: nat, x: Kid)
    requires j <= |L|
    ensures Counts(InsertAt(L, j, x)) == InsertAt(Counts(L), j, x.count)
  {
    hide Counts, InsertAt;
    InsertedAt(L, j, x, 0);
    InsertedAt(Counts(L), j, x.count, 0);
    forall k | 0 <= k < |L| + 1 ensures Counts(InsertAt(L, j, x))[k] == InsertAt(Counts(L), j, x.count)[k] {
      InsertedAt(L, j, x, k);
      InsertedAt(Counts(L), j, x.count, k);
    }
  }

  lemma RemoveRuns(cs: seq<int>, G: seq<Group>, i: nat)
    requires Runs(cs, G) && i < |cs|
    ensures Runs(RemoveAt(cs, i), RemoveAt(G, i))
  {
    var ds, H := RemoveAt(cs, i), RemoveAt(G, i);
    forall a, b | 0 <= a < b < |ds| ensures InOrder(ds, a, b) && SameRun(ds, H, a, b) {
      var a', b' := if a < i then a else a + 1, if b < i then b else b + 1;
      assert InOrder(cs, a', b') && SameRun(cs, G, a', b');
    }
  }

  /** Child i gets a count between its neighbours, in a group of its own. */
  lemma RecountRuns(cs: seq<int>, G: seq<Group>, i: nat, c: int, g: Group)
    requires Runs(cs, G) && i < |cs| && (i > 0 ==> cs[i - 1] > c) && (i + 1 < |cs| ==> c > cs[i + 1])
    requires g !in G || (g == G[i] && (i > 0 ==> cs[i - 1] != cs[i]) && (i + 1 < |cs| ==> cs[i + 1] != cs[i]))
    ensures Runs(cs[i := c], G[i := g])
  {
    var ds, H := cs[i := c], G[i := g];
    forall a | 0 <= a < |cs| && a != i ensures G[a] != g && (a < i ==> cs[a] > c) && (i < a ==> c > cs[a]) {
      assert a < i - 1 ==> InOrder(cs, a, i - 1);
      assert i + 1 < a ==> InOrder(cs, i + 1, a);
      if a < i {
        assert SameRun(cs, G, a, i) && InOrder(cs, i - 1, i);
      } else {
        assert SameRun(cs, G, i, a) && InOrder(cs, i, i + 1);
      }
    }
    forall a, b | 0 <= a < b < |ds| ensures InOrder(ds, a, b) && SameRun(ds, H, a, b) {
      assert a != i && b != i ==> InOrder(cs, a, b) && SameRun(cs, G, a, b);
    }
  }

  /** Child i gets the count and the group of the next. */
  lemma FollowRuns(cs: seq<int>, G: seq<Group>, i: nat)
    requires Runs(cs, G) && i + 1 < |cs| && cs[i] > cs[i + 1]
    ensures Runs(cs[i := cs[i + 1]], G[i := G[i + 1]])
  {
    var ds, H := cs[i := cs[i + 1]], G[i := G[i + 1]];
    forall a, b | 0 <= a < b < |ds| ensures InOrder(ds, a, b) && SameRun(ds, H, a, b) {
      var a', b' := if a == i then i + 1 else a, if b == i then i + 1 else b;
      assert a' < b' ==> InOrder(cs, a', b') && SameRun(cs, G, a', b');
    }
  }

  /** The group a child of count c gets at index j: that of a neighbour with its count, or g. */
  function Joined(cs: seq<int>, G: seq<Group>, j: nat, c: int, g: Group): Group
    requires |cs| == |G| && j <= |cs|
  {
    if j > 0 && cs[j - 1] == c then G[j - 1] else if j < |cs| && cs[j] == c then G[j] else g
  }

  lemma InsertRuns(cs: seq<int>, G: seq<Group>, j: nat, c: int, g: Group)
    requires Runs(cs, G) && j <= |cs| && (g !in G || (j > 0 && cs[j - 1] == c) || (j < |cs| && cs[j] == c))
    requires (j > 0 ==> cs[j - 1] >= c) && (j < |cs| ==> c >= cs[j])
    ensures Runs(InsertAt(cs, j, c), InsertAt(G, j, Joined(cs, G, j, c, g)))
  {
    var h := Joined(cs, G, j, c, g);
    var ds, H := InsertAt(cs, j, c), InsertAt(G, j, h);
    forall a | 0 <= a < |cs| ensures (a < j ==> cs[a] >= c) && (a >= j ==> c >= cs[a]) && (G[a] == h <==> cs[a] == c) {
      assert a < j - 1 ==> InOrder(cs, a, j - 1) && SameRun(cs, G, a, j - 1);
      assert a > j ==> InOrder(cs, j, a) && SameRun(cs, G, j, a);
      assert a >= j > 0 ==> InOrder(cs, j - 1, a) && SameRun(cs, G, j - 1, a);
      assert a < j < |cs| ==> InOrder(cs, a, j) && SameRun(cs, G, a, j);
    }
    forall a, b | 0 <= a < b < |ds| ensures InOrder(ds, a, b) && SameRun(ds, H, a, b) {
      var a', b' := if a < j then a else a - 1, if b < j then b else b - 1;
      assert a != j && b != j ==> InOrder(cs, a', b') && SameRun(cs, G, a', b');
    }
  }

  /** A child with count c keeps the order at index j. */
  ghost predicate Fits(cs: seq<int>, j: nat, c: int) {
    j <= |cs| && (j > 0 ==> cs[j - 1] >= c) && (j < |cs| ==> c >= cs[j])
  }

  /** The group of a node that has one. */
  ghost function Own(x: Kid): set<Group>
    reads x`group
  {
    if x.group == null then {} else {x.group}
  }

  /** The node whose children are listed. */
  class Siblings {
    var head: Kid?
    var tail: Kid?
    ghost var list: seq<Kid>
    ghost var groups: seq<Group>

    ghost predicate Valid()
      reads this, list, groups
    {
      && Distinct(list) && AllLinked(list) && AllGrouped(list, groups) && Runs(Counts(list), groups)
      && head == (if list == [] then null else list[0])
      && tail == (if list == [] then null else list[|list| - 1])
    }

    /** A node outside the list, with no group or with one of its own. */
    ghost predicate Detached(x: Kid)
      reads this, x, if x.group == null then {} else {x.group}
    {
      && x !in list && x.next == null && x.prev == null
      && (x.group == null || (x.group !in groups && x.group.head == x && x.group.next == null && x.group.prev == null))
    }

    constructor ()
      ensures Valid() && list == []
    {
      head, tail, list, groups := null, null, [], [];
    }

    /** The first of a longer run leaves: the next child heads the group. */
    static method LeaveFirst(x: Kid, ghost L: seq<Kid>, ghost G: seq<Group>, ghost i: nat)
      requires i < |L| && L[i] == x && AllGrouped(L, G) && Distinct(L) && x.next != null
      requires i + 1 < |L| && L[i + 1] == x.next && G[i] == G[i + 1] && Apart(G, i) && G[i].head == x
      modifies x`group, G`head, G`next, G`prev
      ensures AllGrouped(RemoveAt(L, i), RemoveAt(G, i)) && x.group == null
    {
      assert old(Grouped(L, G, i)) && (i > 0 ==> old(Grouped(L, G, i - 1))) && old(Grouped(L, G, i + 1));
      var group := x.group;
      group.head := x.next;
      x.group := null;
      forall k | 0 <= k < |L| - 1 ensures Grouped(RemoveAt(L, i), RemoveAt(G, i), k) {
        assert old(Grouped(L, G, if k < i then k else k + 1)) && Near(G, i, if k < i then k else k + 1);
      }
    }

    /** The only child of its count leaves: its group leaves the list of groups. */
    static method LeaveLast(x: Kid, ghost L: seq<Kid>, ghost G: seq<Group>, ghost i: nat)
      requires i < |L| && L[i] == x && AllGrouped(L, G) && Distinct(L) && Apart(G, i)
      requires (i > 0 ==> G[i - 1] != G[i] && Apart(G, i - 1)) && (i + 1 < |L| ==> G[i + 1] != G[i] && Apart(G, i + 1))
      requires 0 < i < |L| - 1 ==> G[i - 1] != G[i + 1]
      modifies G`head, G`next, G`prev
      ensures AllGrouped(RemoveAt(L, i), RemoveAt(G, i)) && x.group == G[i]
      ensures x.group !in RemoveAt(G, i) && x.group.head == x && x.group.next == null && x.group.prev == null
    {
      assert old(Grouped(L, G, i)) && (i > 0 ==> old(Grouped(L, G, i - 1)))
             && (i + 1 < |L| ==> old(Grouped(L, G, i + 1)));
      var group := x.group;
      if group.prev != null {
        group.prev.next := group.next;
      }
      if group.next != null {
        group.next.prev := group.prev;
      }
      group.prev, group.next := null, null;
      forall k | 0 <= k < |L| - 1 ensures Grouped(RemoveAt(L, i), RemoveAt(G, i), k) && RemoveAt(G, i)[k] != G[i] {
        var k' := if k < i then k else k + 1;
        assert old(Grouped(L, G, k')) && Near(G, i, k');
        assert (i > 0 ==> Near(G, i - 1, k')) && (i + 1 < |L| ==> Near(G, i + 1, k'));
      }
    }

    /** A child that does not head its group leaves. */
    static method LeaveInside(x: Kid, ghost L: seq<Kid>, ghost G: seq<Group>, ghost i: nat)
      requires 0 < i < |L| && L[i] == x && AllGrouped(L, G) && Distinct(L) && Apart(G, i) && G[i - 1] == G[i]
      modifies x`group
      ensures AllGrouped(RemoveAt(L, i), RemoveAt(G, i)) && x.group == null
    {
      assert old(Grouped(L, G, i)) && old(Grouped(L, G, i - 1)) && (i + 1 < |L| ==> old(Grouped(L, G, i + 1)));
      x.group := null;
      forall k | 0 <= k < |L| - 1 ensures Grouped(RemoveAt(L, i), RemoveAt(G, i), k) {
        assert old(Grouped(L, G, if k < i then k else k + 1)) && Near(G, i, if k < i then k else k + 1);
      }
    }

    /** The groups without the child with index i. */
    static method LeaveGroup(x: Kid, ghost L: seq<Kid>, ghost G: seq<Group>, ghost i: nat)
      requires i < |L| && L[i] == x && Distinct(L) && AllLinked(L) && AllGrouped(L, G) && Runs(Counts(L), G)
      modifies x`group, G`head, G`next, G`prev
      ensures AllGrouped(RemoveAt(L, i), RemoveAt(G, i)) && (x.group == null || x.group == G[i])
      ensures x.group == null
              || (x.group !in RemoveAt(G, i) && x.group.head == x && x.group.next == null && x.group.prev == null)
    {
      ghost var cs := Counts(L);
      LeaveCases(L, G, cs, i);
      if x.group.head == x {
        if x.next != null && x.next.count == x.count {
          LeaveFirst(x, L, G, i);
        } else {
          LeaveLast(x, L, G, i);
        }
      } else {
        LeaveInside(x, L, G, i);
      }
    }

    static lemma LeaveCases(L: seq<Kid>, G: seq<Group>, cs: seq<int>, i: nat)
      requires AllGrouped(L, G) && AllLinked(L) && Runs(cs, G) && |cs| == |L| && i < |L| && Distinct(L)
      ensures Linked(L, i) && Grouped(L, G, i) && Apart(G, i) && (i > 0 ==> Apart(G, i - 1))
              && (i + 1 < |L| ==> Apart(G, i + 1))
      ensures G[i].head == L[i] <==> i == 0 || G[i - 1] != G[i]
      ensures i > 0 ==> (G[i - 1] == G[i] <==> cs[i - 1] == cs[i])
      ensures i + 1 < |L| ==> (G[i + 1] == G[i] <==> cs[i + 1] == cs[i])
      ensures 0 < i < |L| - 1 && G[i - 1] == G[i + 1] ==> G[i] == G[i - 1]
    {
      RunsApart(cs, G, i);
      GroupHead(L, G, cs, i);
      if i > 0 {
        RunsApart(cs, G, i - 1);
        assert SameRun(cs, G, i - 1, i);
      }
      if i + 1 < |L| {
        RunsApart(cs, G, i + 1);
        assert SameRun(cs, G, i, i + 1);
      }
      if 0 < i < |L| - 1 {
        assert Near(G, i - 1, i + 1);
      }
    }

    /** The sibling list without the child with index i. */
    method Unlink(x: Kid, ghost i: nat)
      requires i < |list| && list[i] == x && Distinct(list) && AllLinked(list)
      requires head == list[0] && tail == list[|list| - 1]
      modifies this`head, this`tail, list`next, list`prev
      ensures var M := RemoveAt(list, i);
              && AllLinked(M) && x.next == null && x.prev == null
              && head == (if M == [] then null else M[0]) && tail == (if M == [] then null else M[|M| - 1])
    {
      ghost var L := list;
      assert old(Linked(L, i)) && (i > 0 ==> old(Linked(L, i - 1))) && (i + 1 < |L| ==> old(Linked(L, i + 1)));
      if x.next != null {
        x.next.prev := x.prev;
      } else {
        tail := x.prev;
      }
      if x.prev != null {
        x.prev.next := x.next;
      } else {
        head := x.next;
      }
      x.prev, x.next := null, null;
      forall k | 0 <= k < |L| - 1 ensures Linked(RemoveAt(L, i), k) {
        assert old(Linked(L, if k < i then k else k + 1));
      }
    }

    /** _remove_from_siblings */
    method Remove(x: Kid)
      requires Valid() && x in list
      modifies this, list`next, list`prev, list`group, groups`head, groups`next, groups`prev
      ensures Valid() && Detached(x) && list == RemoveAt(old(list), IndexOf(old(list), x))
      ensures groups == RemoveAt(old(groups), IndexOf(old(list), x)) && (x.group == null || x.group in old(groups))
    {
      hide *;
      Parts();
      ghost var L, G, i, cs := list, groups, IndexOf(list, x), Counts(list);
      ghost var M, H := RemoveAt(L, i), RemoveAt(G, i);
      RemoveRuns(cs, G, i);
      RemoveDistinct(L, i);
      CountsRemoved(L, i);
      assert Counts(M) == RemoveAt(cs, i);
      LeaveGroup(x, L, G, i);
      assert AllGrouped(M, H) && Counts(M) == RemoveAt(cs, i);
      Unlink(x, i);
      list, groups := M, H;
      Assembled();
      DetachedIf(x);
    }

    lemma Parts()
      requires Valid()
      ensures Distinct(list) && AllLinked(list) && AllGrouped(list, groups) && Runs(Counts(list), groups)
      ensures |groups| == |list| == |Counts(list)| && list != [] ==> head == list[0] && tail == list[|list| - 1]
      ensures |groups| == |list| == |Counts(list)| && forall k | 0 <= k < |list| :: Counts(list)[k] == list[k].count
    {
    }

    lemma Assembled()
      requires Distinct(list) && AllLinked(list) && AllGrouped(list, groups) && Runs(Counts(list), groups)
      requires head == (if list == [] then null else list[0]) && tail == (if list == [] then null else list[|list| - 1])
      ensures Valid()
    {
    }

    lemma DetachedIf(x: Kid)
      requires x !in list && x.next == null && x.prev == null
      requires x.group == null
               || (x.group !in groups && x.group.head == x && x.group.next == null && x.group.prev == null)
      ensures Detached(x)
    {
    }

    /** x joins the group of the child before it, which a neighbour has. */
    static method JoinRear(x: Kid, neighbour: Kid, ghost L: seq<Kid>, ghost G: seq<Group>, ghost j: nat)
      requires 0 < j <= |L| && AllGrouped(L, G) && x !in L && Apart(G, j - 1) && neighbour.group == G[j - 1]
      modifies x`group
      ensures AllGrouped(InsertAt(L, j, x), InsertAt(G, j, G[j - 1]))
    {
      ghost var M, H := InsertAt(L, j, x), InsertAt(G, j, G[j - 1]);
      assert old(Grouped(L, G, j - 1)) && (j < |L| ==> old(Grouped(L, G, j)));
      x.group := neighbour.group;
      forall k | 0 <= k < |L| + 1 ensures Grouped(M, H, k) {
        var k' := if k < j then k else k - 1;
        assert old(Grouped(L, G, k')) && Near(G, j - 1, k');
      }
    }

    /** x becomes the head of the group of the child after it. */
    static method JoinFront(x: Kid, after: Kid, ghost L: seq<Kid>, ghost G: seq<Group>, ghost j: nat)
      requires j < |L| && L[j] == after && AllGrouped(L, G) && x !in L && Apart(G, j) && after.group != null
      requires j > 0 ==> G[j - 1] != G[j]
      modifies x`group, G`head, G`next, G`prev
      ensures AllGrouped(InsertAt(L, j, x), InsertAt(G, j, G[j]))
    {
      assert old(Grouped(L, G, j)) && (j > 0 ==> old(Grouped(L, G, j - 1)));
      x.group := after.group;
      x.group.head := x;
      forall k | 0 <= k < |L| + 1 ensures Grouped(InsertAt(L, j, x), InsertAt(G, j, G[j]), k) {
        var k' := if k < j then k else if k == j then j else k - 1;
        assert old(Grouped(L, G, k')) && Near(G, j, k');
      }
    }

    /** A node that does not come with a group gets a new one. */
    static method OwnGroup(x: Kid) returns (group: Group)
      requires x.group == null || (x.group.head == x && x.group.next == null && x.group.prev == null)
      modifies x`group
      ensures x.group == group && group.head == x && group.next == null && group.prev == null
      ensures if old(x.group) == null then fresh(group) else group == old(x.group)
    {
      if x.group == null {
        x.group := new Group(x);
      }
      group := x.group;
    }

    /** x gets a group of its own between the groups of its neighbours. */
    static method JoinAlone(x: Kid, before: Kid?, after: Kid?, group: Group, ghost L: seq<Kid>, ghost G: seq<Group>,
                            ghost j: nat)
      requires j <= |L| && AllGrouped(L, G) && x !in L
      requires before == (if j == 0 then null else L[j - 1]) && after == (if j == |L| then null else L[j])
      requires (j > 0 ==> Apart(G, j - 1)) && (j < |L| ==> Apart(G, j)) && (0 < j < |L| ==> G[j - 1] != G[j])
      requires x.group == group && group !in G && group.head == x && group.next == null && group.prev == null
      modifies group`next, group`prev, G`next, G`prev
      ensures AllGrouped(InsertAt(L, j, x), InsertAt(G, j, group))
    {
      assert (j > 0 ==> old(Grouped(L, G, j - 1))) && (j < |L| ==> old(Grouped(L, G, j)));
      if before != null {
        group.prev := before.group;
        group.prev.next := group;
      }
      if after != null {
        group.next := after.group;
        group.next.prev := group;
      }
      ghost var M, H := InsertAt(L, j, x), InsertAt(G, j, group);
      forall k | 0 <= k < |M| ensures Grouped(M, H, k) {
        if k != j {
          var k' := if k < j then k else k - 1;
          assert old(Grouped(L, G, k'));
          assert (j > 0 ==> Near(G, j - 1, k')) && (j < |L| ==> Near(G, j, k'));
        }
      }
    }

    /** The sibling list with x before the child with index j. */
    method LinkBefore(x: Kid, other: Kid, ghost j: nat)
      requires j < |list| && list[j] == other && x !in list && Distinct(list) && AllLinked(list)
      requires head == list[0] && tail == list[|list| - 1]
      modifies this`head, list`next, list`prev, x`next, x`prev
      ensures var M := InsertAt(list, j, x); AllLinked(M) && head == M[0] && tail == M[|M| - 1]
    {
      ghost var L := list;
      assert old(Linked(L, j)) && (j > 0 ==> old(Linked(L, j - 1)));
      if other.prev != null {
        other.prev.next := x;
      } else {
        head := x;
      }
      x.next := other;
      x.prev := other.prev;
      other.prev := x;
      forall k | 0 <= k < |L| + 1 ensures Linked(InsertAt(L, j, x), k) {
        assert k != j ==> old(Linked(L, if k < j then k else k - 1));
      }
    }

    /** The sibling list with x after the child with index j - 1. */
    method LinkAfter(x: Kid, other: Kid, ghost j: nat)
      requires 0 < j <= |list| && list[j - 1] == other && x !in list && Distinct(list) && AllLinked(list)
      requires head == list[0] && tail == list[|list| - 1]
      modifies this`tail, list`next, list`prev, x`next, x`prev
      ensures var M := InsertAt(list, j, x); AllLinked(M) && head == M[0] && tail == M[|M| - 1]
    {
      ghost var L := list;
      assert old(Linked(L, j - 1)) && (j < |L| ==> old(Linked(L, j)));
      if other.next != null {
        other.next.prev := x;
      } else {
        tail := x;
      }
      x.prev := other;
      x.next := other.next;
      other.next := x;
      forall k | 0 <= k < |L| + 1 ensures Linked(InsertAt(L, j, x), k) {
        assert k != j ==> old(Linked(L, if k < j then k else k - 1));
      }
    }

    static lemma JoinCases(L: seq<Kid>, G: seq<Group>, cs: seq<int>, j: nat, c: int)
      requires Distinct(L) && AllGrouped(L, G) && Runs(cs, G) && |cs| == |L| && j <= |L| && Fits(cs, j, c)
      ensures j > 0 ==> Grouped(L, G, j - 1) && Apart(G, j - 1)
      ensures j < |L| ==> Grouped(L, G, j) && Apart(G, j)
      ensures 0 < j < |L| && (cs[j - 1] != c || cs[j] != c) ==> G[j - 1] != G[j]
      ensures 0 < j < |L| && cs[j - 1] == c && cs[j] == c ==> G[j - 1] == G[j]
      ensures j < |L| ==> (G[j].head == L[j] <==> j == 0 || cs[j - 1] != cs[j])
    {
      if j > 0 {
        RunsApart(cs, G, j - 1);
      }
      if j < |L| {
        RunsApart(cs, G, j);
        GroupHead(L, G, cs, j);
      }
      if 0 < j < |L| {
        assert SameRun(cs, G, j - 1, j);
      }
    }

    /** The group x gets when it is put before another child. */
    static method JoinBefore(x: Kid, prev: Kid?, other: Kid, ghost L: seq<Kid>, ghost G: seq<Group>, ghost j: nat,
                             ghost cs: seq<int>) returns (ghost h: Group)
      requires Distinct(L) && AllGrouped(L, G) && Runs(cs, G) && cs == Counts(L) && |cs| == |L| && x !in L && j < |L|
               && Fits(cs, j, x.count)
      requires other == L[j] && prev == (if j == 0 then null else L[j - 1])
      requires x.group == null || (x.group !in G && x.group.head == x && x.group.next == null && x.group.prev == null)
      modifies x`group, Own(x)`head, Own(x)`next, Own(x)`prev, G`head, G`next, G`prev
      ensures AllGrouped(InsertAt(L, j, x), InsertAt(G, j, h)) && Runs(InsertAt(cs, j, x.count), InsertAt(G, j, h))
      ensures h in G || h == old(x.group) || fresh(h)
    {
      JoinCases(L, G, cs, j, x.count);
      if prev != null && x.count == prev.count {
        h := G[j - 1];
        JoinRear(x, prev, L, G, j);
      } else if x.count == other.count {
        h := G[j];
        JoinFront(x, other, L, G, j);
      } else {
        var group := OwnGroup(x);
        JoinAlone(x, prev, other, group, L, G, j);
        h := group;
      }
      InsertRuns(cs, G, j, x.count, h);
    }

    /** The group x gets when it is put after another child. */
    static method JoinAfter(x: Kid, next: Kid?, other: Kid, ghost L: seq<Kid>, ghost G: seq<Group>, ghost j: nat,
                            ghost cs: seq<int>) returns (ghost h: Group)
      requires Distinct(L) && AllGrouped(L, G) && Runs(cs, G) && cs == Counts(L) && |cs| == |L| && x !in L
               && 0 < j <= |L| && Fits(cs, j, x.count)
      requires other == L[j - 1] && next == (if j == |L| then null else L[j])
      requires x.group == null || (x.group !in G && x.group.head == x && x.group.next == null && x.group.prev == null)
      modifies x`group, Own(x)`head, Own(x)`next, Own(x)`prev, G`head, G`next, G`prev
      ensures AllGrouped(InsertAt(L, j, x), InsertAt(G, j, h)) && Runs(InsertAt(cs, j, x.count), InsertAt(G, j, h))
      ensures h in G || h == old(x.group) || fresh(h)
    {
      JoinCases(L, G, cs, j, x.count);
      if next != null && x.count == next.count {
        h := G[j];
        if next.group.head == next {
          JoinFront(x, next, L, G, j);
        } else {
          JoinRear(x, next, L, G, j);
        }
      } else if x.count == other.count {
        h := G[j - 1];
        JoinRear(x, other, L, G, j);
      } else {
        var group := OwnGroup(x);
        JoinAlone(x, other, next, group, L, G, j);
        h := group;
      }
      InsertRuns(cs, G, j, x.count, h);
    }

    /** _insert_into_siblings_before */
    method InsertBefore(x: Kid, other: Kid)
      requires Valid() && Detached(x) && other in list && Fits(Counts(list), IndexOf(list, other), x.count)
      modifies this, list`next, list`prev, groups`head, groups`next, groups`prev
      modifies x`next, x`prev, x`group, Own(x)`head, Own(x)`next, Own(x)`prev
      ensures Valid() && list == InsertAt(old(list), IndexOf(old(list), other), x)
      ensures forall g | g in groups :: g in old(groups) || g in old(Own(x)) || fresh(g)
    {
      hide *;
      Parts();
      DetachedParts(x);
      OwnIs(x);
      ghost var L, G, j, cs := list, groups, IndexOf(list, other), Counts(list);
      ghost var M := InsertAt(L, j, x);
      InsertDistinct(L, j, x);
      CountsInserted(L, j, x);
      assert Counts(M) == InsertAt(cs, j, x.count);
      LinkBefore(x, other, j);
      NeighboursAt(L, j, x);
      assert AllLinked(M) && Counts(M) == InsertAt(cs, j, x.count);
      ghost var h := JoinBefore(x, x.prev, other, L, G, j, cs);
      InsertMembers(G, j, h);
      list, groups := M, InsertAt(G, j, h);
      Assembled();
    }

    /** _insert_into_siblings_after */
    method InsertAfter(x: Kid, other: Kid)
      requires Valid() && Detached(x) && other in list && Fits(Counts(list), IndexOf(list, other) + 1, x.count)
      modifies this, list`next, list`prev, groups`head, groups`next, groups`prev
      modifies x`next, x`prev, x`group, Own(x)`head, Own(x)`next, Own(x)`prev
      ensures Valid() && list == InsertAt(old(list), IndexOf(old(list), other) + 1, x)
      ensures forall g | g in groups :: g in old(groups) || g in old(Own(x)) || fresh(g)
    {
      hide *;
      Parts();
      DetachedParts(x);
      OwnIs(x);
      ghost var L, G, j, cs := list, groups, IndexOf(list, other) + 1, Counts(list);
      ghost var M := InsertAt(L, j, x);
      InsertDistinct(L, j, x);
      CountsInserted(L, j, x);
      assert Counts(M) == InsertAt(cs, j, x.count);
      LinkAfter(x, other, j);
      NeighboursAt(L, j, x);
      assert AllLinked(M) && Counts(M) == InsertAt(cs, j, x.count);
      ghost var h := JoinAfter(x, x.next, other, L, G, j, cs);
      InsertMembers(G, j, h);
      list, groups := M, InsertAt(G, j, h);
      Assembled();
    }

    /** The first child of a node. */
    method InsertFirst(x: Kid)
      requires Valid() && list == [] && x.next == null && x.prev == null
      modifies this, x`group
      ensures Valid() && list == [x] && fresh(groups)
    {
      head, tail := x, x;
      x.group := new Group(x);
      list, groups := [x], [x.group];
    }

    /** A node with a lower count than all siblings goes to the end, as a new leaf does. */
    method InsertLast(x: Kid)
      requires Valid() && list != [] && Detached(x) && Fits(Counts(list), |list|, x.count)
      modifies this, list`next, list`prev, groups`head, groups`next, groups`prev
      modifies x`next, x`prev, x`group, Own(x)`head, Own(x)`next, Own(x)`prev
      ensures Valid() && list == old(list) + [x]
      ensures forall g | g in groups :: g in old(groups) || g in old(Own(x)) || fresh(g)
    {
      IndexIs(list, |list| - 1);
      InsertAfter(x, tail);
    }

    /** The sibling list with another node in the place of one. */
    method Relink(x: Kid, y: Kid, ghost i: nat)
      requires i < |list| && list[i] == x && y !in list && Distinct(list) && AllLinked(list)
      requires head == list[0] && tail == list[|list| - 1]
      modifies this`head, this`tail, list`next, list`prev, y`next, y`prev
      ensures var M := list[i := y];
              AllLinked(M) && x.next == null && x.prev == null && head == M[0] && tail == M[|M| - 1]
    {
      ghost var L := list;
      assert old(Linked(L, i)) && (i > 0 ==> old(Linked(L, i - 1))) && (i + 1 < |L| ==> old(Linked(L, i + 1)));
      if x.next != null {
        x.next.prev := y;
      } else {
        tail := y;
      }
      if x.prev != null {
        x.prev.next := y;
      } else {
        head := y;
      }
      y.prev, y.next := x.prev, x.next;
      x.prev, x.next := null, null;
      ghost var M := L[i := y];
      forall k | 0 <= k < |L| ensures Linked(M, k) {
        assert old(Linked(L, k));
      }
    }

    /** The other node takes over the group of the one it replaces. */
    static method Regroup(x: Kid, y: Kid, ghost L: seq<Kid>, ghost G: seq<Group>, ghost i: nat)
      requires i < |L| && L[i] == x && y !in L && Distinct(L) && AllGrouped(L, G) && x.group == G[i]
      requires Apart(G, i) && (G[i].head == x <==> i == 0 || G[i - 1] != G[i])
      modifies x`group, y`group, G`head
      ensures AllGrouped(L[i := y], G) && x.group == null
    {
      assert old(Grouped(L, G, i));
      var group := x.group;
      if group.head == x {
        group.head := y;
      }
      y.group := x.group;
      x.group := null;
      ghost var M := L[i := y];
      forall k | 0 <= k < |L| ensures Grouped(M, G, k) {
        assert old(Grouped(L, G, k)) && Near(G, i, k);
      }
    }

    /** _replace_in_siblings */
    method Replace(x: Kid, y: Kid)
      requires Valid() && x in list && y !in list && y.count == x.count
      modifies this, list`next, list`prev, list`group, y`next, y`prev, y`group, groups`head
      ensures Valid() && Detached(x) && list == old(list)[IndexOf(old(list), x) := y] && groups == old(groups)
    {
      hide *;
      Parts();
      ghost var L, G, i, cs := list, groups, IndexOf(list, x), Counts(list);
      ghost var M := L[i := y];
      LeaveCases(L, G, cs, i);
      GroupedGroup(L, G, i);
      CountsReplaced(L, i, y);
      assert Counts(M) == cs;
      Relink(x, y, i);
      assert AllLinked(M) && Counts(M) == cs;
      Regroup(x, y, L, G, i);
      list := M;
      ReplaceDistinct(L, i, y);
      Assembled();
      DetachedIf(x);
    }

    /** The first of a longer run gets a group of its own before the group of the run. */
    static method SplitFront(x: Kid, ghost L: seq<Kid>, ghost G: seq<Group>, ghost i: nat) returns (g: Group)
      requires i + 1 < |L| && L[i] == x && L[i + 1] == x.next && AllGrouped(L, G) && Distinct(L)
               && x.group == G[i] == G[i + 1]
      requires Apart(G, i) && (i > 0 ==> G[i - 1] != G[i] && Apart(G, i - 1))
      modifies x`group, G`head, G`next, G`prev
      ensures fresh(g) && AllGrouped(L, G[i := g])
    {
      assert old(Grouped(L, G, i)) && old(Grouped(L, G, i + 1)) && (i > 0 ==> old(Grouped(L, G, i - 1)));
      var orig := x.group;
      orig.head := x.next;
      g := new Group(x);
      g.next := orig;
      if orig.prev != null {
        g.prev := orig.prev;
        g.prev.next := g;
      }
      orig.prev := g;
      x.group := g;
      ghost var H := G[i := g];
      forall k | 0 <= k < |L| ensures Grouped(L, H, k) {
        assert old(Grouped(L, G, k)) && Near(G, i, k) && (i > 0 ==> Near(G, i - 1, k));
      }
    }

    /** The last of a longer run gets a group of its own after the group of the run. */
    static method SplitRear(x: Kid, ghost L: seq<Kid>, ghost G: seq<Group>, ghost i: nat) returns (g: Group)
      requires 0 < i < |L| && L[i] == x && AllGrouped(L, G) && Distinct(L) && x.group == G[i] == G[i - 1]
      requires Apart(G, i) && (i + 1 < |L| ==> G[i + 1] != G[i] && Apart(G, i + 1))
      modifies x`group, G`next, G`prev
      ensures fresh(g) && AllGrouped(L, G[i := g])
    {
      assert old(Grouped(L, G, i)) && old(Grouped(L, G, i - 1)) && (i + 1 < |L| ==> old(Grouped(L, G, i + 1)));
      var orig := x.group;
      g := new Group(x);
      g.prev := orig;
      if orig.next != null {
        g.next := orig.next;
        g.next.prev := g;
      }
      orig.next := g;
      x.group := g;
      ghost var H := G[i := g];
      forall k | 0 <= k < |L| ensures Grouped(L, H, k) {
        assert old(Grouped(L, G, k)) && Near(G, i, k) && (i + 1 < |L| ==> Near(G, i + 1, k));
      }
    }

    /** The last of a run becomes the head of the next group; its own group goes if it was alone in it. */
    static method JoinNext(x: Kid, next: Kid, ghost L: seq<Kid>, ghost G: seq<Group>, ghost i: nat)
      requires i + 1 < |L| && L[i] == x && L[i + 1] == next && AllGrouped(L, G) && Distinct(L)
      requires x.group == G[i] && next.group == G[i + 1] && G[i] != G[i + 1] && Apart(G, i) && Apart(G, i + 1)
      requires i > 0 ==> Apart(G, i - 1) && G[i - 1] != G[i + 1]
      requires G[i].head == x <==> i == 0 || G[i - 1] != G[i]
      modifies x`group, G`head, G`next, G`prev
      ensures AllGrouped(L, G[i := G[i + 1]])
    {
      assert old(Grouped(L, G, i)) && old(Grouped(L, G, i + 1)) && (i > 0 ==> old(Grouped(L, G, i - 1)));
      next.group.head := x;
      if x.group.head == x {
        var group := x.group;
        if group.prev != null {
          group.prev.next := group.next;
        }
        group.next.prev := group.prev;
      }
      x.group := next.group;
      ghost var H := G[i := G[i + 1]];
      forall k | 0 <= k < |L| ensures Grouped(L, H, k) {
        assert old(Grouped(L, G, k)) && Near(G, i, k) && Near(G, i + 1, k) && (i > 0 ==> Near(G, i - 1, k));
      }
    }

    /** The child keeps its place; only its count changes, and its group if that is split. */
    ghost method Recount(x: Kid, i: nat, G: seq<Group>, cs: seq<int>)
      requires Distinct(list) && AllLinked(list) && AllGrouped(list, G) && i < |list| == |cs| && list[i] == x
      requires (forall k | 0 <= k < |list| && k != i :: list[k].count == cs[k]) && Runs(cs[i := x.count], G)
      requires head == list[0] && tail == list[|list| - 1]
      modifies this`groups
      ensures Valid() && groups == G
    {
      hide Counts, AllLinked, AllGrouped, Runs;
      assert Counts(list) == cs[i := x.count];
      groups := G;
    }

    /** _increment_count for a child that does not move. */
    method IncrementInPlace(x: Kid, ghost i: nat)
      requires Valid() && i < |list| && list[i] == x && (i == 0 || list[i - 1].count > x.count + 1)
      modifies this`groups, x`count, x`group, groups`head, groups`next, groups`prev
      ensures Valid() && x.count == old(x.count) + 1 && list == old(list)
      ensures forall g | g in groups :: g in old(groups) || fresh(g)
    {
      hide *;
      Parts();
      ghost var L, G, cs := list, groups, Counts(list);
      LeaveCases(L, G, cs, i);
      NeighboursOf(L, i);
      GroupedGroup(L, G, i);
      if x.next == null || x.next.count < x.count {
        RecountRuns(cs, G, i, x.count + 1, G[i]);
        x.count := x.count + 1;
        assert G[i := G[i]] == G;
        Recount(x, i, G, cs);
      } else {
        DescendingNext(cs, G, i);
        var g := SplitFront(x, L, G, i);
        RecountRuns(cs, G, i, x.count + 1, g);
        x.count := x.count + 1;
        Recount(x, i, G[i := g], cs);
      }
    }

    /** _increment_count */
    method Increment(x: Kid)
      requires Valid() && x in list
      modifies this, list`next, list`prev, list`group, groups`head, groups`next, groups`prev, x`count
      ensures Valid() && x.count == old(x.count) + 1
      ensures var i := IndexOf(old(list), x); var j := RaisedIndex(old(Counts(list)), i);
              j < |old(list)| && list == Moved(old(list), i, j)
      ensures forall g | g in groups :: g in old(groups) || fresh(g)
    {
      hide *;
      Parts();
      ghost var L, G, i, cs := list, groups, IndexOf(list, x), Counts(list);
      NeighboursOf(L, i);
      RaisedPlace(L, G, cs, i);
      if x.prev == null || x.prev.count > x.count + 1 {
        IncrementInPlace(x, i);
      } else {
        ghost var h := RunStart(cs, i - 1);
        GroupHead(L, G, cs, i - 1);
        GroupedGroup(L, G, i - 1);
        var other := x.prev.group.head;
        RemovedAt(L, i, h);
        RemoveKeeping(x, i);
        SetCount(x, x.count + 1);
        IndexIs(list, h);
        assert forall k | 0 <= k < |list| :: list[k] in L;
        assert forall k | 0 <= k < |groups| :: groups[k] in G;
        InsertBefore(x, other);
      }
    }

    /** _decrement_count for a child that does not move. */
    method DecrementInPlace(x: Kid, ghost i: nat)
      requires Valid() && i < |list| && list[i] == x && (i + 1 == |list| || list[i + 1].count < x.count)
      modifies this`groups, x`count, x`group, groups`head, groups`next, groups`prev
      ensures Valid() && x.count == old(x.count) - 1 && list == old(list)
      ensures forall g | g in groups :: g in old(groups) || fresh(g)
    {
      hide *;
      Parts();
      ghost var L, G, cs := list, groups, Counts(list);
      LeaveCases(L, G, cs, i);
      NeighboursOf(L, i);
      GroupedGroup(L, G, i);
      if i > 0 {
        DescendingNext(cs, G, i - 1);
      }
      if x.next == null || x.next.count < x.count - 1 {
        if x.prev == null || x.prev.count > x.count {
          RecountRuns(cs, G, i, x.count - 1, G[i]);
          x.count := x.count - 1;
          assert G[i := G[i]] == G;
          Recount(x, i, G, cs);
        } else {
          var g := SplitRear(x, L, G, i);
          RecountRuns(cs, G, i, x.count - 1, g);
          x.count := x.count - 1;
          Recount(x, i, G[i := g], cs);
        }
      } else {
        GroupedGroup(L, G, i + 1);
        FollowRuns(cs, G, i);
        JoinNext(x, x.next, L, G, i);
        x.count := x.count - 1;
        Recount(x, i, G[i := G[i + 1]], cs);
      }
    }

    /** _decrement_count */
    method Decrement(x: Kid)
      requires Valid() && x in list
      modifies this, list`next, list`prev, list`group, groups`head, groups`next, groups`prev, x`count
      ensures Valid() && x.count == old(x.count) - 1
      ensures var i := IndexOf(old(list), x); var j := LoweredIndex(old(Counts(list)), i);
              j < |old(list)| && list == Moved(old(list), i, j)
      ensures forall g | g in groups :: g in old(groups) || fresh(g)
    {
      hide *;
      Parts();
      ghost var L, G, i, cs := list, groups, IndexOf(list, x), Counts(list);
      NeighboursOf(L, i);
      LoweredPlace(L, G, cs, i);
      if x.next == null || x.next.count <= x.count - 1 {
        DecrementInPlace(x, i);
      } else {
        GroupedGroup(L, G, i);
        GroupNext(L, G, cs, i);
        var otherGroup := x.group.next;
        RemoveKeeping(x, i);
        SetCount(x, x.count - 1);
        assert forall k | 0 <= k < |list| :: list[k] in L;
        assert forall k | 0 <= k < |groups| :: groups[k] in G;
        PutAfterRun(x, otherGroup, L, G, cs, i);
      }
    }

    /** The removed child goes before the next group, or to the end if there is none. */
    method PutAfterRun(x: Kid, otherGroup: Group?, ghost L: seq<Kid>, ghost G: seq<Group>, ghost cs: seq<int>,
                       ghost i: nat)
      requires Valid() && Detached(x) && Runs(cs, G) && i < |L| == |G| == |cs| && x.count == cs[i] - 1
      requires list == RemoveAt(L, i) && groups == RemoveAt(G, i) && Counts(list) == RemoveAt(cs, i)
      requires var e := RunEnd(cs, i); i < e && otherGroup == if e + 1 == |L| then null else G[e + 1]
      modifies this, list`next, list`prev, groups`head, groups`next, groups`prev
      modifies x`next, x`prev, x`group, Own(x)`head, Own(x)`next, Own(x)`prev
      ensures Valid() && list == InsertAt(RemoveAt(L, i), RunEnd(cs, i), x)
      ensures forall g | g in groups :: g in old(groups) || g in old(Own(x)) || fresh(g)
    {
      ghost var e := RunEnd(cs, i);
      LoweredFits(L, G, cs, i);
      hide *;
      Parts();
      if otherGroup == null {
        IndexIs(list, |list| - 1);
        InsertAfter(x, tail);
      } else {
        GroupHead(list, groups, Counts(list), e);
        IndexIs(list, e);
        InsertBefore(x, otherGroup.head);
      }
    }

    /** Taking a child out, to put it back elsewhere with another count. */
    method RemoveKeeping(x: Kid, ghost i: nat)
      requires Valid() && x in list && i == IndexOf(list, x)
      modifies this, list`next, list`prev, list`group, groups`head, groups`next, groups`prev
      ensures Valid() && Detached(x) && list == RemoveAt(old(list), i) && groups == RemoveAt(old(groups), i)
              && Distinct(list)
      ensures Counts(list) == RemoveAt(old(Counts(list)), i) && x !in list
      ensures forall g | g in Own(x) :: g in old(groups)
      ensures (forall y | y in list :: y in old(list)) && forall g | g in groups :: g in old(groups)
    {
      hide Valid, Counts, RemoveAt, Distinct;
      Parts();
      ghost var M := RemoveAt(list, i);
      CountsRemoved(list, i);
      RemoveDistinct(list, i);
      RemovedMembers(groups, i);
      assert Counts(M) == RemoveAt(Counts(list), i);
      Remove(x);
    }

    /** A node that is not listed may get another count. */
    method SetCount(x: Kid, c: int)
      requires Valid() && Detached(x)
      modifies x`count
      ensures Valid() && Detached(x) && x.count == c && Counts(list) == old(Counts(list)) && Own(x) == old(Own(x))
    {
      hide AllLinked, AllGrouped, Runs, Counts;
      x.count := c;
    }

    lemma OwnIs(x: Kid)
      ensures Own(x) == if x.group == null then {} else {x.group}
    {
    }

    lemma DetachedParts(x: Kid)
      requires Detached(x)
      ensures x !in list && x.next == null && x.prev == null
      ensures x.group == null
              || (x.group !in groups && x.group.head == x && x.group.next == null && x.group.prev == null)
    {
    }
  }

  lemma NeighboursAt(L: seq<Kid>, j: nat, x: Kid)
    requires j <= |L| && AllLinked(InsertAt(L, j, x))
    ensures x.prev == (if j == 0 then null else L[j - 1]) && x.next == (if j == |L| then null else L[j])
    ensures |InsertAt(L, j, x)| == |L| + 1
  {
    assert Linked(InsertAt(L, j, x), j);
  }

  lemma GroupedGroup(L: seq<Kid>, G: seq<Group>, i: nat)
    requires AllGrouped(L, G) && i < |L|
    ensures L[i].group == G[i]
  {
    assert Grouped(L, G, i);
  }

  lemma ReplaceDistinct<T>(s: seq<T>, i: nat, y: T)
    requires Distinct(s) && i < |s| && y !in s
    ensures Distinct(s[i := y]) && s[i] !in s[i := y]
  {
  }

  lemma CountsReplaced(L: seq<Kid>, i: nat, y: Kid)
    requires i < |L| && y.count == L[i].count
    ensures Counts(L[i := y]) == Counts(L)
  {
    hide Counts;
  }

  lemma {:induction false} IndexIs<T>(s: seq<T>, i: nat)
    requires Distinct(s) && i < |s|
    ensures IndexOf(s, s[i]) == i
  {
    if i > 0 {
      IndexIs(s[1..], i - 1);
    }
  }

  lemma NeighboursOf(L: seq<Kid>, i: nat)
    requires AllLinked(L) && i < |L|
    ensures L[i].prev == (if i == 0 then null else L[i - 1]) && L[i].next == (if i + 1 == |L| then null else L[i + 1])
  {
    assert Linked(L, i);
  }

  lemma DescendingNext(cs: seq<int>, G: seq<Group>, i: nat)
    requires Runs(cs, G) && i + 1 < |cs|
    ensures cs[i] >= cs[i + 1] && |G| == |cs|
  {
    assert InOrder(cs, i, i + 1);
  }

  lemma RemovedAt<T>(s: seq<T>, i: nat, k: nat)
    requires i < |s| && k < |s| - 1
    ensures |RemoveAt(s, i)| == |s| - 1 && RemoveAt(s, i)[k] == if k < i then s[k] else s[k + 1]
  {
  }

  lemma RemovedMembers<T>(s: seq<T>, i: nat)
    requires i < |s|
    ensures |RemoveAt(s, i)| == |s| - 1 && forall x | x in RemoveAt(s, i) :: x in s
  {
  }

  /** Where a child whose count grows goes, and that it fits there once it is taken out. */
  lemma RaisedPlace(L: seq<Kid>, G: seq<Group>, cs: seq<int>, i: nat)
    requires Runs(cs, G) && i < |cs| == |L|
    ensures RaisedIndex(cs, i) < |cs|
    ensures i == 0 || cs[i - 1] > cs[i] + 1 ==> RaisedIndex(cs, i) == i && Moved(L, i, i) == L
    ensures i > 0 && cs[i - 1] <= cs[i] + 1 ==>
              var h := RunStart(cs, i - 1);
              && RaisedIndex(cs, i) == h < i && Moved(L, i, h) == InsertAt(RemoveAt(L, i), h, L[i])
              && Fits(RemoveAt(cs, i), h, cs[i] + 1)
  {
    if i > 0 && cs[i - 1] <= cs[i] + 1 {
      var h := RunStart(cs, i - 1);
      assert InOrder(cs, i - 1, i) && (h > 0 ==> InOrder(cs, h - 1, h));
    }
  }

  /** After the group of a run comes the group of the child after the run. */
  lemma {:induction false} GroupNext(L: seq<Kid>, G: seq<Group>, cs: seq<int>, k: nat)
    requires AllGrouped(L, G) && Runs(cs, G) && |cs| == |L| && k < |L|
    ensures G[k].next == if RunEnd(cs, k) + 1 == |L| then null else G[RunEnd(cs, k) + 1]
    decreases |L| - k
  {
    assert Grouped(L, G, k);
    if k + 1 < |L| {
      assert SameRun(cs, G, k, k + 1);
      if cs[k + 1] == cs[k] {
        GroupNext(L, G, cs, k + 1);
      }
    }
  }

  lemma LoweredPlace(L: seq<Kid>, G: seq<Group>, cs: seq<int>, i: nat)
    requires Runs(cs, G) && i < |cs| == |L|
    ensures i + 1 == |cs| || cs[i + 1] <= cs[i] - 1 ==> LoweredIndex(cs, i) == i && Moved(L, i, i) == L
    ensures i + 1 < |cs| && cs[i + 1] >= cs[i] ==>
              var e := RunEnd(cs, i);
              i < e == LoweredIndex(cs, i) && Moved(L, i, e) == InsertAt(RemoveAt(L, i), e, L[i])
  {
    if i + 1 < |cs| && cs[i + 1] >= cs[i] {
      assert InOrder(cs, i, i + 1);
    }
  }

  lemma LoweredFits(L: seq<Kid>, G: seq<Group>, cs: seq<int>, i: nat)
    requires Runs(cs, G) && i < |cs| == |L| && i < RunEnd(cs, i)
    ensures var e, ds := RunEnd(cs, i), RemoveAt(cs, i);
            && |RemoveAt(L, i)| == |RemoveAt(G, i)| == |ds| == |L| - 1 && Fits(ds, e, cs[i] - 1)
            && (e + 1 < |L| ==> e < |ds| && RunStart(ds, e) == e && RemoveAt(G, i)[e] == G[e + 1])
  {
    var e := RunEnd(cs, i);
    if e + 1 < |L| {
      assert InOrder(cs, e, e + 1);
    }
  }
}
