/**
 Int32Map: open addressing with triangular probing, tombstones, growth and shrinkage,
 proved to behave as a finite map.  Bitwise and with capacity - 1 is written as the remainder
 by the capacity, a power of two, and the hash is an arbitrary function.
 */
module IntMaps {
  import opened Options
  import opened FiniteSets

  const KEY_EMPTY := -0x8000_0000
  const KEY_TOMBSTONE := -0x7fff_ffff
  const MIN_LOAD_PCT := 25
  const MAX_LOAD_PCT := 75
  const MIN_CAPACITY := 2

  datatype Result<T> = Ok(value: T) | InvalidKey

  /** A slot has a constructed value just when its key is neither reserved key. */
  datatype Slot<T> = Slot(key: int, value: Option<T>)

  type Table<T> = seq<Slot<T>>

  predicate Reserved(key: int) {
    key == KEY_EMPTY || key == KEY_TOMBSTONE
  }

  // ----- Triangular probing visits every slot -----

  function Triangle(j: nat): nat {
    if j == 0 then 0 else Triangle(j - 1) + j
  }

  /** The slot looked at after j steps. */
  function ProbeAt(h: nat, cap: nat, j: nat): (i: nat)
    requires cap > 0
    ensures i < cap
  {
    (h + Triangle(j)) % cap
  }

  predicate PowerOfTwo(n: nat) {
    n == 1 || (n > 1 && n % 2 == 0 && PowerOfTwo(n / 2))
  }

  lemma SameRemainder(x: nat, q: int, r: nat, cap: nat)
    requires cap > 0 && x == cap * q + r && r < cap
    ensures x % cap == r
  {
    NoSmallMultiple(r - x % cap, cap, x / cap - q) by {
      assert cap * (x / cap - q) == cap * (x / cap) - cap * q;
    }
  }

  /** The only multiple of n strictly between -n and n is zero. */
  lemma NoSmallMultiple(b: int, n: nat, r: int)
    requires 0 - n < b < n && b == n * r
    ensures b == 0
  {
    assert r >= 1 ==> n * r >= n;
    assert r <= -1 ==> n * r + n <= 0;
  }

  lemma ModStep(x: nat, s: nat, cap: nat)
    requires cap > 0
    ensures (x % cap + s) % cap == (x + s) % cap
  {
    var r, q, p := (x % cap + s) % cap, (x % cap + s) / cap, x / cap;
    assert x + s == cap * p + (cap * q + r);
    assert cap * (p + q) == cap * p + cap * q;
    SameRemainder(x + s, p + q, r, cap);
  }

  lemma ProbeNext(h: nat, cap: nat, j: nat)
    requires cap > 0
    ensures ProbeAt(h, cap, 0) == h % cap
    ensures (ProbeAt(h, cap, j) + j + 1) % cap == ProbeAt(h, cap, j + 1)
  {
    ModStep(h + Triangle(j), j + 1, cap);
  }

  lemma {:induction false} TriangleTwice(j: nat)
    ensures 2 * Triangle(j) == j * (j + 1)
  {
    if j > 0 {
      TriangleTwice(j - 1);
    }
  }

  lemma EvenFactor(a: nat, b: nat, p: nat)
    requires a % 2 == 1 && a * b == 2 * p
    ensures b % 2 == 0
  {
    var c := a / 2;
    assert a == 2 * c + 1;
    assert a * b == (2 * c + 1) * b == 2 * (c * b) + b;
  }

  lemma Halve(a: nat, b: nat, c: nat, k: nat, q: nat)
    requires a * b == 2 * k * q && b == 2 * c
    ensures a * c == k * q
  {
    assert a * b == 2 * (a * c);
    assert 2 * k * q == 2 * (k * q);
  }

  /** A power of two that divides a product with an odd factor divides the other factor. */
  lemma {:induction false} OddFactor(a: nat, b: nat, n: nat, q: nat) returns (r: nat)
    requires a % 2 == 1 && PowerOfTwo(n) && a * b == n * q
    ensures b == n * r
  {
    if n == 1 {
      assert b == a * b - (a - 1) * b;
      r := b;
    } else {
      var k, c := n / 2, b / 2;
      assert a * b == 2 * (k * q) by {
        assert n * q == 2 * k * q;
      }
      EvenFactor(a, b, k * q);
      Halve(a, b, c, k, q);
      r := OddFactor(a, c, k, q);
      assert n * r == 2 * k * r == 2 * (k * r);
    }
  }

  lemma TriangleGap(i: nat, j: nat)
    requires i <= j
    ensures (j - i) * (i + j + 1) == 2 * (Triangle(j) - Triangle(i))
  {
    TriangleTwice(i);
    TriangleTwice(j);
    assert (j - i) * (i + j + 1) == j * (j + 1) - i * (i + 1);
  }

  lemma ModGap(x: nat, y: nat, cap: nat) returns (q: nat)
    requires cap > 0 && x % cap == y % cap && x <= y
    ensures y - x == cap * q
  {
    var p := y / cap - x / cap;
    assert y - x == cap * (y / cap) - cap * (x / cap) == cap * p;
    assert p < 0 ==> cap * p < 0;
    q := p;
  }

  lemma {:induction false} TriangleGrows(i: nat, j: nat)
    requires i <= j
    ensures Triangle(i) <= Triangle(j)
  {
    if i < j {
      TriangleGrows(i, j - 1);
    }
  }

  /** The distance between two triangle numbers is half of (j - i)(i + j + 1), one factor of which is odd. */
  lemma SameSlotGap(h: nat, cap: nat, i: nat, j: nat) returns (q: nat)
    requires cap > 0 && i <= j && ProbeAt(h, cap, i) == ProbeAt(h, cap, j)
    ensures (j - i) * (i + j + 1) == 2 * cap * q
  {
    TriangleGrows(i, j);
    TriangleGap(i, j);
    q := ModGap(h + Triangle(i), h + Triangle(j), cap);
    assert 2 * cap * q == 2 * (cap * q);
  }

  /** Two probes within one round look at different slots. */
  lemma ProbesDiffer(h: nat, cap: nat, i: nat, j: nat)
    requires PowerOfTwo(cap) && i < j < cap
    ensures ProbeAt(h, cap, i) != ProbeAt(h, cap, j)
  {
    if ProbeAt(h, cap, i) == ProbeAt(h, cap, j) {
      var q := SameSlotGap(h, cap, i, j);
      assert PowerOfTwo(2 * cap) by {
        assert 2 * cap / 2 == cap;
      }
      hide *;
      NotDivisible(j - i, i + j + 1, 2 * cap, q);
    }
  }

  lemma NotDivisible(a: nat, b: nat, n: nat, q: nat)
    requires PowerOfTwo(n) && 0 < a < n && 0 < b < n && (a + b) % 2 == 1
    ensures a * b != n * q
  {
    if a * b == n * q {
      if a % 2 == 1 {
        var r := OddFactor(a, b, n, q);
        NoSmallMultiple(b, n, r);
      } else {
        var r := OddFactor(b, a, n, q);
        NoSmallMultiple(a, n, r);
      }
    }
  }

  /** The slots looked at in the first n probes. */
  ghost function Probed(h: nat, cap: nat, n: nat): set<nat>
    requires cap > 0
  {
    if n == 0 then {} else Probed(h, cap, n - 1) + {ProbeAt(h, cap, n - 1)}
  }

  lemma {:induction false} ProbedIs(h: nat, cap: nat, n: nat)
    requires cap > 0
    ensures forall i :: i in Probed(h, cap, n) <==> exists j | 0 <= j < n :: ProbeAt(h, cap, j) == i
  {
    if n > 0 {
      ProbedIs(h, cap, n - 1);
    }
  }

  lemma {:induction false} ProbedSize(h: nat, cap: nat, n: nat)
    requires PowerOfTwo(cap) && n <= cap
    ensures |Probed(h, cap, n)| == n
  {
    if n > 0 {
      ProbedSize(h, cap, n - 1);
      ProbedIs(h, cap, n - 1);
      forall j | 0 <= j < n - 1 ensures ProbeAt(h, cap, j) != ProbeAt(h, cap, n - 1) {
        ProbesDiffer(h, cap, j, n - 1);
      }
    }
  }

  /** Capacity many probes visit every slot. */
  lemma ProbesCover(h: nat, cap: nat, i: nat)
    requires PowerOfTwo(cap) && i < cap
    ensures exists j | 0 <= j < cap :: ProbeAt(h, cap, j) == i
  {
    ProbedSize(h, cap, cap);
    ProbedIs(h, cap, cap);
    ProbedBelow(h, cap, cap);
    SubsetSize(Probed(h, cap, cap), Below(cap));
    assert i in Below(cap);
  }

  lemma {:induction false} ProbedBelow(h: nat, cap: nat, n: nat)
    requires cap > 0
    ensures Probed(h, cap, n) <= Below(cap)
  {
    if n > 0 {
      ProbedBelow(h, cap, n - 1);
    }
  }

  // ----- What a table holds -----

  predicate Live<T>(s: Slot<T>) {
    !Reserved(s.key)
  }

  ghost predicate KeyAt<T>(t: Table<T>, k: int, i: int) {
    0 <= i < |t| && t[i].key == k
  }

  ghost predicate EntryOk<T>(s: Slot<T>, m: map<int, T>) {
    if Live(s) then s.key in m && s.value == Some(m[s.key]) else s.value == None
  }

  ghost predicate Holds<T>(t: Table<T>, k: int) {
    !Reserved(k) && exists i :: KeyAt(t, k, i)
  }

  /** The live slots of the table hold the map. */
  ghost predicate Represents<T>(t: Table<T>, m: map<int, T>) {
    && (forall i | 0 <= i < |t| :: EntryOk(t[i], m))
    && (forall k {:trigger k in m} | k in m :: Holds(t, k))
  }

  ghost function LiveAt<T>(t: Table<T>): set<nat> {
    set i: nat | i < |t| && Live(t[i])
  }

  ghost function TombAt<T>(t: Table<T>): set<nat> {
    set i: nat | i < |t| && t[i].key == KEY_TOMBSTONE
  }

  /** Slot i is what a search with hash h looks at after j steps, with no empty slot before it. */
  ghost predicate ReachedAt<T>(t: Table<T>, h: nat, i: int, j: int) {
    0 <= j < |t| && ProbeAt(h, |t|, j) == i && NoneEmpty(t, h, j)
  }

  ghost predicate NoneEmpty<T>(t: Table<T>, h: nat, j: nat)
    requires t != []
  {
    forall n {:trigger ProbeAt(h, |t|, n)} | 0 <= n < j :: t[ProbeAt(h, |t|, n)].key != KEY_EMPTY
  }

  ghost predicate NeverKey<T>(t: Table<T>, h: nat, j: nat, key: int)
    requires t != []
  {
    forall n {:trigger ProbeAt(h, |t|, n)} | 0 <= n < j :: t[ProbeAt(h, |t|, n)].key != key
  }

  ghost predicate Findable<T>(hash: int -> nat, t: Table<T>, i: int)
    requires 0 <= i < |t|
  {
    Live(t[i]) ==> exists j :: ReachedAt(t, hash(t[i].key), i, j)
  }

  ghost predicate KeysDiffer<T>(t: Table<T>) {
    forall i, j | 0 <= i < j < |t| && Live(t[i]) :: t[i].key != t[j].key
  }

  /** Every live key is in one slot, which a search for it reaches. */
  ghost predicate TableOk<T>(hash: int -> nat, t: Table<T>) {
    PowerOfTwo(|t|) && KeysDiffer(t) && forall i | 0 <= i < |t| :: Findable(hash, t, i)
  }

  lemma EmptyTable<T>(hash: int -> nat, t: Table<T>)
    requires PowerOfTwo(|t|) && forall i | 0 <= i < |t| :: t[i] == Slot(KEY_EMPTY, None)
    ensures TableOk(hash, t) && Represents(t, map[]) && LiveAt(t) == {} && TombAt(t) == {}
  {
  }

  /** A slot becoming live makes no search for another key shorter. */
  lemma PutReach<T>(t: Table<T>, h: nat, n: int, j: int, i: nat, s: Slot<T>)
    requires i < |t| && ReachedAt(t, h, n, j) && s.key != KEY_EMPTY
    ensures ReachedAt(t[i := s], h, n, j)
  {
  }

  /** A slot becoming live adds to the live slots, and takes a tombstone if it was one. */
  lemma PutCounts<T>(t: Table<T>, i: nat, s: Slot<T>)
    requires i < |t| && !Live(t[i]) && Live(s)
    ensures |LiveAt(t[i := s])| == |LiveAt(t)| + 1
    ensures |TombAt(t)| == |TombAt(t[i := s])| + (if t[i].key == KEY_TOMBSTONE then 1 else 0)
  {
    var u := t[i := s];
    OneOn(t, u, i, s);
    TombTaken(t, u, i, s);
    hide *;
    assert |LiveAt(u)| == |LiveAt(t) + {i}| == |LiveAt(t)| + 1;
    assert t[i].key == KEY_TOMBSTONE ==> |TombAt(t)| == |TombAt(u) + {i}|;
  }

  lemma OneOn<T>(t: Table<T>, u: Table<T>, i: nat, s: Slot<T>)
    requires i < |t| && !Live(t[i]) && Live(s) && u == t[i := s]
    ensures LiveAt(u) == LiveAt(t) + {i} && i !in LiveAt(t)
  {
  }

  lemma TombTaken<T>(t: Table<T>, u: Table<T>, i: nat, s: Slot<T>)
    requires i < |t| && !Live(t[i]) && Live(s) && u == t[i := s]
    ensures TombAt(t) == TombAt(u) + if t[i].key == KEY_TOMBSTONE then {i} else {}
    ensures i !in TombAt(u)
  {
  }

  /** Every other key stays findable when a slot stops being empty or stays so. */
  lemma FindableStays<T>(hash: int -> nat, t: Table<T>, i: nat, s: Slot<T>, n: nat)
    requires i < |t| && n < |t| && n != i && s.key != KEY_EMPTY && Findable(hash, t, n)
    ensures Findable(hash, t[i := s], n)
  {
    if Live(t[n]) {
      var p :| ReachedAt(t, hash(t[n].key), n, p);
      PutReach(t, hash(t[n].key), n, p, i, s);
    }
  }

  lemma PutFindable<T>(hash: int -> nat, t: Table<T>, i: nat, j: nat, s: Slot<T>)
    requires TableOk(hash, t) && i < |t| && Live(s) && ReachedAt(t, hash(s.key), i, j)
    requires forall n | 0 <= n < |t| && Live(t[n]) :: t[n].key != s.key
    ensures TableOk(hash, t[i := s])
  {
    var u := t[i := s];
    DistinctPut(t, i, s);
    PutReach(t, hash(s.key), i, j, i, s);
    forall n | 0 <= n < |u| ensures Findable(hash, u, n) {
      if n != i {
        FindableStays(hash, t, i, s, n);
      }
    }
  }

  /** Putting a new key where a search for it may end. */
  lemma PutOk<T>(hash: int -> nat, t: Table<T>, m: map<int, T>, i: nat, j: nat, key: int, v: T)
    requires TableOk(hash, t) && Represents(t, m) && !Reserved(key) && key !in m
    requires i < |t| && !Live(t[i]) && ReachedAt(t, hash(key), i, j)
    ensures var u := t[i := Slot(key, Some(v))];
            && TableOk(hash, u) && Represents(u, m[key := v]) && |LiveAt(u)| == |LiveAt(t)| + 1
            && |m[key := v]| == |m| + 1
            && |TombAt(t)| == |TombAt(u)| + (if t[i].key == KEY_TOMBSTONE then 1 else 0)
  {
    var s := Slot(key, Some(v));
    assert Live(s) && (m[key := v]).Keys == m.Keys + {key};
    hide *;
    PutCounts(t, i, s);
    PutRepresents(t, m, i, key, v);
    PutFindable(hash, t, i, j, s);
    MapCard(m, key, v);
  }

  lemma MapCard<T>(m: map<int, T>, key: int, v: T)
    requires key !in m
    ensures |m[key := v]| == |m| + 1
  {
    assert m[key := v].Keys == m.Keys + {key};
    assert |m| == |m.Keys| && |m[key := v]| == |m[key := v].Keys|;
  }

  lemma PutRepresents<T>(t: Table<T>, m: map<int, T>, i: nat, key: int, v: T)
    requires Represents(t, m) && !Reserved(key) && key !in m && i < |t| && !Live(t[i])
    ensures Represents(t[i := Slot(key, Some(v))], m[key := v])
    ensures forall n | 0 <= n < |t| && Live(t[n]) :: t[n].key != key
  {
    var u := t[i := Slot(key, Some(v))];
    forall n | 0 <= n < |t| && Live(t[n]) ensures t[n].key != key {
      assert EntryOk(t[n], m);
    }
    forall n | 0 <= n < |u| ensures EntryOk(u[n], m[key := v]) {
      assert EntryOk(t[n], m);
    }
    forall k | k in m[key := v] ensures Holds(u, k) {
      if k == key {
        assert KeyAt(u, k, i);
      } else {
        var n :| KeyAt(t, k, n);
        assert KeyAt(u, k, n);
      }
    }
  }

  lemma DistinctPut<T>(t: Table<T>, i: nat, s: Slot<T>)
    requires KeysDiffer(t) && i < |t| && forall n | 0 <= n < |t| && Live(t[n]) :: t[n].key != s.key
    ensures Live(s) ==> KeysDiffer(t[i := s])
  {
  }

  /** A search for a stored key looks at its slot before any empty slot. */
  lemma StoredReached<T>(hash: int -> nat, t: Table<T>, m: map<int, T>, key: int)
    requires TableOk(hash, t) && Represents(t, m) && key in m
    ensures exists j | 0 <= j < |t| :: t[ProbeAt(hash(key), |t|, j)].key == key && NoneEmpty(t, hash(key), j)
  {
    var i :| KeyAt(t, key, i);
    assert Findable(hash, t, i);
    var j :| ReachedAt(t, hash(key), i, j);
  }

  /** So a search that meets an empty slot first may stop. */
  lemma StoredBeforeEmpty<T>(hash: int -> nat, t: Table<T>, m: map<int, T>, key: int, p: nat)
    requires TableOk(hash, t) && Represents(t, m) && p < |t|
    requires NeverKey(t, hash(key), p, key) && t[ProbeAt(hash(key), |t|, p)].key == KEY_EMPTY && key != KEY_EMPTY
    ensures key !in m
  {
    if key in m {
      StoredReached(hash, t, m, key);
    }
  }

  /** While some slot is empty, a round of probes meets an empty slot. */
  lemma MeetsEmpty<T>(t: Table<T>, h: nat)
    requires PowerOfTwo(|t|) && |LiveAt(t)| + |TombAt(t)| < |t|
    ensures !NoneEmpty(t, h, |t|)
  {
    UnionSize(LiveAt(t), TombAt(t));
    assert LiveAt(t) + TombAt(t) != Below(|t|);
    var i: nat :| i in Below(|t|) && i !in LiveAt(t) + TombAt(t);
    ProbesCover(h, |t|, i);
  }

  lemma RemoveRepresents<T>(t: Table<T>, m: map<int, T>, i: nat)
    requires Represents(t, m) && KeysDiffer(t) && i < |t| && Live(t[i])
    ensures Represents(t[i := Slot(KEY_TOMBSTONE, None)], m - {t[i].key})
  {
    var key, u := t[i].key, t[i := Slot(KEY_TOMBSTONE, None)];
    forall n | 0 <= n < |u| ensures EntryOk(u[n], m - {key}) {
      assert EntryOk(t[n], m);
    }
    forall k | k in m - {key} ensures Holds(u, k) {
      var n :| KeyAt(t, k, n);
      assert KeyAt(u, k, n);
    }
  }

  lemma RemoveCounts<T>(t: Table<T>, i: nat)
    requires i < |t| && Live(t[i])
    ensures var u := t[i := Slot(KEY_TOMBSTONE, None)];
            |LiveAt(u)| == |LiveAt(t)| - 1 && |TombAt(u)| == |TombAt(t)| + 1
  {
    var u := t[i := Slot(KEY_TOMBSTONE, None)];
    OneOff(t, u, i);
    assert |LiveAt(t)| == |LiveAt(u) + {i}| && |TombAt(u)| == |TombAt(t) + {i}|;
  }

  lemma OneOff<T>(t: Table<T>, u: Table<T>, i: nat)
    requires i < |t| && Live(t[i]) && u == t[i := Slot(KEY_TOMBSTONE, None)]
    ensures LiveAt(t) == LiveAt(u) + {i} && i !in LiveAt(u)
    ensures TombAt(u) == TombAt(t) + {i} && i !in TombAt(t)
  {
  }

  lemma RemoveFindable<T>(hash: int -> nat, t: Table<T>, i: nat, s: Slot<T>)
    requires TableOk(hash, t) && i < |t| && !Live(s) && s.key != KEY_EMPTY
    ensures TableOk(hash, t[i := s])
  {
    var u := t[i := s];
    forall n | 0 <= n < |u| ensures Findable(hash, u, n) {
      if n != i {
        FindableStays(hash, t, i, s, n);
      }
    }
  }

  /** A tombstone keeps every other key reachable. */
  lemma RemoveOk<T>(hash: int -> nat, t: Table<T>, m: map<int, T>, i: nat)
    requires TableOk(hash, t) && Represents(t, m) && i < |t| && Live(t[i])
    ensures var u := t[i := Slot(KEY_TOMBSTONE, None)];
            && TableOk(hash, u) && Represents(u, m - {t[i].key}) && t[i].key in m
            && |LiveAt(u)| == |LiveAt(t)| - 1 && |TombAt(u)| == |TombAt(t)| + 1 && |m - {t[i].key}| == |m| - 1
  {
    assert EntryOk(t[i], m);
    var key := t[i].key;
    assert KeysDiffer(t) && m == (m - {key})[key := m[key]];
    var s := Slot(KEY_TOMBSTONE, None);
    assert !Live(s);
    hide *;
    RemoveCounts(t, i);
    RemoveRepresents(t, m, i);
    RemoveFindable(hash, t, i, s);
    MapCard(m - {key}, key, m[key]);
  }

  // ----- Copying a table slot by slot -----

  lemma CopyNone<T>(t: Table<T>)
    ensures Represents(t[..0], map[])
  {
  }

  lemma CopySkip<T>(t: Table<T>, m: map<int, T>, i: nat, all: map<int, T>)
    requires i < |t| && Represents(t[..i], m) && !Live(t[i]) && Represents(t, all)
    ensures Represents(t[..i + 1], m)
  {
    var u := t[..i + 1];
    assert EntryOk(t[i], all);
    forall k | k in m ensures Holds(u, k) {
      var n :| KeyAt(t[..i], k, n);
      assert KeyAt(u, k, n);
    }
    forall n | 0 <= n < |u| ensures EntryOk(u[n], m) {
      assert n < i ==> EntryOk(t[..i][n], m);
    }
  }

  lemma CopyOne<T>(t: Table<T>, m: map<int, T>, i: nat, all: map<int, T>)
    requires i < |t| && Represents(t[..i], m) && Live(t[i]) && Represents(t, all) && KeysDiffer(t)
    ensures t[i].key !in m && t[i].value.Some? && Represents(t[..i + 1], m[t[i].key := t[i].value.value])
  {
    assert EntryOk(t[i], all);
    var key, u := t[i].key, t[..i + 1];
    var m' := m[key := t[i].value.value];
    assert key in m ==> Holds(t[..i], key);
    forall k | k in m' ensures Holds(u, k) {
      if k == key {
        assert KeyAt(u, k, i);
      } else {
        var n :| KeyAt(t[..i], k, n);
        assert KeyAt(u, k, n);
      }
    }
    forall n | 0 <= n < |u| ensures EntryOk(u[n], m') {
      assert n < i ==> EntryOk(t[..i][n], m);
    }
  }

  /** What has been copied so far is part of the whole. */
  lemma CopyPart<T>(t: Table<T>, m: map<int, T>, i: nat, all: map<int, T>)
    requires i <= |t| && Represents(t[..i], m) && Represents(t, all)
    ensures m.Keys <= all.Keys && |m| <= |all| && (i == |t| ==> m == all)
  {
    forall k | k in m ensures k in all && m[k] == all[k] {
      var n :| KeyAt(t[..i], k, n);
      assert EntryOk(t[n], all) && EntryOk(t[..i][n], m);
    }
    if i == |t| {
      assert t[..i] == t;
      forall k | k in all ensures k in m {
        var n :| KeyAt(t, k, n);
        assert EntryOk(t[n], m);
      }
    }
    SubsetSize(m.Keys, all.Keys);
    assert |m| == |m.Keys| && |all| == |all.Keys|;
  }

  // ----- The map -----

  /** A table holding the map m, with its counters. */
  ghost predicate StateOk<T>(hash: int -> nat, t: Table<T>, m: map<int, T>, size: nat, tombs: nat) {
    TableOk(hash, t) && Represents(t, m) && size == |m| == |LiveAt(t)| && tombs == |TombAt(t)|
  }

  /** At most three quarters of the slots are in use, so at least one is empty. */
  ghost predicate LoadOk(cap: nat, size: nat, tombs: nat) {
    cap >= MIN_CAPACITY && (size + tombs) * 100 <= cap * MAX_LOAD_PCT
  }

  /** What a search reports: the slot of the key, or where it may be put. */
  ghost predicate SearchOk<T>(hash: int -> nat, t: Table<T>, m: map<int, T>, key: int, found: bool, idx: nat) {
    && idx < |t| && (found <==> key in m)
    && (if found then t[idx] == Slot(key, Some(m[key]))
        else !Live(t[idx]) && exists j :: ReachedAt(t, hash(key), idx, j))
  }

  ghost predicate AllLive<T>(t: Table<T>, h: nat, j: nat)
    requires t != []
  {
    forall n {:trigger ProbeAt(h, |t|, n)} | 0 <= n < j :: Live(t[ProbeAt(h, |t|, n)])
  }

  /** Slot i is the first one that a search with hash h meets that is not live: a tombstone or an empty slot. */
  ghost predicate FirstFree<T>(t: Table<T>, h: nat, i: nat) {
    i < |t| && !Live(t[i]) && exists j: nat {:trigger AllLive(t, h, j)} :: ProbeAt(h, |t|, j) == i && AllLive(t, h, j)
  }

  /** There is only one such slot. */
  lemma FirstFreeOnly<T>(t: Table<T>, h: nat, i: nat, k: nat)
    requires FirstFree(t, h, i) && FirstFree(t, h, k)
    ensures i == k
  {
    var a: nat :| ProbeAt(h, |t|, a) == i && AllLive(t, h, a);
    var b: nat :| ProbeAt(h, |t|, b) == k && AllLive(t, h, b);
  }

  /** Storing a new key rebuilds the table: its search ends at an empty slot and the load limit forbids that. */
  ghost predicate Rebuilt<T>(hash: int -> nat, t: Table<T>, size: nat, tombs: nat, key: int) {
    && 4 * (size + tombs + 1) > 3 * |t|
    && exists i: nat {:trigger FirstFree(t, hash(key), i)} :: FirstFree(t, hash(key), i) && t[i].key == KEY_EMPTY
  }

  /** What storing a new key does to the table: it takes the first free slot of its search, or the table is rebuilt
      without tombstones, at the same capacity if that is enough and at the doubled one if not. */
  ghost predicate Grown<T>(hash: int -> nat, t: Table<T>, size: nat, tombs: nat, key: int, v: T, u: Table<T>,
                           tombs': nat)
  {
    if Rebuilt(hash, t, size, tombs, key) then
      tombs' == 0 && |u| == if 4 * (size + 1) <= 3 * |t| then |t| else 2 * |t|
    else
      exists i: nat {:trigger FirstFree(t, hash(key), i)} ::
        && FirstFree(t, hash(key), i) && u == t[i := Slot(key, Some(v))]
        && tombs == tombs' + (if t[i].key == KEY_TOMBSTONE then 1 else 0)
  }

  lemma SearchFound<T>(hash: int -> nat, t: Table<T>, m: map<int, T>, key: int, idx: nat)
    requires Represents(t, m) && idx < |t| && t[idx].key == key && !Reserved(key)
    ensures SearchOk(hash, t, m, key, true, idx)
  {
    assert EntryOk(t[idx], m);
  }

  lemma SearchMissed<T>(hash: int -> nat, t: Table<T>, m: map<int, T>, key: int, p: nat, idx: nat, q: nat)
    requires TableOk(hash, t) && Represents(t, m) && p < |t| && !Reserved(key)
    requires NeverKey(t, hash(key), p, key) && t[ProbeAt(hash(key), |t|, p)].key == KEY_EMPTY
             && NoneEmpty(t, hash(key), p)
    requires q <= p && idx == ProbeAt(hash(key), |t|, q) && !Live(t[idx])
    ensures SearchOk(hash, t, m, key, false, idx)
  {
    StoredBeforeEmpty(hash, t, m, key, p);
    assert ReachedAt(t, hash(key), idx, q);
  }

  lemma MovesOn<T>(t: Table<T>, h: nat, p: nat, key: int)
    requires p < |t| && NoneEmpty(t, h, p) && NeverKey(t, h, p, key)
    requires t[ProbeAt(h, |t|, p)].key != KEY_EMPTY && t[ProbeAt(h, |t|, p)].key != key
    ensures NoneEmpty(t, h, p + 1) && NeverKey(t, h, p + 1, key)
  {
  }

  /** Fewer slots in use than there are. */
  lemma Spare(cap: nat, size: nat, tombs: nat)
    requires LoadOk(cap, size, tombs)
    ensures size + tombs < cap
  {
  }

  class IntMap<T> {
    const hash: int -> nat
    var slots: array?<Slot<T>>
    var cap: nat
    var size: nat
    var tombs: nat
    ghost var contents: map<int, T>

    ghost predicate Valid()
      reads this, slots
    {
      if slots == null then cap == 0 && size == 0 && tombs == 0 && contents == map[]
      else cap == slots.Length && StateOk(hash, slots[..], contents, size, tombs) && LoadOk(cap, size, tombs)
    }

    constructor (hash: int -> nat)
      ensures Valid() && contents == map[] && this.hash == hash && slots == null
    {
      this.hash := hash;
      slots, cap, size, tombs, contents := null, 0, 0, 0, map[];
    }

    /** probe_insert_or_find_: the slot of the key, or the first tombstone or else the empty slot it may go to.
        Running through the whole table, which would report a full map, does not happen. */
    method Probe(key: int) returns (found: bool, idx: nat)
      requires slots != null && cap == slots.Length && !Reserved(key)
      requires StateOk(hash, slots[..], contents, size, tombs) && size + tombs < cap
      ensures SearchOk(hash, slots[..], contents, key, found, idx)
      ensures !found && tombs == 0 ==> slots[..][idx].key == KEY_EMPTY
      ensures !found ==> FirstFree(slots[..], hash(key), idx)
    {
      ghost var t, h := slots[..], hash(key);
      assert |t| > 0;
      ProbeNext(h, |t|, 0);
      idx := hash(key) % cap;
      var step, hasTomb, firstTomb := 0, false, 0;
      ghost var tombStep: nat := 0;
      while step < cap
        invariant 0 <= step <= cap && idx == ProbeAt(h, |t|, step)
        invariant NoneEmpty(t, h, step) && NeverKey(t, h, step, key)
        invariant hasTomb ==> firstTomb < |t| && t[firstTomb].key == KEY_TOMBSTONE
        invariant hasTomb ==> tombStep < step && firstTomb == ProbeAt(h, |t|, tombStep)
        invariant AllLive(t, h, if hasTomb then tombStep else step)
      {
        assert slots[idx] == t[idx];
        var k := slots[idx].key;
        if k == key {
          SearchFound(hash, t, contents, key, idx);
          return true, idx;
        }
        if k == KEY_EMPTY {
          SearchMissed(hash, t, contents, key, step, if hasTomb then firstTomb else idx,
                       if hasTomb then tombStep else step);
          if hasTomb {
            assert firstTomb in TombAt(t);
          }
          return false, if hasTomb then firstTomb else idx;
        }
        if k == KEY_TOMBSTONE && !hasTomb {
          firstTomb, hasTomb, tombStep := idx, true, step;
        }
        MovesOn(t, h, step, key);
        ProbeNext(h, |t|, step);
        step := step + 1;
        idx := (idx + step) % cap;
      }
      MeetsEmpty(t, h);
      assert false;
    }

    /** place_new_: put a key that is not there yet into a table being built. */
    static method PlaceNew(hash: int -> nat, arr: array<Slot<T>>, key: int, v: T, ghost m: map<int, T>)
      requires StateOk(hash, arr[..], m, |m|, |TombAt(arr[..])|) && |m| + |TombAt(arr[..])| < arr.Length
      requires !Reserved(key) && key !in m
      modifies arr
      ensures StateOk(hash, arr[..], m[key := v], |m| + 1, |TombAt(arr[..])|)
              && |TombAt(arr[..])| <= |TombAt(old(arr[..]))|
    {
      ghost var t, h := arr[..], hash(key);
      ProbeNext(h, |t|, 0);
      var idx, step := hash(key) % arr.Length, 0;
      while step < arr.Length
        invariant 0 <= step <= arr.Length && idx == ProbeAt(h, |t|, step)
        invariant NoneEmpty(t, h, step) && arr[..] == t
      {
        assert arr[idx] == t[idx];
        var k := arr[idx].key;
        if k == KEY_EMPTY || k == KEY_TOMBSTONE {
          arr[idx] := Slot(key, Some(v));
          PlaceOk(hash, t, m, idx, step, key, v);
          assert arr[..] == t[idx := Slot(key, Some(v))];
          return;
        }
        ProbeNext(h, |t|, step);
        step := step + 1;
        idx := (idx + step) % arr.Length;
      }
      MeetsEmpty(t, h);
      assert false;
    }

    /** rehash_: move every entry to a new table of another capacity, leaving the tombstones behind. */
    method Rehash(newCap: nat)
      requires slots != null && cap == slots.Length && StateOk(hash, slots[..], contents, size, tombs)
      requires PowerOfTwo(newCap) && newCap >= MIN_CAPACITY && size * 100 <= newCap * MAX_LOAD_PCT
      modifies this, slots
      ensures Valid() && slots != null && fresh(slots) && cap == newCap && tombs == 0
      ensures contents == old(contents) && size == old(size)
    {
      ghost var t, all := slots[..], contents;
      var table := new Slot<T>[newCap](_ => Slot(KEY_EMPTY, None));
      ghost var m := map[];
      EmptyTable(hash, table[..]);
      CopyNone(t);
      for i := 0 to cap
        invariant slots == old(slots) && slots.Length == cap == |t| && contents == all && size == |all|
        invariant forall j | i <= j < cap :: slots[j] == t[j]
        invariant Represents(t[..i], m) && StateOk(hash, table[..], m, |m|, 0)
        modifies slots, table
      {
        var s := slots[i];
        if s.key == KEY_EMPTY || s.key == KEY_TOMBSTONE {
          CopySkip(t, m, i, all);
        } else {
          CopyOne(t, m, i, all);
          CopyPart(t, m, i, all);
          PlaceNew(hash, table, s.key, s.value.value, m);
          m := m[s.key := s.value.value];
          slots[i] := Slot(KEY_EMPTY, None);
        }
      }
      CopyPart(t, m, cap, all);
      slots, cap, tombs := table, newCap, 0;
    }

    /** The smallest table, allocated when the first key comes. */
    method Allocate()
      requires Valid() && slots == null
      modifies this
      ensures Valid() && slots != null && fresh(slots) && contents == old(contents) && size == old(size)
      ensures cap == 2 && tombs == 0
    {
      cap := MIN_CAPACITY;
      slots := new Slot<T>[MIN_CAPACITY](_ => Slot(KEY_EMPTY, None));
      size, tombs := 0, 0;
      EmptyTable(hash, slots[..]);
    }

    /** Rehash when one more used slot would exceed the load limit: in place of the tombstones
        if that is enough, and at twice the capacity, which fits in 32 bits, if it is not. */
    method MakeRoom()
      requires Valid() && slots != null && size < 0x6000_0000 && !LoadOk(cap, size + 1, tombs)
      modifies this, slots
      ensures Valid() && slots != null && fresh(slots) && contents == old(contents) && size == old(size)
      ensures LoadOk(cap, size + 1, tombs) && tombs == 0
      ensures cap == (if 4 * (size + 1) <= 3 * old(cap) then old(cap) else 2 * old(cap))
              && (cap > old(cap) ==> cap < 0x1_0000_0000)
    {
      assert PowerOfTwo(cap) && PowerOfTwo(cap * 2) by {
        assert cap * 2 / 2 == cap;
      }
      hide PowerOfTwo;
      if (size + 1) * 100 <= cap * MAX_LOAD_PCT {
        Rehash(cap);
      } else {
        Rehash(cap * 2);
      }
    }

    /** emplace: the slot of the key, which keeps its value if it is there and gets v if it is not.
        The bound on the size keeps the doubled capacity within 32 bits. */
    method Emplace(key: int, v: T) returns (r: Result<nat>)
      requires Valid() && size < 0x6000_0000
      modifies this, slots
      ensures Valid() && (slots == old(slots) || fresh(slots))
      ensures r.InvalidKey? <==> key == -0x8000_0000 || key == -0x7fff_ffff
      ensures slots != null ==> cap >= 2 && 4 * (size + tombs) <= 3 * cap
      ensures r.InvalidKey? || (key in old(contents)) ==>
                slots == old(slots) && cap == old(cap) && tombs == old(tombs)
                && (slots != null ==> slots[..] == old(slots[..]))
      ensures r.Ok? && key !in old(contents) && old(slots) == null ==> cap == 2 && tombs == 0
      ensures r.Ok? && key !in old(contents) && old(slots) != null ==>
                Grown(hash, old(slots[..]), old(size), old(tombs), key, v, slots[..], tombs)
                && (fresh(slots) <==> Rebuilt(hash, old(slots[..]), old(size), old(tombs), key))
      ensures Reserved(key) ==> contents == old(contents)
      ensures !Reserved(key) ==> contents == if key in old(contents) then old(contents) else old(contents)[key := v]
      ensures !Reserved(key) ==>
                key in contents && slots != null && r.value < slots.Length
                  && slots[r.value] == Slot(key, Some(contents[key]))
    {
      hide StateOk, ReachedAt;
      if Reserved(key) {
        return InvalidKey;
      }
      if slots == null {
        Allocate();
      }
      Spare(cap, size, tombs);
      var found, idx := Probe(key);
      assert idx < slots.Length && slots[..][idx] == slots[idx];
      if found {
        return Ok(idx);
      }
      if slots[idx].key != KEY_TOMBSTONE && cap * MAX_LOAD_PCT < (size + tombs + 1) * 100 {
        MakeRoom();
        Spare(cap, size, tombs);
        found, idx := Probe(key);
      }
      Put(idx, key, v);
      r := Ok(idx);
    }

    /** Construct the value in a slot the search reported, a tombstone or an empty one. */
    method Put(idx: nat, key: int, v: T)
      requires Valid() && slots != null && !Reserved(key) && key !in contents
      requires SearchOk(hash, slots[..], contents, key, false, idx)
      requires slots[..][idx].key == KEY_TOMBSTONE || LoadOk(cap, size + 1, tombs)
      modifies this, slots
      ensures Valid() && slots == old(slots) && contents == old(contents)[key := v] && idx < cap == old(cap)
              && slots[idx] == Slot(key, Some(v))
      ensures idx < slots.Length && slots[..] == old(slots[..])[idx := Slot(key, Some(v))]
      ensures old(tombs) == tombs + (if old(slots[idx].key) == KEY_TOMBSTONE then 1 else 0)
    {
      ghost var t := slots[..];
      ghost var j :| ReachedAt(t, hash(key), idx, j);
      PlaceOk(hash, t, contents, idx, j, key, v);
      if slots[idx].key == KEY_TOMBSTONE {
        tombs := tombs - 1;
      }
      slots[idx] := Slot(key, Some(v));
      size := size + 1;
      contents := contents[key := v];
      assert slots[..] == t[idx := Slot(key, Some(v))];
    }

    /** find: the slot of the key, or the capacity, which is where iteration ends. */
    method Find(key: int) returns (r: Result<nat>)
      requires Valid()
      ensures Reserved(key) <==> r.InvalidKey?
      ensures !Reserved(key) && key !in contents ==> r.value == cap
      ensures !Reserved(key) && key in contents ==>
                slots != null && r.value < slots.Length && slots[r.value] == Slot(key, Some(contents[key]))
    {
      hide StateOk, ReachedAt;
      if Reserved(key) {
        return InvalidKey;
      }
      if slots == null {
        return Ok(cap);
      }
      Spare(cap, size, tombs);
      var found, idx := Probe(key);
      assert idx < slots.Length && slots[..][idx] == slots[idx];
      r := Ok(if found then idx else cap);
    }

    /** contains */
    method Contains(key: int) returns (r: Result<bool>)
      requires Valid()
      ensures r == if Reserved(key) then InvalidKey else Ok(key in contents)
    {
      hide StateOk, ReachedAt;
      if Reserved(key) {
        return InvalidKey;
      }
      if slots == null {
        return Ok(false);
      }
      Spare(cap, size, tombs);
      var found, _ := Probe(key);
      r := Ok(found);
    }

    /** erase: true when the key was there; the table is freed when empty and halved when sparse. */
    method Erase(key: int) returns (r: Result<bool>)
      requires Valid()
      modifies this, slots
      ensures Valid() && (slots == null || slots == old(slots) || fresh(slots))
      ensures r == if Reserved(key) then InvalidKey else Ok(key in old(contents))
      ensures contents == old(contents) - {key}
      ensures contents == map[] && old(contents) != map[] ==> slots == null
      ensures r == Ok(true) && slots != null ==>
                cap == (if 4 * size < old(cap) && old(cap) >= 4 then old(cap) / 2 else old(cap))
                && tombs == (if 4 * size < old(cap) && old(cap) >= 4 then 0 else old(tombs) + 1)
      ensures r != Ok(true) ==>
                slots == old(slots) && cap == old(cap) && tombs == old(tombs)
                && (slots != null ==> slots[..] == old(slots[..]))
    {
      hide ReachedAt, TableOk, LiveAt, TombAt;
      if Reserved(key) {
        ReservedAbsent(key);
        return InvalidKey;
      }
      if slots == null {
        return Ok(false);
      }
      Spare(cap, size, tombs);
      ghost var t := slots[..];
      var found, idx := Probe(key);
      if !found {
        return Ok(false);
      }
      assert slots[idx] == t[idx];
      RemoveOk(hash, t, contents, idx);
      slots[idx] := Slot(KEY_TOMBSTONE, None);
      size := size - 1;
      tombs := tombs + 1;
      contents := contents - {key};
      assert slots[..] == t[idx := Slot(KEY_TOMBSTONE, None)];
      MaybeRehashAfterErase();
      r := Ok(true);
    }

    lemma ReservedAbsent(key: int)
      requires Valid() && Reserved(key)
      ensures key !in contents
    {
    }

    /** maybe_rehash_after_erase_ */
    method MaybeRehashAfterErase()
      requires Valid() && slots != null
      modifies this, slots
      ensures Valid() && (slots == null || slots == old(slots) || fresh(slots))
      ensures contents == old(contents) && (contents == map[] <==> slots == null)
      ensures slots != null ==>
                cap == (if 4 * size < old(cap) && old(cap) >= 4 then old(cap) / 2 else old(cap))
                && tombs == (if 4 * size < old(cap) && old(cap) >= 4 then 0 else old(tombs))
    {
      if size == 0 {
        slots, cap, size, tombs := null, 0, 0, 0;
        return;
      }
      if size * 100 < cap * MIN_LOAD_PCT {
        if cap / 2 >= MIN_CAPACITY {
          assert PowerOfTwo(cap);
          Rehash(cap / 2);
        }
      }
    }

    /** Assignment through the reference that emplace and find give. */
    method Store(idx: nat, v: T)
      requires Valid() && slots != null && idx < slots.Length && Live(slots[idx])
      modifies this, slots
      ensures Valid() && slots == old(slots) && cap == old(cap) && contents == old(contents)[old(slots[idx].key) := v]
      ensures contents.Keys == old(contents.Keys)
    {
      ghost var t, m := slots[..], contents;
      slots[idx] := Slot(slots[idx].key, Some(v));
      assert slots[..] == t[idx := Slot(t[idx].key, Some(v))];
      contents := contents[slots[idx].key := v];
      StoreOk(hash, t, m, idx, v);
    }

    /** operator[] followed by an assignment. */
    method Assign(key: int, v: T) returns (r: Result<nat>)
      requires Valid() && size < 0x6000_0000
      modifies this, slots
      ensures Valid() && (slots == old(slots) || fresh(slots))
      ensures Reserved(key) <==> r.InvalidKey?
      ensures contents == if Reserved(key) then old(contents) else old(contents)[key := v]
    {
      hide StateOk;
      r := Emplace(key, v);
      if r.Ok? {
        Store(r.value, v);
      }
    }

    /** The iterator skips slots that are not live. */
    method Advance(start: nat) returns (i: nat)
      requires Valid() && start <= cap
      ensures start <= i <= cap && (i == cap || (slots != null && Live(slots[..][i])))
      ensures slots != null ==> forall j | start <= j < i :: !Live(slots[..][j])
    {
      i := start;
      while i < cap && Reserved(slots[i].key)
        invariant start <= i <= cap
        invariant slots != null ==> forall j | start <= j < i :: !Live(slots[..][j])
      {
        i := i + 1;
      }
    }

    /** Iteration from begin to end meets every entry once. */
    method Entries() returns (s: seq<(int, T)>)
      requires Valid()
      ensures Lists(s, contents) && s == if slots == null then [] else LiveEntries(slots[..])
    {
      hide LiveEntries;
      s := [];
      var i := Advance(0);
      if slots == null {
        return;
      }
      ghost var t, m := slots[..], map[];
      CopyNone(t);
      CopySkips(t, m, 0, i, contents);
      assert forall j | 0 <= j < i :: !Live(slots[..][j]);
      LiveNone(t, i);
      while i < cap
        invariant i <= cap && (i < cap ==> Live(t[i])) && s == LiveEntries(t[..i])
        invariant Represents(t[..i], m) && Lists(s, m)
      {
        CopyOne(t, m, i, contents);
        ListsMore(s, m, t[i].key, t[i].value.value);
        m := m[t[i].key := t[i].value.value];
        s := s + [(slots[i].key, slots[i].value.value)];
        var next := Advance(i + 1);
        assert slots[..] == t;
        forall j | i + 1 <= j < next ensures !Live(t[j]) {
          assert !Live(slots[..][j]);
        }
        CopySkips(t, m, i + 1, next, contents);
        LiveTurn(t, i, next);
        i := next;
      }
      CopyPart(t, m, cap, contents);
      assert t[..cap] == t;
    }
  }

  /** The live slots in order. */
  ghost function LiveEntries<T>(t: Table<T>): seq<(int, T)> {
    if t == [] then []
    else
      var s := t[|t| - 1];
      LiveEntries(t[..|t| - 1]) + if Live(s) && s.value.Some? then [(s.key, s.value.value)] else []
  }

  lemma {:induction false} LiveSkips<T>(t: Table<T>, i: nat, n: nat)
    requires i <= n <= |t| && forall j | i <= j < n :: !Live(t[j])
    ensures LiveEntries(t[..n]) == LiveEntries(t[..i])
  {
    if i < n {
      assert t[..n][..n - 1] == t[..n - 1];
      LiveSkips(t, i, n - 1);
    }
  }

  lemma LiveNone<T>(t: Table<T>, n: nat)
    requires n <= |t| && forall j | 0 <= j < n :: !Live(t[j])
    ensures LiveEntries(t[..n]) == []
  {
    LiveSkips(t, 0, n);
    assert t[..0] == [];
  }

  lemma LiveTurn<T>(t: Table<T>, i: nat, next: nat)
    requires i < next <= |t| && Live(t[i]) && t[i].value.Some? && forall j | i + 1 <= j < next :: !Live(t[j])
    ensures LiveEntries(t[..next]) == LiveEntries(t[..i]) + [(t[i].key, t[i].value.value)]
  {
    assert t[..i + 1][..i] == t[..i];
    LiveSkips(t, i + 1, next);
  }

  /** The entries of the map, each once, in some order. */
  ghost predicate Lists<T>(s: seq<(int, T)>, m: map<int, T>) {
    && |s| == |m|
    && (forall i | 0 <= i < |s| :: s[i].0 in m && m[s[i].0] == s[i].1)
    && (forall i, j | 0 <= i < j < |s| :: s[i].0 != s[j].0)
  }

  lemma ListsMore<T>(s: seq<(int, T)>, m: map<int, T>, key: int, v: T)
    requires Lists(s, m) && key !in m
    ensures Lists(s + [(key, v)], m[key := v])
  {
    MapCard(m, key, v);
  }

  lemma {:induction false} CopySkips<T>(t: Table<T>, m: map<int, T>, i: nat, n: nat, all: map<int, T>)
    requires i <= n <= |t| && Represents(t[..i], m) && Represents(t, all) && forall j | i <= j < n :: !Live(t[j])
    ensures Represents(t[..n], m)
    decreases n
  {
    if i < n {
      CopySkips(t, m, i, n - 1, all);
      CopySkip(t, m, n - 1, all);
    }
  }

  lemma StoreOk<T>(hash: int -> nat, t: Table<T>, m: map<int, T>, i: nat, v: T)
    requires StateOk(hash, t, m, |m|, |TombAt(t)|) && i < |t| && Live(t[i])
    ensures t[i].key in m && StateOk(hash, t[i := Slot(t[i].key, Some(v))], m[t[i].key := v], |m|, |TombAt(t)|)
  {
    var key := t[i].key;
    var u, w := t[i := Slot(key, Some(v))], m[key := v];
    assert EntryOk(t[i], m);
    assert LiveAt(u) == LiveAt(t) && TombAt(u) == TombAt(t);
    assert w.Keys == m.Keys && |w| == |w.Keys| && |m| == |m.Keys|;
    forall n | 0 <= n < |u| ensures Findable(hash, u, n) && EntryOk(u[n], w) {
      assert Findable(hash, t, n) && EntryOk(t[n], m);
      StoreReach(hash, t, i, v, n);
    }
    forall k | k in w ensures Holds(u, k) {
      StoreHolds(t, m, i, v, k);
    }
  }

  lemma StoreHolds<T>(t: Table<T>, m: map<int, T>, i: nat, v: T, k: int)
    requires Represents(t, m) && i < |t| && Live(t[i]) && (k in m || k == t[i].key)
    ensures Holds(t[i := Slot(t[i].key, Some(v))], k)
  {
    assert EntryOk(t[i], m) && Holds(t, k);
    var n :| KeyAt(t, k, n);
    assert KeyAt(t[i := Slot(t[i].key, Some(v))], k, n);
  }

  lemma StoreReach<T>(hash: int -> nat, t: Table<T>, i: nat, v: T, n: nat)
    requires i < |t| && n < |t| && Live(t[i]) && Findable(hash, t, n)
    ensures Findable(hash, t[i := Slot(t[i].key, Some(v))], n)
  {
    if Live(t[n]) {
      var p :| ReachedAt(t, hash(t[n].key), n, p);
      PutReach(t, hash(t[n].key), n, p, i, Slot(t[i].key, Some(v)));
    }
  }

  lemma PlaceOk<T>(hash: int -> nat, t: Table<T>, m: map<int, T>, idx: nat, j: nat, key: int, v: T)
    requires StateOk(hash, t, m, |m|, |TombAt(t)|) && idx < |t| && !Live(t[idx]) && ReachedAt(t, hash(key), idx, j)
    requires !Reserved(key) && key !in m
    ensures var u := t[idx := Slot(key, Some(v))];
            && StateOk(hash, u, m[key := v], |m| + 1, |TombAt(u)|)
            && |TombAt(t)| == |TombAt(u)| + (if t[idx].key == KEY_TOMBSTONE then 1 else 0)
  {
    PutOk(hash, t, m, idx, j, key, v);
  }
}
