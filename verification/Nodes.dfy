/**
 The nodes of the suffix tree (struct Node in suffix_tree.h).  The hash maps of a node are
 finite maps here (module IntMaps shows that the hash map behaves as one), and the linked list
 of its children is the sequence of its members (module KidLists shows that the linked list stands for it).
 */
module Nodes {
  import opened Suffixes

  /** The fields of a node, as a value.  Its path is known to proofs only. */
  datatype Rec = Rec(
    count: int,
    token: Token,
    length: int,
    refSeq: int,
    refIdx: int,
    endpoints: map<int, int>,
    parent: Node?,
    children: map<Token, Node>,
    path: Str)

  class Node {
    var count: int
    var token: Token
    var length: int
    var refSeq: int
    var refIdx: int
    var endpoints: map<int, int>
    var parent: Node?
    var children: map<Token, Node>
    var kids: seq<Node>
    ghost var path: Str

    /** The root, whose label is empty. */
    constructor Root()
      ensures Get() == Rec(0, 0, 0, 0, -1, map[], null, map[], []) && kids == []
    {
      count, token, length, refSeq, refIdx := 0, 0, 0, 0, -1;
      endpoints, parent, children, kids, path := map[], null, map[], [], [];
    }

    constructor (count: int, token: Token, length: int, refSeq: int, refIdx: int,
                 endpoints: map<int, int>, parent: Node, children: map<Token, Node>, kids: seq<Node>, ghost path: Str)
      ensures Get() == Rec(count, token, length, refSeq, refIdx, endpoints, parent, children, path)
      ensures this.kids == kids
    {
      this.count, this.token, this.length, this.refSeq, this.refIdx := count, token, length, refSeq, refIdx;
      this.endpoints, this.parent, this.children, this.kids, this.path := endpoints, parent, children, kids, path;
    }

    ghost function Get(): Rec
      reads this
    {
      Rec(count, token, length, refSeq, refIdx, endpoints, parent, children, path)
    }

    lemma GetIs()
      ensures Get() == Rec(count, token, length, refSeq, refIdx, endpoints, parent, children, path)
    {
    }
  }
}
