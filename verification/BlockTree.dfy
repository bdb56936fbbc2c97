/** Stored block headers as a forest: parent links, ancestors by height, and tree distance. */
module BlockTree {
  import opened HashSeqs

  /** What a block header says; `simple` is the hash of parent name, round and signature only, `parentFull` the parent's full hash. */
  datatype Header = Header(height: nat, round: nat, simple: nat, parentSimple: nat, parentFull: Hash)

  type Blocks = map<Hash, Header>

  /** Every stored block but those of height zero has its parent stored, one lower. */
  ghost predicate Forest(blocks: Blocks) {
    forall b :: b in blocks ==> Rooted(blocks, blocks[b])
  }

  ghost predicate Rooted(blocks: Blocks, h: Header) {
    if h.height == 0 then h.parentFull !in blocks
    else h.parentFull in blocks && blocks[h.parentFull].height == h.height - 1
  }

  /** A forest with one genesis. */
  ghost predicate SingleGenesis(blocks: Blocks, genesis: Hash) {
    && Forest(blocks) && genesis in blocks && blocks[genesis].height == 0
    && forall b :: b in blocks && blocks[b].height == 0 ==> b == genesis
  }

  /** The ancestor of `b` at height `k`, for `k` up to the height of `b`. */
  ghost function Ancestor(blocks: Blocks, b: Hash, k: nat): (a: Hash)
    requires Forest(blocks) && b in blocks && k <= blocks[b].height
    ensures a in blocks && blocks[a].height == k
    decreases blocks[b].height
  {
    if blocks[b].height == k then b else Ancestor(blocks, blocks[b].parentFull, k)
  }

  lemma {:induction false} AncestorCompose(blocks: Blocks, b: Hash, k: nat, j: nat)
    requires Forest(blocks) && b in blocks && j <= k <= blocks[b].height
    ensures Ancestor(blocks, Ancestor(blocks, b, k), j) == Ancestor(blocks, b, j)
    decreases blocks[b].height
  {
    if k < blocks[b].height {
      AncestorCompose(blocks, blocks[b].parentFull, k, j);
    }
  }

  /** Block insertion never changes ancestors. */
  lemma {:induction false} AncestorStable(a: Blocks, c: Blocks, b: Hash, k: nat)
    requires Forest(a) && Forest(c) && b in a && k <= a[b].height
    requires forall x :: x in a ==> x in c && c[x] == a[x]
    ensures Ancestor(c, b, k) == Ancestor(a, b, k)
    decreases a[b].height
  {
    if a[b].height > k {
      AncestorStable(a, c, a[b].parentFull, k);
    }
  }

  ghost function Min(a: nat, b: nat): nat {
    if a < b then a else b
  }

  /** Both descend from the same block of height zero. */
  ghost predicate SameRoot(blocks: Blocks, a: Hash, b: Hash)
    requires Forest(blocks) && a in blocks && b in blocks
  {
    Ancestor(blocks, a, 0) == Ancestor(blocks, b, 0)
  }

  /** The greatest height up to `k` at which `a` and `b` have the same ancestor. */
  ghost function ForkBelow(blocks: Blocks, a: Hash, b: Hash, k: nat): (c: nat)
    requires Forest(blocks) && a in blocks && b in blocks && SameRoot(blocks, a, b) && k <= Min(blocks[a].height, blocks[b].height)
    ensures c <= k && Ancestor(blocks, a, c) == Ancestor(blocks, b, c)
  {
    if Ancestor(blocks, a, k) == Ancestor(blocks, b, k) then k else ForkBelow(blocks, a, b, k - 1)
  }

  /** The height of the lowest common ancestor. */
  ghost function ForkHeight(blocks: Blocks, a: Hash, b: Hash): (c: nat)
    requires Forest(blocks) && a in blocks && b in blocks && SameRoot(blocks, a, b)
    ensures c <= Min(blocks[a].height, blocks[b].height) && Ancestor(blocks, a, c) == Ancestor(blocks, b, c)
  {
    ForkBelow(blocks, a, b, Min(blocks[a].height, blocks[b].height))
  }

  lemma {:induction false} ForkBelowMax(blocks: Blocks, a: Hash, b: Hash, k: nat, j: nat)
    requires Forest(blocks) && a in blocks && b in blocks && SameRoot(blocks, a, b) && j <= k <= Min(blocks[a].height, blocks[b].height)
    ensures Ancestor(blocks, a, j) == Ancestor(blocks, b, j) <==> j <= ForkBelow(blocks, a, b, k)
  {
    hide Ancestor, Forest, SameRoot;
    if Ancestor(blocks, a, k) == Ancestor(blocks, b, k) {
      AncestorCompose(blocks, a, k, j);
      AncestorCompose(blocks, b, k, j);
    } else if j < k {
      ForkBelowMax(blocks, a, b, k - 1, j);
    }
  }

  /** Ancestors agree exactly up to the lowest common ancestor. */
  lemma {:induction false} ForkMax(blocks: Blocks, a: Hash, b: Hash, j: nat)
    requires Forest(blocks) && a in blocks && b in blocks && SameRoot(blocks, a, b) && j <= Min(blocks[a].height, blocks[b].height)
    ensures Ancestor(blocks, a, j) == Ancestor(blocks, b, j) <==> j <= ForkHeight(blocks, a, b)
  {
    ForkBelowMax(blocks, a, b, Min(blocks[a].height, blocks[b].height), j);
  }

  lemma {:induction false} ForkSymmetric(blocks: Blocks, a: Hash, b: Hash)
    requires Forest(blocks) && a in blocks && b in blocks && SameRoot(blocks, a, b)
    ensures ForkHeight(blocks, a, b) == ForkHeight(blocks, b, a)
  {
    ForkMax(blocks, a, b, ForkHeight(blocks, b, a));
    ForkMax(blocks, b, a, ForkHeight(blocks, a, b));
  }

  /** Number of parent-child steps from `a` up to the lowest common ancestor and down to `b`. */
  ghost function Distance(blocks: Blocks, a: Hash, b: Hash): (d: nat)
    requires Forest(blocks) && a in blocks && b in blocks && SameRoot(blocks, a, b)
  {
    blocks[a].height + blocks[b].height - 2 * ForkHeight(blocks, a, b)
  }

  lemma {:induction false} OneRoot(blocks: Blocks, genesis: Hash, a: Hash, b: Hash)
    requires SingleGenesis(blocks, genesis) && a in blocks && b in blocks
    ensures SameRoot(blocks, a, b)
  {
  }

  /** Two of three common heights bound the third. */
  lemma {:induction false} ForkUltrametric(blocks: Blocks, a: Hash, b: Hash, c: Hash)
    requires Forest(blocks) && a in blocks && b in blocks && c in blocks && SameRoot(blocks, a, b) && SameRoot(blocks, b, c)
    ensures ForkHeight(blocks, a, c) >= Min(ForkHeight(blocks, a, b), ForkHeight(blocks, b, c))
  {
    var m := Min(ForkHeight(blocks, a, b), ForkHeight(blocks, b, c));
    ForkMax(blocks, a, b, m);
    ForkMax(blocks, b, c, m);
    ForkMax(blocks, a, c, m);
  }

  /** The hop count is a metric on the blocks of one genesis. */
  lemma {:induction false} DistanceIsMetric(blocks: Blocks, genesis: Hash, a: Hash, b: Hash, c: Hash)
    requires SingleGenesis(blocks, genesis) && a in blocks && b in blocks && c in blocks
    ensures SameRoot(blocks, a, b) && SameRoot(blocks, b, a) && SameRoot(blocks, b, c) && SameRoot(blocks, a, c)
    ensures Distance(blocks, a, b) == 0 <==> a == b
    ensures Distance(blocks, a, b) == Distance(blocks, b, a)
    ensures Distance(blocks, a, c) <= Distance(blocks, a, b) + Distance(blocks, b, c)
  {
    OneRoot(blocks, genesis, a, b);
    OneRoot(blocks, genesis, b, c);
    OneRoot(blocks, genesis, a, c);
    ForkSymmetric(blocks, a, b);
    ForkUltrametric(blocks, a, b, c);
    if a == b {
      ForkMax(blocks, a, b, blocks[a].height);
    }
  }

  // ---------------------------------------------------------------- distance and steps

  ghost predicate Neighbour(blocks: Blocks, a: Hash, b: Hash) {
    a in blocks && b in blocks && (blocks[a].parentFull == b || blocks[b].parentFull == a)
  }

  /** From a block to its parent the distance to `h` changes by one: up if the block lies on the path of `h`. */
  lemma {:induction false} StepUp(blocks: Blocks, h: Hash, b: Hash)
    requires Forest(blocks) && h in blocks && b in blocks && SameRoot(blocks, h, b) && blocks[b].height > 0
    ensures blocks[b].parentFull in blocks && SameRoot(blocks, h, blocks[b].parentFull)
    ensures Distance(blocks, h, blocks[b].parentFull) ==
            if ForkHeight(blocks, h, b) == blocks[b].height then Distance(blocks, h, b) + 1 else Distance(blocks, h, b) - 1
  {
    hide ForkHeight, Ancestor;
    ParentAncestor(blocks, b, 0);
    ForkOfParent(blocks, h, b);
  }

  /** The fork with a parent is the fork with the block itself, unless that is the block. */
  lemma {:induction false} ForkOfParent(blocks: Blocks, h: Hash, b: Hash)
    requires Forest(blocks) && h in blocks && b in blocks && SameRoot(blocks, h, b) && blocks[b].height > 0
    requires blocks[b].parentFull in blocks && SameRoot(blocks, h, blocks[b].parentFull)
    ensures ForkHeight(blocks, h, blocks[b].parentFull) == Min(ForkHeight(blocks, h, b), blocks[b].height - 1)
  {
    hide ForkHeight, Ancestor, Forest, SameRoot;
    var p := blocks[b].parentFull;
    ParentAncestor(blocks, b, 0);
    var g, m := ForkHeight(blocks, h, p), Min(ForkHeight(blocks, h, b), blocks[b].height - 1);
    ParentAncestor(blocks, b, g);
    ForkMax(blocks, h, b, g);
    ParentAncestor(blocks, b, m);
    ForkMax(blocks, h, b, m);
    ForkMax(blocks, h, p, m);
  }

  lemma {:induction false} ParentAncestor(blocks: Blocks, b: Hash, k: nat)
    requires Forest(blocks) && b in blocks && k < blocks[b].height
    ensures blocks[b].parentFull in blocks && blocks[blocks[b].parentFull].height == blocks[b].height - 1
    ensures Ancestor(blocks, blocks[b].parentFull, k) == Ancestor(blocks, b, k)
  {
  }

  lemma {:induction false} NeighbourDistance(blocks: Blocks, h: Hash, a: Hash, b: Hash)
    requires Forest(blocks) && h in blocks && Neighbour(blocks, a, b) && SameRoot(blocks, h, a)
    ensures SameRoot(blocks, h, b)
    ensures Distance(blocks, h, b) == Distance(blocks, h, a) + 1 || Distance(blocks, h, b) == Distance(blocks, h, a) - 1
  {
    hide Distance, Ancestor, ForkHeight;
    assert Rooted(blocks, blocks[a]) && Rooted(blocks, blocks[b]);
    if blocks[a].parentFull == b {
      StepUp(blocks, h, a);
    } else {
      ParentAncestor(blocks, b, 0);
      StepUp(blocks, h, b);
    }
  }

  /** Every block but `h` itself has a neighbour one step closer to `h`. */
  lemma {:induction false} Closer(blocks: Blocks, h: Hash, b: Hash) returns (n: Hash)
    requires Forest(blocks) && h in blocks && b in blocks && SameRoot(blocks, h, b) && h != b
    ensures Neighbour(blocks, b, n) && SameRoot(blocks, h, n) && Distance(blocks, h, n) == Distance(blocks, h, b) - 1
  {
    hide Ancestor, ForkHeight;
    assert Rooted(blocks, blocks[b]);
    var k := blocks[b].height;
    if ForkHeight(blocks, h, b) < k {
      StepUp(blocks, h, b);
      n := blocks[b].parentFull;
    } else {
      n := OnPath(blocks, h, b);
      StepUp(blocks, h, n);
    }
  }

  /** The next block from `b` towards its descendant `h`. */
  lemma {:induction false} OnPath(blocks: Blocks, h: Hash, b: Hash) returns (n: Hash)
    requires Forest(blocks) && h in blocks && b in blocks && SameRoot(blocks, h, b) && h != b
    requires ForkHeight(blocks, h, b) == blocks[b].height
    ensures n in blocks && blocks[n].parentFull == b && blocks[n].height == blocks[b].height + 1
    ensures SameRoot(blocks, h, n) && ForkHeight(blocks, h, n) == blocks[n].height
  {
    var k := blocks[b].height;
    SelfAncestor(blocks, b);
    if k == blocks[h].height {
      SelfAncestor(blocks, h);
      assert false;
    }
    n := Ancestor(blocks, h, k + 1);
    SelfAncestor(blocks, n);
    ParentAncestor(blocks, n, k);
    SelfAncestor(blocks, blocks[n].parentFull);
    AncestorCompose(blocks, h, k + 1, k);
    AncestorCompose(blocks, h, k + 1, 0);
    ForkMax(blocks, h, n, k + 1);
  }

  lemma {:induction false} SelfAncestor(blocks: Blocks, b: Hash)
    requires Forest(blocks) && b in blocks
    ensures Ancestor(blocks, b, blocks[b].height) == b
  {
  }

  /** A walk along parent and child links. */
  ghost predicate Walk(blocks: Blocks, path: seq<Hash>) {
    path != [] && path[0] in blocks && forall i :: 0 < i < |path| ==> Neighbour(blocks, path[i - 1], path[i])
  }

  /** No walk is shorter than the distance. */
  lemma {:induction false} WalkLength(blocks: Blocks, path: seq<Hash>)
    requires Forest(blocks) && Walk(blocks, path)
    ensures path[|path| - 1] in blocks && SameRoot(blocks, path[0], path[|path| - 1])
    ensures |path| - 1 >= Distance(blocks, path[0], path[|path| - 1])
  {
    hide Ancestor, Distance;
    if |path| == 1 {
      DistanceSelf(blocks, path[0]);
    } else {
      var init := path[..|path| - 1];
      assert Walk(blocks, init);
      WalkLength(blocks, init);
      assert Neighbour(blocks, path[|path| - 2], path[|path| - 1]);
      NeighbourDistance(blocks, path[0], path[|path| - 2], path[|path| - 1]);
    }
  }

  lemma {:induction false} DistanceSelf(blocks: Blocks, a: Hash)
    requires Forest(blocks) && a in blocks
    ensures SameRoot(blocks, a, a) && Distance(blocks, a, a) == 0
  {
  }

  /** Some walk has exactly the distance as its length. */
  lemma {:induction false} ShortestWalk(blocks: Blocks, a: Hash, b: Hash) returns (path: seq<Hash>)
    requires Forest(blocks) && a in blocks && b in blocks && SameRoot(blocks, a, b)
    ensures Walk(blocks, path) && path[0] == a && path[|path| - 1] == b && |path| - 1 == Distance(blocks, a, b)
    decreases Distance(blocks, a, b)
  {
    hide Ancestor, Distance;
    if a == b {
      DistanceSelf(blocks, a);
      path := [a];
    } else {
      var n := Closer(blocks, a, b);
      var init := ShortestWalk(blocks, a, n);
      path := init + [b];
    }
  }
}
