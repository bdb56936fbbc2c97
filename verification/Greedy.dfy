/**
 * Hop counts and the greedy mining set (chain/greedy.go), over the blocks and the child index that
 * block insertion keeps (chain/block_handler.go).
 */
module Greedy {
  import opened Common
  import opened HashSeqs
  import opened BlockTree

  /** The child index lists every stored block once, under its parent's hash. */
  ghost predicate IndexOk(blocks: Blocks, childs: map<Hash, seq<Hash>>) {
    && (forall p :: p in childs ==> Distinct(childs[p]))
    && (forall p, c :: Listed(childs, p, c) <==> c in blocks && blocks[c].parentFull == p)
  }

  ghost predicate Listed(childs: map<Hash, seq<Hash>>, p: Hash, c: Hash) {
    p in childs && c in childs[p]
  }

  /** The blocks within `n` steps of the head. */
  ghost predicate Within(blocks: Blocks, head: Hash, b: Hash, n: nat)
    requires Forest(blocks) && head in blocks
  {
    b in blocks && SameRoot(blocks, head, b) && Distance(blocks, head, b) <= n
  }

  datatype GreedyError = MoreThanOneGenesis | NilBlock

  /** What holds of the search after all blocks within `n` steps have been found. */
  ghost predicate Found(blocks: Blocks, head: Hash, found: seq<Hash>, n: nat)
    requires Forest(blocks) && head in blocks
  {
    Distinct(found) && forall b :: b in found <==> Within(blocks, head, b, n)
  }

  ghost predicate Layer(blocks: Blocks, head: Hash, layer: seq<Hash>, n: nat)
    requires Forest(blocks) && head in blocks
  {
    forall b :: b in layer <==> b in blocks && SameRoot(blocks, head, b) && Distance(blocks, head, b) == n
  }

  /** While layer `n` is being expanded: everything within `n`, some at `n + 1`, and those are `next`. */
  ghost predicate Growing(blocks: Blocks, head: Hash, found: seq<Hash>, next: seq<Hash>, n: nat)
    requires Forest(blocks) && head in blocks
  {
    && Distinct(found)
    && (forall b :: Within(blocks, head, b, n) ==> b in found)
    && (forall b :: b in found ==> Within(blocks, head, b, n + 1))
    && (forall b :: b in next <==> b in found && !Within(blocks, head, b, n))
  }

  lemma {:induction false} FirstLayer(blocks: Blocks, head: Hash)
    requires Forest(blocks) && head in blocks
    ensures Found(blocks, head, [head], 0) && Layer(blocks, head, [head], 0)
  {
  }

  lemma {:induction false} StartLayer(blocks: Blocks, head: Hash, found: seq<Hash>, n: nat)
    requires Forest(blocks) && head in blocks && Found(blocks, head, found, n)
    ensures Growing(blocks, head, found, [], n)
  {
  }

  /** Adding the unseen neighbours of a block of layer `n`. */
  lemma {:induction false} Grow(blocks: Blocks, head: Hash, found: seq<Hash>, next: seq<Hash>, n: nat, cur: Hash, extra: seq<Hash>)
    requires Forest(blocks) && head in blocks && Growing(blocks, head, found, next, n)
    requires cur in blocks && SameRoot(blocks, head, cur) && Distance(blocks, head, cur) == n
    requires Distinct(extra) && forall x :: x in extra <==> Neighbour(blocks, cur, x) && x !in found
    ensures Growing(blocks, head, found + extra, next + extra, n)
    ensures forall x :: Neighbour(blocks, cur, x) ==> x in found + extra
  {
    hide Distance, SameRoot, Neighbour, Forest;
    forall x | x in extra
      ensures Within(blocks, head, x, n + 1) && !Within(blocks, head, x, n)
    {
      NeighbourSymmetric(blocks, cur, x);
      NeighbourDistance(blocks, head, cur, x);
    }
    DistinctConcat(found, extra);
  }

  lemma {:induction false} DistinctConcat(a: seq<Hash>, b: seq<Hash>)
    requires Distinct(a) && Distinct(b) && forall x :: x in b ==> x !in a
    ensures Distinct(a + b)
  {
    var s := a + b;
    forall i, j | 0 <= i < j < |s|
      ensures s[i] != s[j]
    {
      if i < |a| <= j {
        assert s[j] in b && s[i] in a;
      }
    }
  }

  /** With all of layer `n` expanded, layer `n + 1` is complete. */
  lemma {:induction false} LayerDone(blocks: Blocks, head: Hash, found: seq<Hash>, next: seq<Hash>, n: nat, layer: seq<Hash>)
    requires Forest(blocks) && head in blocks && Growing(blocks, head, found, next, n) && Layer(blocks, head, layer, n)
    requires forall c, x :: c in layer && Neighbour(blocks, c, x) ==> x in found
    ensures Found(blocks, head, found, n + 1) && Layer(blocks, head, next, n + 1)
  {
    hide Distance, SameRoot, Neighbour, Forest, Distinct;
    forall b | b in blocks && SameRoot(blocks, head, b) && Distance(blocks, head, b) == n + 1
      ensures b in found
    {
      DistanceSelf(blocks, head);
      var c := Closer(blocks, head, b);
      NeighbourSymmetric(blocks, b, c);
      assert c in layer;
    }
  }

  lemma {:induction false} NeighbourSymmetric(blocks: Blocks, a: Hash, b: Hash)
    requires Neighbour(blocks, a, b)
    ensures Neighbour(blocks, b, a) && b in blocks
  {
  }

  /** `CompareByRoundAndSimpleHash` is positive. */
  predicate LaterThan(a: Header, b: Header) {
    a.round > b.round || (a.round == b.round && a.simple > b.simple)
  }

  ghost predicate Later(blocks: Blocks, a: Hash, b: Hash)
    requires a in blocks && b in blocks
  {
    LaterThan(blocks[a], blocks[b])
  }

  /** The greatest height up to `k` at which the path of `main` does not come after `b`; zero if there is none. */
  ghost function LastNotLater(blocks: Blocks, main: Hash, b: Hash, k: nat): (j: nat)
    requires Forest(blocks) && main in blocks && b in blocks && k <= blocks[main].height
    ensures j <= k
  {
    if k == 0 || !Later(blocks, Ancestor(blocks, main, k), b) then k else LastNotLater(blocks, main, b, k - 1)
  }

  /** Of an earlier round, or of the same round with no greater simple hash. */
  ghost predicate NotAfter(a: Header, b: Header) {
    a.round < b.round || (a.round == b.round && a.simple <= b.simple)
  }

  lemma {:induction false} LastNotLaterMax(blocks: Blocks, main: Hash, b: Hash, k: nat, i: nat)
    requires Forest(blocks) && main in blocks && b in blocks && i <= k <= blocks[main].height
    ensures LastNotLater(blocks, main, b, k) < i ==> !NotAfter(blocks[Ancestor(blocks, main, i)], blocks[b])
    ensures LastNotLater(blocks, main, b, k) == i > 0 ==> NotAfter(blocks[Ancestor(blocks, main, i)], blocks[b])
  {
    hide Ancestor, Forest;
    if i < k {
      LastNotLaterMax(blocks, main, b, k - 1, i);
    }
  }

  /** `m` is the highest block of the path of `main` that does not come after `b`. */
  ghost predicate Chosen(blocks: Blocks, main: Hash, b: Hash, m: Hash)
    requires Forest(blocks) && main in blocks && b in blocks
  {
    && m in blocks && blocks[m].height <= blocks[main].height && Ancestor(blocks, main, blocks[m].height) == m
    && NotAfter(blocks[m], blocks[b])
    && forall k: nat :: blocks[m].height < k <= blocks[main].height ==> !NotAfter(blocks[Ancestor(blocks, main, k)], blocks[b])
  }

  /** Some walk along parent and child links leads from `a` to `b` in at most `n` steps. */
  ghost predicate WithinHops(blocks: Blocks, a: Hash, b: Hash, n: nat) {
    exists path :: Walk(blocks, path) && path[0] == a && path[|path| - 1] == b && |path| - 1 <= n
  }

  ghost predicate Connected(blocks: Blocks, a: Hash, b: Hash) {
    exists path :: Walk(blocks, path) && path[0] == a && path[|path| - 1] == b
  }

  ghost predicate HeightsWithin(a: Header, b: Header, n: nat) {
    a.height <= b.height + n && b.height <= a.height + n
  }

  /** The verdict in terms of walks. */
  lemma {:induction false} VerdictWalks(blocks: Blocks, b: Hash, m: Hash, greedy: nat)
    requires Forest(blocks) && b in blocks && m in blocks
    ensures GreedyVerdict(blocks, b, m, greedy) == Ok(true) <==>
            HeightsWithin(blocks[b], blocks[m], greedy) && WithinHops(blocks, b, m, greedy + 1)
    ensures GreedyVerdict(blocks, b, m, greedy).Err? <==> HeightsWithin(blocks[b], blocks[m], greedy) && !Connected(blocks, b, m)
  {
    hide Ancestor, Forest, Distance, Neighbour;
    if SameRoot(blocks, b, m) {
      var shortest := ShortestWalk(blocks, b, m);
      assert Connected(blocks, b, m);
      assert Distance(blocks, b, m) <= greedy + 1 ==> WithinHops(blocks, b, m, greedy + 1);
    }
    forall path | Walk(blocks, path) && path[0] == b && path[|path| - 1] == m
      ensures SameRoot(blocks, b, m) && |path| - 1 >= Distance(blocks, b, m)
    {
      WalkLength(blocks, path);
    }
  }

  lemma {:induction false} VerdictErrors(blocks: Blocks, b: Hash, m: Hash, greedy: nat)
    requires Forest(blocks) && b in blocks && m in blocks
    ensures GreedyVerdict(blocks, b, m, greedy) != Err(NilBlock)
  {
  }

  /** Which block is chosen, and whether there is one. */
  lemma {:induction false} ChosenIs(blocks: Blocks, main: Hash, b: Hash, m: Hash)
    requires Forest(blocks) && main in blocks && b in blocks
    requires m == Ancestor(blocks, main, LastNotLater(blocks, main, b, blocks[main].height))
    ensures if Later(blocks, m, b) then forall n :: !Chosen(blocks, main, b, n) else forall n :: Chosen(blocks, main, b, n) <==> n == m
  {
    hide Ancestor, Forest, LastNotLater;
    var h := blocks[main].height;
    forall i: nat | i <= h
      ensures LastNotLater(blocks, main, b, h) < i ==> !NotAfter(blocks[Ancestor(blocks, main, i)], blocks[b])
    {
      LastNotLaterMax(blocks, main, b, h, i);
    }
    assert Later(blocks, m, b) <==> !NotAfter(blocks[m], blocks[b]);
    var j := LastNotLater(blocks, main, b, h);
    LastNotLaterMax(blocks, main, b, h, j);
  }

  /** At most `greedy` apart in height and `greedy + 1` apart in hops. */
  ghost function GreedyVerdict(blocks: Blocks, b: Hash, m: Hash, greedy: nat): Result<bool, GreedyError>
    requires Forest(blocks) && b in blocks && m in blocks
  {
    var h, g := blocks[b].height, blocks[m].height;
    if h > g + greedy || g > h + greedy then Ok(false)
    else if !SameRoot(blocks, b, m) then Err(MoreThanOneGenesis)
    else Ok(Distance(blocks, b, m) <= greedy + 1)
  }

  lemma {:induction false} RootParent(blocks: Blocks, b: Hash)
    requires Forest(blocks) && b in blocks
    ensures blocks[b].parentFull in blocks <==> blocks[b].height > 0
  {
  }

  lemma {:induction false} NotAbove(blocks: Blocks, a: Hash, b: Hash, limit: nat)
    requires Forest(blocks) && a in blocks && b in blocks && limit <= Min(blocks[a].height, blocks[b].height)
    requires Ancestor(blocks, a, limit) != Ancestor(blocks, b, limit)
    ensures SameRoot(blocks, a, b) ==> ForkHeight(blocks, a, b) < limit
  {
    hide Ancestor, Forest, SameRoot;
    if SameRoot(blocks, a, b) {
      ForkMax(blocks, a, b, limit);
    }
  }

  class Chain {
    var blocks: Blocks
    var childs: map<Hash, seq<Hash>>

    ghost predicate Valid()
      reads this
    {
      Forest(blocks) && IndexOk(blocks, childs)
    }

    /** `insertBlockIntoDB`: store a block below a stored parent, and index it there. */
    method InsertBlock(hash: Hash, header: Header)
      requires Valid() && (hash !in blocks ==> Rooted(blocks, header) && header.parentFull != hash)
      requires hash !in blocks ==> forall b :: b in blocks ==> blocks[b].parentFull != hash
      modifies this
      ensures Valid()
      ensures blocks == if hash in old(blocks) then old(blocks) else old(blocks)[hash := header]
    {
      if hash in blocks {
        return;
      }
      InsertForest(blocks, hash, header);
      InsertIndex(blocks, childs, hash, header);
      blocks := blocks[hash := header];
      var list := if header.parentFull in childs then childs[header.parentFull] else [];
      childs := childs[header.parentFull := list + [hash]];
    }

    /** `GetHopCount`: climb to the same height, then together to the common ancestor. */
    method GetHopCount(block1: Hash, block2: Hash) returns (r: Result<nat, GreedyError>)
      requires Forest(blocks) && block1 in blocks && block2 in blocks
      ensures r == if SameRoot(blocks, block1, block2) then Ok(Distance(blocks, block1, block2)) else Err(MoreThanOneGenesis)
    {
      hide Ancestor, Forest, Distance;
      SelfAncestor(blocks, block1);
      SelfAncestor(blocks, block2);
      var b1, b2, h1, h2, hops := block1, block2, blocks[block1].height, blocks[block2].height, 0;
      while h1 > h2
        invariant b1 in blocks && blocks[b1].height == h1 && h1 <= blocks[block1].height && b1 == Ancestor(blocks, block1, h1)
        invariant hops == blocks[block1].height - h1 && (h1 == blocks[block1].height || h1 >= h2)
      {
        Climb(blocks, block1, h1);
        b1, h1, hops := blocks[b1].parentFull, h1 - 1, hops + 1;
      }
      while h2 > h1
        invariant b2 in blocks && blocks[b2].height == h2 && h2 <= blocks[block2].height && b2 == Ancestor(blocks, block2, h2)
        invariant hops == blocks[block1].height - h1 + blocks[block2].height - h2 && h2 >= h1
      {
        Climb(blocks, block2, h2);
        b2, h2, hops := blocks[b2].parentFull, h2 - 1, hops + 1;
      }
      while b1 != b2
        invariant 0 <= h1 == h2 <= Min(blocks[block1].height, blocks[block2].height)
        invariant b1 == Ancestor(blocks, block1, h1) && b2 == Ancestor(blocks, block2, h1)
        invariant hops == blocks[block1].height + blocks[block2].height - 2 * h1
        invariant h1 < Min(blocks[block1].height, blocks[block2].height) ==> Ancestor(blocks, block1, h1 + 1) != Ancestor(blocks, block2, h1 + 1)
        decreases h1
      {
        if h1 == 0 {
          return Err(MoreThanOneGenesis);
        }
        Climb(blocks, block1, h1);
        Climb(blocks, block2, h1);
        b1, h1, b2, h2, hops := blocks[b1].parentFull, h1 - 1, blocks[b2].parentFull, h2 - 1, hops + 2;
      }
      MetAt(blocks, block1, block2, h1);
      return Ok(hops);
    }

    /** `findCommonPrefixWithHeightLimit`: the lowest common ancestor, unless it lies below the limit. */
    method FindCommonPrefix(block1: Hash, block2: Hash, limit: nat) returns (r: Option<Hash>)
      requires Forest(blocks) && block1 in blocks && block2 in blocks
      ensures r.Some? <==> SameRoot(blocks, block1, block2) && limit <= ForkHeight(blocks, block1, block2)
      ensures r.Some? ==> r.value == Ancestor(blocks, block1, ForkHeight(blocks, block1, block2))
    {
      hide Ancestor, Forest, ForkHeight;
      var h1, h2 := blocks[block1].height, blocks[block2].height;
      if limit > h1 || limit > h2 {
        return None;
      }
      var b1 := ClimbTo(block1, if h1 < h2 then h1 else h2);
      var b2 := ClimbTo(block2, if h1 < h2 then h1 else h2);
      h1 := if h1 < h2 then h1 else h2;
      while b1 != b2
        invariant limit <= h1 <= Min(blocks[block1].height, blocks[block2].height)
        invariant b1 == Ancestor(blocks, block1, h1) && b2 == Ancestor(blocks, block2, h1)
        invariant h1 < Min(blocks[block1].height, blocks[block2].height) ==> Ancestor(blocks, block1, h1 + 1) != Ancestor(blocks, block2, h1 + 1)
        decreases h1
      {
        if h1 == limit {
          NotAbove(blocks, block1, block2, limit);
          return None;
        }
        Climb(blocks, block1, h1);
        Climb(blocks, block2, h1);
        b1, b2, h1 := blocks[b1].parentFull, blocks[b2].parentFull, h1 - 1;
      }
      MetAt(blocks, block1, block2, h1);
      return Some(b1);
    }

    /** Follow parents down to height `k`. */
    method ClimbTo(block: Hash, k: nat) returns (b: Hash)
      requires Forest(blocks) && block in blocks && k <= blocks[block].height
      ensures b == Ancestor(blocks, block, k)
    {
      hide Ancestor, Forest;
      SelfAncestor(blocks, block);
      b := block;
      var h := blocks[block].height;
      while h > k
        invariant k <= h <= blocks[block].height && b == Ancestor(blocks, block, h)
      {
        Climb(blocks, block, h);
        b, h := blocks[b].parentFull, h - 1;
      }
    }

    /** `CheckGreedy`: measure against the last main-branch block that does not come after `block`. */
    method CheckGreedy(block: Hash, main: Hash, greedy: nat) returns (r: Result<bool, GreedyError>)
      requires Forest(blocks) && block in blocks && main in blocks
      ensures r == Err(NilBlock) <==> forall m :: !Chosen(blocks, main, block, m)
      ensures forall m :: Chosen(blocks, main, block, m) ==>
                && (r == Ok(true) <==> HeightsWithin(blocks[block], blocks[m], greedy) && WithinHops(blocks, block, m, greedy + 1))
                && (r.Err? <==> HeightsWithin(blocks[block], blocks[m], greedy) && !Connected(blocks, block, m))
    {
      hide WithinHops, Connected, HeightsWithin, Later, GreedyVerdict, Ancestor, Forest, LastNotLater, NotAfter;
      ghost var n := Ancestor(blocks, main, LastNotLater(blocks, main, block, blocks[main].height));
      r := Judge(block, main, greedy);
      ChosenIs(blocks, main, block, n);
      VerdictWalks(blocks, block, n, greedy);
      VerdictErrors(blocks, block, n, greedy);
      assert Later(blocks, n, block) || Chosen(blocks, main, block, n);
    }

    /** Its loop and its comparisons. */
    method Judge(block: Hash, main: Hash, greedy: nat) returns (r: Result<bool, GreedyError>)
      requires Forest(blocks) && block in blocks && main in blocks
      ensures var m := Ancestor(blocks, main, LastNotLater(blocks, main, block, blocks[main].height));
              r == if Later(blocks, m, block) then Err(NilBlock) else GreedyVerdict(blocks, block, m, greedy)
    {
      hide Ancestor, Forest, SameRoot, Distance;
      SelfAncestor(blocks, main);
      var m := main;
      ghost var k: nat := blocks[main].height;
      while LaterThan(blocks[m], blocks[block])
        invariant k <= blocks[main].height && m == Ancestor(blocks, main, k)
        invariant LastNotLater(blocks, main, block, blocks[main].height) == LastNotLater(blocks, main, block, k)
        decreases k
      {
        RootParent(blocks, m);
        if blocks[m].parentFull !in blocks {
          return Err(NilBlock);
        }
        Climb(blocks, main, k);
        m := blocks[m].parentFull;
        k := k - 1;
      }
      var h, g := blocks[block].height, blocks[m].height;
      var diff := if h < g then g - h else h - g;
      if diff > greedy {
        return Ok(false);
      }
      var hops := GetHopCount(block, m);
      if hops.Err? {
        return Err(hops.error);
      }
      return Ok(hops.value <= greedy + 1);
    }

    /** `GetGreedyBlocks`: breadth first from the head, `greedy` layers deep. */
    method GetGreedyBlocks(head: Hash, greedy: nat) returns (found: seq<Hash>)
      requires Valid() && head in blocks
      ensures Found(blocks, head, found, greedy)
    {
      hide Found, Layer, Growing;
      var visited := {head};
      var current := [head];
      found := [head];
      FirstLayer(blocks, head);
      for n := 0 to greedy
        invariant Found(blocks, head, found, n) && Layer(blocks, head, current, n) && visited == Members(found)
      {
        found, current, visited := Expand(head, current, found, n);
      }
    }

    /** One layer: the unseen parents and children of the current blocks. */
    method Expand(head: Hash, current: seq<Hash>, start: seq<Hash>, ghost n: nat)
      returns (found: seq<Hash>, next: seq<Hash>, visited: set<Hash>)
      requires Valid() && head in blocks && Found(blocks, head, start, n) && Layer(blocks, head, current, n)
      ensures Found(blocks, head, found, n + 1) && Layer(blocks, head, next, n + 1) && visited == Members(found)
    {
      hide Found, Growing, Distance, SameRoot, Neighbour, Distinct;
      found, next, visited := start, [], set h | h in start;
      StartLayer(blocks, head, start, n);
      for i := 0 to |current|
        invariant Growing(blocks, head, found, next, n) && visited == Members(found)
        invariant forall j, x :: 0 <= j < i && Neighbour(blocks, current[j], x) ==> x in found
      {
        var cur := current[i];
        assert cur in current;
        var extra := NewNeighbours(cur, visited);
        Grow(blocks, head, found, next, n, cur, extra);
        found, next, visited := found + extra, next + extra, visited + set h | h in extra;
      }
      LayerDone(blocks, head, found, next, n, current);
    }

    /** The neighbours of a block that have not been visited: its parent, then its children. */
    method NewNeighbours(cur: Hash, visited: set<Hash>) returns (extra: seq<Hash>)
      requires Valid() && cur in blocks
      ensures Distinct(extra) && forall x :: x in extra <==> Neighbour(blocks, cur, x) && x !in visited
    {
      extra := [];
      var seen := visited;
      var parent := blocks[cur].parentFull;
      if parent in blocks && parent !in seen {
        seen := seen + {parent};
        extra := [parent];
      }
      var list := if cur in childs then childs[cur] else [];
      for i := 0 to |list|
        invariant Distinct(extra) && seen == visited + Members(extra)
        invariant forall x :: x in extra <==> x !in visited && ((x == parent && parent in blocks) || x in list[..i])
      {
        var child := list[i];
        assert list[..i + 1] == list[..i] + [child];
        if child !in seen {
          seen := seen + {child};
          extra := extra + [child];
        }
      }
      assert list[..|list|] == list;
      assert forall x :: x in list <==> Listed(childs, cur, x);
    }
  }

  lemma {:induction false} InsertForest(blocks: Blocks, hash: Hash, header: Header)
    requires Forest(blocks) && hash !in blocks && Rooted(blocks, header) && header.parentFull != hash
    requires forall b :: b in blocks ==> blocks[b].parentFull != hash
    ensures Forest(blocks[hash := header])
  {
  }

  lemma {:induction false} InsertIndex(blocks: Blocks, childs: map<Hash, seq<Hash>>, hash: Hash, header: Header)
    requires IndexOk(blocks, childs) && hash !in blocks
    ensures var p := header.parentFull;
            IndexOk(blocks[hash := header], childs[p := (if p in childs then childs[p] else []) + [hash]])
  {
    var p := header.parentFull;
    var list := if p in childs then childs[p] else [];
    var c, b := childs[p := list + [hash]], blocks[hash := header];
    assert !Listed(childs, p, hash);
    forall q, x
      ensures Listed(c, q, x) <==> x in b && b[x].parentFull == q
    {
      assert Listed(childs, q, x) <==> x in blocks && blocks[x].parentFull == q;
    }
  }

  lemma {:induction false} Climb(blocks: Blocks, b: Hash, k: nat)
    requires Forest(blocks) && b in blocks && 0 < k <= blocks[b].height
    ensures var p := blocks[Ancestor(blocks, b, k)].parentFull;
            p in blocks && blocks[p].height == k - 1 && p == Ancestor(blocks, b, k - 1)
  {
    var a := Ancestor(blocks, b, k);
    AncestorCompose(blocks, b, k, k - 1);
    ParentAncestor(blocks, a, k - 1);
    SelfAncestor(blocks, blocks[a].parentFull);
  }

  lemma {:induction false} MetAt(blocks: Blocks, a: Hash, b: Hash, k: nat)
    requires Forest(blocks) && a in blocks && b in blocks && k <= Min(blocks[a].height, blocks[b].height)
    requires Ancestor(blocks, a, k) == Ancestor(blocks, b, k)
    requires k < Min(blocks[a].height, blocks[b].height) ==> Ancestor(blocks, a, k + 1) != Ancestor(blocks, b, k + 1)
    ensures SameRoot(blocks, a, b) && ForkHeight(blocks, a, b) == k
    ensures Distance(blocks, a, b) == blocks[a].height + blocks[b].height - 2 * k
  {
    hide Ancestor, Forest;
    AncestorCompose(blocks, a, k, 0);
    AncestorCompose(blocks, b, k, 0);
    ForkMax(blocks, a, b, k);
    if k < Min(blocks[a].height, blocks[b].height) {
      ForkMax(blocks, a, b, k + 1);
    }
  }
}
