/**
 * The main-branch index: which block of each height lies below the best executed block
 * (chain/main_branch_record.go, with the reorg search of core/dbaccessor/accessor_block.go).
 *
 * Blocks delivered by fast sync take another path in the source and are not modelled.
 */
module MainBranch {
  import opened Common
  import opened HashSeqs
  import opened BlockTree
  import opened Greedy

  /** `IsReOrg`: higher, or as high with a lower round, or a lower simple hash. */
  predicate IsReOrg(b: Header, head: Header) {
    if b.height < head.height then false
    else if b.height == head.height then
      b.round < head.round || (b.round == head.round && b.simple < head.simple)
    else true
  }

  /**
   * What holds of the simple hashes of stored blocks: a header names the simple hash of its parent, the simple hash
   * covers that name and the round, and the genesis names no stored block. Different blocks may share a simple hash.
   */
  ghost predicate NamesOk(blocks: Blocks, genesis: Hash) {
    && (forall b :: b in blocks && blocks[b].parentFull in blocks ==> blocks[b].parentSimple == blocks[blocks[b].parentFull].simple)
    && (forall a, b :: a in blocks && b in blocks && blocks[a].simple == blocks[b].simple ==>
          blocks[a].parentSimple == blocks[b].parentSimple && blocks[a].round == blocks[b].round)
    && (genesis in blocks ==> forall b :: b in blocks ==> blocks[b].simple != blocks[genesis].parentSimple)
  }

  /** Blocks that share a simple hash are equally high. */
  lemma {:induction false} TwinHeight(blocks: Blocks, genesis: Hash, a: Hash, b: Hash)
    requires SingleGenesis(blocks, genesis) && NamesOk(blocks, genesis) && a in blocks && b in blocks
    requires blocks[a].simple == blocks[b].simple
    ensures blocks[a].height == blocks[b].height
    decreases blocks[a].height
  {
    assert Rooted(blocks, blocks[a]) && Rooted(blocks, blocks[b]);
    if a != genesis && b != genesis {
      TwinHeight(blocks, genesis, blocks[a].parentFull, blocks[b].parentFull);
    }
  }

  /** No block of `seen` beats `best`. */
  ghost predicate NoBetter(blocks: Blocks, seen: set<Hash>, best: Hash) {
    best in seen && seen <= blocks.Keys && forall s :: s in seen ==> !IsReOrg(blocks[s], blocks[best])
  }

  /** `head` is among the highest blocks of `seen`, of those among the ones of the lowest round, and of those one of the
      lowest simple hash. */
  ghost predicate Foremost(blocks: Blocks, seen: set<Hash>, head: Hash) {
    && head in seen && seen <= blocks.Keys
    && forall s :: s in seen ==>
         && blocks[s].height <= blocks[head].height
         && (blocks[s].height == blocks[head].height ==> blocks[head].round <= blocks[s].round)
         && (blocks[s].height == blocks[head].height && blocks[s].round == blocks[head].round ==> blocks[head].simple <= blocks[s].simple)
  }

  /** Two blocks are as good as each other exactly if height, round and simple hash are the same. */
  ghost predicate Ties(a: Header, b: Header) {
    a.height == b.height && a.round == b.round && a.simple == b.simple
  }

  /** The unbeaten blocks are the foremost ones, and the best one is foremost with no second of the same rank. */
  lemma {:induction false} ForemostIff(blocks: Blocks, seen: set<Hash>, head: Hash)
    ensures NoBetter(blocks, seen, head) <==> Foremost(blocks, seen, head)
    ensures Best(blocks, seen, head) <==>
            Foremost(blocks, seen, head) && forall s :: s in seen && s != head ==> !Ties(blocks[s], blocks[head])
  {
  }

  /** `best` beats every other block of `seen`. */
  ghost predicate Best(blocks: Blocks, seen: set<Hash>, best: Hash) {
    && best in seen && seen <= blocks.Keys
    && forall s :: s in seen && s != best ==> IsReOrg(blocks[best], blocks[s])
  }

  /** Comparing with the head alone keeps a block that nothing seen beats. */
  lemma {:induction false} BestNext(blocks: Blocks, seen: set<Hash>, head: Hash, b: Hash)
    requires NoBetter(blocks, seen, head) && b in blocks
    ensures NoBetter(blocks, seen + {b}, if IsReOrg(blocks[b], blocks[head]) then b else head)
  {
  }

  /** One unbeaten block is the best one, unless another ties with it in height, round and simple hash. */
  lemma {:induction false} BestUnique(blocks: Blocks, seen: set<Hash>, a: Hash, b: Hash)
    requires Best(blocks, seen, a) && NoBetter(blocks, seen, b)
    ensures a == b
  {
  }

  lemma {:induction false} BestIff(blocks: Blocks, seen: set<Hash>, a: Hash)
    requires NoBetter(blocks, seen, a)
    ensures Best(blocks, seen, a) <==> forall b :: NoBetter(blocks, seen, b) ==> b == a
  {
    if forall b :: NoBetter(blocks, seen, b) ==> b == a {
      forall s | s in seen && s != a
        ensures IsReOrg(blocks[a], blocks[s])
      {
        assert !NoBetter(blocks, seen, s);
      }
    }
  }

  /** The height map is the ancestor path of `head`, and nothing else. */
  ghost predicate IsPathOf(blocks: Blocks, head: Hash, heights: map<nat, Hash>)
    requires Forest(blocks) && head in blocks
  {
    Spans(blocks, head, heights) && forall k: nat :: k in heights ==> heights[k] == Ancestor(blocks, head, k)
  }

  /** The height map has an entry up to the height of the head. */
  ghost predicate Spans(blocks: Blocks, head: Hash, heights: map<nat, Hash>)
    requires head in blocks
  {
    forall k: nat :: k in heights <==> k <= blocks[head].height
  }

  // ---------------------------------------------------------------- the reorg chain

  /** `r` is `top` and its ancestors down to height `k`, topmost first. */
  ghost predicate IsDown(blocks: Blocks, top: Hash, k: nat, r: seq<Hash>)
    requires Forest(blocks) && top in blocks && k <= blocks[top].height
  {
    |r| == blocks[top].height - k + 1 && forall i :: 0 <= i < |r| ==> r[i] == Ancestor(blocks, top, blocks[top].height - i)
  }

  /** `r` is the path of `top` from height `k` upwards. */
  ghost predicate IsUp(blocks: Blocks, top: Hash, k: nat, r: seq<Hash>)
    requires Forest(blocks) && top in blocks && k <= blocks[top].height
  {
    |r| == blocks[top].height - k + 1 && forall i :: 0 <= i < |r| ==> r[i] == Ancestor(blocks, top, k + i)
  }

  /**
   * `FindReorgChain`: the path of the new head from its lowest common ancestor with the old one, that block included;
   * nothing if the old head is higher or the two have no common ancestor.
   */
  method FindReorgChain(blocks: Blocks, oldHead: Hash, newHead: Hash) returns (reorg: seq<Hash>)
    requires Forest(blocks) && oldHead in blocks && newHead in blocks
    ensures if blocks[oldHead].height > blocks[newHead].height || !SameRoot(blocks, oldHead, newHead) then reorg == []
            else IsUp(blocks, newHead, ForkHeight(blocks, oldHead, newHead), reorg)
  {
    hide Ancestor, Forest, ForkHeight, IsUp;
    if blocks[oldHead].height > blocks[newHead].height {
      return [];
    }
    reorg := [newHead];
    var top, bottom := newHead, oldHead;
    ghost var k: nat := blocks[newHead].height;
    SelfAncestor(blocks, newHead);
    SelfAncestor(blocks, oldHead);
    while blocks[oldHead].height < blocks[top].height
      invariant blocks[oldHead].height <= k <= blocks[newHead].height && top == Ancestor(blocks, newHead, k) && IsDown(blocks, newHead, k, reorg)
      decreases k
    {
      Climb(blocks, newHead, k);
      top := blocks[top].parentFull;
      reorg := reorg + [top];
      k := k - 1;
    }
    while bottom != top
      invariant k <= Min(blocks[oldHead].height, blocks[newHead].height)
      invariant top == Ancestor(blocks, newHead, k) && bottom == Ancestor(blocks, oldHead, k) && IsDown(blocks, newHead, k, reorg)
      invariant k < Min(blocks[oldHead].height, blocks[newHead].height) ==> Ancestor(blocks, oldHead, k + 1) != Ancestor(blocks, newHead, k + 1)
      decreases k
    {
      RootParent(blocks, bottom);
      if blocks[bottom].parentFull !in blocks {
        return [];
      }
      Climb(blocks, oldHead, k);
      Climb(blocks, newHead, k);
      bottom := blocks[bottom].parentFull;
      top := blocks[top].parentFull;
      reorg := reorg + [top];
      k := k - 1;
    }
    MetAt(blocks, oldHead, newHead, k);
    ghost var down := reorg;
    reorg := Reverse(reorg);
    DownUp(blocks, newHead, k, down, reorg);
  }

  /** Swap from both ends. */
  method Reverse(s: seq<Hash>) returns (r: seq<Hash>)
    ensures |r| == |s| && forall i :: 0 <= i < |s| ==> r[i] == s[|s| - 1 - i]
  {
    r := s;
    var i, j := 0, |s| - 1;
    while i < j
      invariant 0 <= i <= j + 1 && i + j == |s| - 1 && |r| == |s|
      invariant forall k :: 0 <= k < i ==> r[k] == s[|s| - 1 - k] && r[|s| - 1 - k] == s[k]
      invariant forall k :: i <= k <= j ==> r[k] == s[k]
      decreases j - i
    {
      r := r[i := r[j]][j := r[i]];
      i, j := i + 1, j - 1;
    }
    assert forall k :: 0 <= k < |s| ==> r[k] == s[|s| - 1 - k] by {
      forall k | 0 <= k < |s|
        ensures r[k] == s[|s| - 1 - k]
      {
        if k >= i {
          var m := |s| - 1 - k;
          assert m < i || m == k;
        }
      }
    }
  }

  lemma {:induction false} DownUp(blocks: Blocks, top: Hash, k: nat, d: seq<Hash>, u: seq<Hash>)
    requires Forest(blocks) && top in blocks && k <= blocks[top].height && IsDown(blocks, top, k, d)
    requires |u| == |d| && forall i :: 0 <= i < |u| ==> u[i] == d[|d| - 1 - i]
    ensures IsUp(blocks, top, k, u)
  {
    hide Ancestor;
  }

  // ---------------------------------------------------------------- the index, event by event

  datatype Index = Index(head: Hash, heights: map<nat, Hash>)

  ghost function Fresh(genesis: Hash): Index {
    Index(genesis, map[0 := genesis])
  }

  /** The heights above `f` get the path of `b`, the others keep what they held. */
  ghost function Rewritten(blocks: Blocks, heights: map<nat, Hash>, b: Hash, f: nat): map<nat, Hash>
    requires Forest(blocks) && b in blocks && f <= blocks[b].height
  {
    map k | k in heights.Keys + Above(f, blocks[b].height) :: if f < k <= blocks[b].height then Ancestor(blocks, b, k) else heights[k]
  }

  ghost function Above(f: nat, t: nat): (r: set<nat>)
    ensures forall k :: k in r <==> f < k <= t
  {
    if t <= f then {} else Above(f, t - 1) + {t}
  }

  /** One executed block: the head's own line grows, by simple hash, or a better block switches the branch. */
  ghost function Step(blocks: Blocks, genesis: Hash, i: Index, b: Hash): (r: Index)
    requires SingleGenesis(blocks, genesis) && i.head in blocks && b in blocks
    ensures r.head in blocks
  {
    Facts(blocks, genesis, i.head, b);
    if blocks[i.head].simple == blocks[b].parentSimple then Index(b, i.heights[blocks[b].height := b])
    else if IsReOrg(blocks[b], blocks[i.head]) then Index(b, Rewritten(blocks, i.heights, b, ForkHeight(blocks, i.head, b)))
    else i
  }

  ghost function Run(blocks: Blocks, genesis: Hash, i: Index, xs: seq<Hash>): (r: Index)
    requires SingleGenesis(blocks, genesis) && i.head in blocks && forall x :: x in xs ==> x in blocks
    ensures r.head in blocks
  {
    if xs == [] then i else Step(blocks, genesis, Run(blocks, genesis, i, xs[..|xs| - 1]), xs[|xs| - 1])
  }

  lemma {:induction false} Facts(blocks: Blocks, genesis: Hash, head: Hash, b: Hash)
    requires SingleGenesis(blocks, genesis) && head in blocks && b in blocks
    ensures Forest(blocks) && SameRoot(blocks, head, b)
  {
  }

  /** The line of the head grows with a block whose parent only shares the head's simple hash. */
  ghost predicate Clash(blocks: Blocks, head: Hash, b: Hash)
    requires head in blocks && b in blocks
  {
    blocks[head].simple == blocks[b].parentSimple && blocks[b].parentFull != head
  }

  /** Growing by simple hash goes one up. */
  lemma {:induction false} Grows(blocks: Blocks, genesis: Hash, head: Hash, b: Hash)
    requires SingleGenesis(blocks, genesis) && NamesOk(blocks, genesis) && head in blocks && b in blocks
    requires blocks[head].simple == blocks[b].parentSimple
    ensures b != genesis && blocks[b].height == blocks[head].height + 1 && blocks[b].parentFull in blocks
    ensures blocks[blocks[b].parentFull].height == blocks[head].height
    ensures forall k: nat :: k <= blocks[head].height ==> Ancestor(blocks, b, k) == Ancestor(blocks, blocks[b].parentFull, k)
  {
    assert Rooted(blocks, blocks[b]);
    assert b != genesis;
    TwinHeight(blocks, genesis, head, blocks[b].parentFull);
  }

  /** The head after an event: the better one of the two. */
  lemma {:induction false} StepHead(blocks: Blocks, genesis: Hash, i: Index, b: Hash)
    requires SingleGenesis(blocks, genesis) && NamesOk(blocks, genesis) && i.head in blocks && b in blocks && Spans(blocks, i.head, i.heights)
    ensures Step(blocks, genesis, i, b).head == if IsReOrg(blocks[b], blocks[i.head]) then b else i.head
    ensures !IsReOrg(blocks[b], blocks[i.head]) ==> Step(blocks, genesis, i, b) == i
    ensures Spans(blocks, Step(blocks, genesis, i, b).head, Step(blocks, genesis, i, b).heights)
  {
    hide Ancestor, ForkHeight, SingleGenesis, NamesOk;
    Facts(blocks, genesis, i.head, b);
    if blocks[i.head].simple == blocks[b].parentSimple {
      Grows(blocks, genesis, i.head, b);
    }
  }

  /** The head is not exchanged for one as good. */
  lemma {:induction false} MoveUp(blocks: Blocks, head: Hash, b: Hash)
    requires head in blocks && b in blocks
    ensures IsReOrg(blocks[b], blocks[head]) ==> !Ties(blocks[head], blocks[b])
  {
  }

  /** The entry at `k` after an event that moves the head: below the fork what it was, above it right. */
  lemma {:induction false} StepEntry(blocks: Blocks, genesis: Hash, i: Index, b: Hash, k: nat)
    requires SingleGenesis(blocks, genesis) && NamesOk(blocks, genesis) && i.head in blocks && b in blocks && Spans(blocks, i.head, i.heights)
    requires IsReOrg(blocks[b], blocks[i.head]) && k <= blocks[b].height
    ensures var n := Step(blocks, genesis, i, b).heights;
            k in n &&
            if k <= blocks[i.head].height && (k <= ForkHeight(blocks, i.head, b) || blocks[i.head].simple == blocks[b].parentSimple)
            then n[k] == i.heights[k] else n[k] == Ancestor(blocks, b, k)
  {
    hide ForkHeight, NamesOk;
    Facts(blocks, genesis, i.head, b);
    if blocks[i.head].simple == blocks[b].parentSimple {
      Grows(blocks, genesis, i.head, b);
    }
  }

  /** From a path, an event leads to the path of the new head if and only if it is no clash. */
  lemma {:induction false} StepPath(blocks: Blocks, genesis: Hash, i: Index, b: Hash)
    requires SingleGenesis(blocks, genesis) && NamesOk(blocks, genesis) && i.head in blocks && b in blocks && IsPathOf(blocks, i.head, i.heights)
    ensures var n := Step(blocks, genesis, i, b); IsPathOf(blocks, n.head, n.heights) <==> !Clash(blocks, i.head, b)
  {
    hide Ancestor, ForkHeight, NamesOk, Step;
    var n := Step(blocks, genesis, i, b);
    StepHead(blocks, genesis, i, b);
    Facts(blocks, genesis, i.head, b);
    if blocks[i.head].simple == blocks[b].parentSimple {
      Grows(blocks, genesis, i.head, b);
    }
    if IsReOrg(blocks[b], blocks[i.head]) {
      if Clash(blocks, i.head, b) {
        var h := blocks[i.head].height;
        StepEntry(blocks, genesis, i, b, h);
        SelfAncestor(blocks, i.head);
        SelfAncestor(blocks, blocks[b].parentFull);
        assert n.heights[h] != Ancestor(blocks, b, h);
      } else {
        forall k: nat | k <= blocks[b].height
          ensures n.heights[k] == Ancestor(blocks, b, k)
        {
          StepEntry(blocks, genesis, i, b, k);
          if k <= blocks[i.head].height {
            ForkMax(blocks, i.head, b, k);
          }
        }
      }
    }
  }

  // ---------------------------------------------------------------- stale entries

  /** `t` and `e` clash, and the path of `e` leaves that of `t` at or below height `k`, but not that of `head`. */
  ghost predicate Explains(blocks: Blocks, t: Hash, e: Hash, head: Hash, k: nat)
    requires Forest(blocks) && t in blocks && e in blocks && head in blocks && k <= blocks[head].height
  {
    && Clash(blocks, t, e) && k <= blocks[t].height && k <= blocks[e].height
    && Ancestor(blocks, head, k) == Ancestor(blocks, e, k) != Ancestor(blocks, t, k)
  }

  /** Every entry is the head's ancestor, or comes from a clash of two seen blocks. */
  ghost predicate Explained(blocks: Blocks, seen: set<Hash>, i: Index)
    requires Forest(blocks) && i.head in blocks && seen <= blocks.Keys && Spans(blocks, i.head, i.heights)
  {
    forall k: nat :: k <= blocks[i.head].height ==> EntryOk(blocks, seen, i.head, i.heights[k], k)
  }

  ghost predicate EntryOk(blocks: Blocks, seen: set<Hash>, head: Hash, entry: Hash, k: nat)
    requires Forest(blocks) && head in blocks && seen <= blocks.Keys && k <= blocks[head].height
  {
    entry == Ancestor(blocks, head, k) || exists t, e :: t in seen && e in seen && Explains(blocks, t, e, head, k)
  }

  lemma {:induction false} EntryKept(blocks: Blocks, seen: set<Hash>, more: set<Hash>, head: Hash, b: Hash, entry: Hash, k: nat)
    requires Forest(blocks) && head in blocks && b in blocks && seen <= more <= blocks.Keys && k <= blocks[head].height && k <= blocks[b].height
    requires Ancestor(blocks, head, k) == Ancestor(blocks, b, k) && EntryOk(blocks, seen, head, entry, k)
    ensures EntryOk(blocks, more, b, entry, k)
  {
    hide Ancestor, Forest;
    if entry != Ancestor(blocks, head, k) {
      var t, e :| t in seen && e in seen && Explains(blocks, t, e, head, k);
      assert Explains(blocks, t, e, b, k);
    }
  }

  lemma {:induction false} StepExplained(blocks: Blocks, genesis: Hash, seen: set<Hash>, i: Index, b: Hash)
    requires SingleGenesis(blocks, genesis) && NamesOk(blocks, genesis) && i.head in blocks && b in blocks && Spans(blocks, i.head, i.heights)
    requires i.head in seen && seen <= blocks.Keys && Explained(blocks, seen, i)
    ensures var n := Step(blocks, genesis, i, b); Spans(blocks, n.head, n.heights) && Explained(blocks, seen + {b}, n)
  {
    hide Ancestor, ForkHeight, NamesOk, Step, EntryOk, SingleGenesis, Spans;
    var n := Step(blocks, genesis, i, b);
    StepHead(blocks, genesis, i, b);
    Facts(blocks, genesis, i.head, b);
    forall k: nat | k <= blocks[n.head].height
      ensures k in n.heights && EntryOk(blocks, seen + {b}, n.head, n.heights[k], k)
    {
      EntryNext(blocks, genesis, seen, i, b, k);
    }
  }

  lemma {:induction false} EntryNext(blocks: Blocks, genesis: Hash, seen: set<Hash>, i: Index, b: Hash, k: nat)
    requires SingleGenesis(blocks, genesis) && NamesOk(blocks, genesis) && i.head in blocks && b in blocks && Spans(blocks, i.head, i.heights)
    requires i.head in seen && seen <= blocks.Keys && Explained(blocks, seen, i) && k <= blocks[Step(blocks, genesis, i, b).head].height
    ensures var n := Step(blocks, genesis, i, b); k in n.heights && EntryOk(blocks, seen + {b}, n.head, n.heights[k], k)
  {
    hide Ancestor, ForkHeight, NamesOk, Step, EntryOk;
    StepHead(blocks, genesis, i, b);
    Facts(blocks, genesis, i.head, b);
    if !IsReOrg(blocks[b], blocks[i.head]) {
      EntryKept(blocks, seen, seen + {b}, i.head, i.head, i.heights[k], k);
    } else {
      StepEntry(blocks, genesis, i, b, k);
      if k <= blocks[i.head].height {
        ForkMax(blocks, i.head, b, k);
        if Ancestor(blocks, i.head, k) == Ancestor(blocks, b, k) {
          EntryKept(blocks, seen, seen + {b}, i.head, b, i.heights[k], k);
        } else if blocks[i.head].simple == blocks[b].parentSimple {
          ClashExplains(blocks, genesis, seen, i.head, b, i.heights[k], k);
        } else {
          RightEntry(blocks, seen + {b}, b, k);
        }
      } else {
        RightEntry(blocks, seen + {b}, b, k);
      }
    }
  }

  lemma {:induction false} RightEntry(blocks: Blocks, seen: set<Hash>, head: Hash, k: nat)
    requires Forest(blocks) && head in blocks && seen <= blocks.Keys && k <= blocks[head].height
    ensures EntryOk(blocks, seen, head, Ancestor(blocks, head, k), k)
  {
  }

  lemma {:induction false} ClashExplains(blocks: Blocks, genesis: Hash, seen: set<Hash>, head: Hash, b: Hash, entry: Hash, k: nat)
    requires SingleGenesis(blocks, genesis) && NamesOk(blocks, genesis) && head in seen && seen <= blocks.Keys && b in blocks
    requires blocks[head].simple == blocks[b].parentSimple && k <= blocks[head].height && k <= blocks[b].height
    requires Ancestor(blocks, head, k) != Ancestor(blocks, b, k)
    ensures EntryOk(blocks, seen + {b}, b, entry, k)
  {
    hide Ancestor, NamesOk;
    Grows(blocks, genesis, head, b);
    assert Explains(blocks, head, b, b, k);
  }

  // ---------------------------------------------------------------- whole runs

  /** What every run keeps: nothing seen beats the head, and stale entries come from clashes. */
  ghost predicate RecordOk(blocks: Blocks, seen: set<Hash>, i: Index)
    requires Forest(blocks)
  {
    && i.head in blocks && NoBetter(blocks, seen, i.head) && Spans(blocks, i.head, i.heights) && Explained(blocks, seen, i)
  }

  lemma {:induction false} StepOk(blocks: Blocks, genesis: Hash, seen: set<Hash>, i: Index, b: Hash)
    requires SingleGenesis(blocks, genesis) && NamesOk(blocks, genesis) && RecordOk(blocks, seen, i) && b in blocks
    ensures RecordOk(blocks, seen + {b}, Step(blocks, genesis, i, b))
  {
    hide Ancestor, NamesOk, Step, Explained;
    StepHead(blocks, genesis, i, b);
    BestNext(blocks, seen, i.head, b);
    StepExplained(blocks, genesis, seen, i, b);
  }

  lemma {:induction false} RunOk(blocks: Blocks, genesis: Hash, seen: set<Hash>, i: Index, xs: seq<Hash>)
    requires SingleGenesis(blocks, genesis) && NamesOk(blocks, genesis) && forall x :: x in xs ==> x in blocks
    requires i.head in blocks && RecordOk(blocks, seen, i)
    ensures RecordOk(blocks, seen + Members(xs), Run(blocks, genesis, i, xs))
  {
    hide RecordOk, NamesOk, Forest, Step;
    if xs == [] {
      assert seen + Members(xs) == seen;
    } else {
      var init, last := xs[..|xs| - 1], xs[|xs| - 1];
      RunOk(blocks, genesis, seen, i, init);
      StepOk(blocks, genesis, seen + Members(init), Run(blocks, genesis, i, init), last);
      assert seen + Members(xs) == seen + Members(init) + {last};
    }
  }

  lemma {:induction false} FreshOk(blocks: Blocks, genesis: Hash)
    requires SingleGenesis(blocks, genesis)
    ensures RecordOk(blocks, {genesis}, Fresh(genesis)) && IsPathOf(blocks, genesis, Fresh(genesis).heights)
  {
    assert Ancestor(blocks, genesis, 0) == genesis;
  }

  /** A clash whose stale entries `best` inherits: its path leaves that of `e` above the point where the path of `t` does. */
  ghost predicate Harmful(blocks: Blocks, genesis: Hash, t: Hash, e: Hash, best: Hash)
    requires SingleGenesis(blocks, genesis) && t in blocks && e in blocks && best in blocks
  {
    Facts(blocks, genesis, e, t);
    Facts(blocks, genesis, e, best);
    Clash(blocks, t, e) && ForkHeight(blocks, e, best) > ForkHeight(blocks, e, t)
  }

  ghost predicate NoneHarmful(blocks: Blocks, genesis: Hash, seen: set<Hash>, best: Hash)
    requires SingleGenesis(blocks, genesis) && best in blocks && seen <= blocks.Keys
  {
    forall t, e :: t in seen && e in seen ==> !Harmful(blocks, genesis, t, e, best)
  }

  /** Without a harmful clash the height map is the path of the head. */
  lemma {:induction false} HarmlessPath(blocks: Blocks, genesis: Hash, seen: set<Hash>, i: Index)
    requires SingleGenesis(blocks, genesis) && RecordOk(blocks, seen, i) && NoneHarmful(blocks, genesis, seen, i.head)
    ensures IsPathOf(blocks, i.head, i.heights)
  {
    hide Ancestor, ForkHeight, Forest;
    forall k: nat | k in i.heights
      ensures i.heights[k] == Ancestor(blocks, i.head, k)
    {
      assert EntryOk(blocks, seen, i.head, i.heights[k], k);
      if i.heights[k] != Ancestor(blocks, i.head, k) {
        var t, e :| t in seen && e in seen && Explains(blocks, t, e, i.head, k);
        ExplainedHarm(blocks, genesis, t, e, i.head, k);
      }
    }
  }

  lemma {:induction false} ExplainedHarm(blocks: Blocks, genesis: Hash, t: Hash, e: Hash, head: Hash, k: nat)
    requires SingleGenesis(blocks, genesis) && t in blocks && e in blocks && head in blocks && k <= blocks[head].height
    requires Explains(blocks, t, e, head, k)
    ensures Harmful(blocks, genesis, t, e, head)
  {
    hide Ancestor, ForkHeight;
    Facts(blocks, genesis, e, t);
    Facts(blocks, genesis, e, head);
    ForkMax(blocks, e, t, k);
    ForkMax(blocks, e, head, k);
  }

  lemma {:induction false} RunAppend(blocks: Blocks, genesis: Hash, i: Index, xs: seq<Hash>, x: Hash)
    requires SingleGenesis(blocks, genesis) && i.head in blocks && x in blocks && forall y :: y in xs ==> y in blocks
    ensures forall y :: y in xs + [x] ==> y in blocks
    ensures Run(blocks, genesis, i, xs + [x]) == Step(blocks, genesis, Run(blocks, genesis, i, xs), x)
  {
    hide Step, SingleGenesis;
    assert (xs + [x])[..|xs|] == xs;
  }

  /** Events of blocks that do not beat the head change nothing. */
  lemma {:induction false} RunStays(blocks: Blocks, genesis: Hash, i: Index, xs: seq<Hash>, ys: seq<Hash>)
    requires SingleGenesis(blocks, genesis) && NamesOk(blocks, genesis) && i.head in blocks && Spans(blocks, i.head, i.heights)
    requires (forall x :: x in xs ==> x in blocks) && forall y :: y in ys ==> y in blocks
    requires var m := Run(blocks, genesis, i, xs);
             Spans(blocks, m.head, m.heights) && forall y :: y in ys ==> !IsReOrg(blocks[y], blocks[m.head])
    ensures (forall y :: y in xs + ys ==> y in blocks) && Run(blocks, genesis, i, xs + ys) == Run(blocks, genesis, i, xs)
  {
    hide Step, SingleGenesis, NamesOk, Run, Spans;
    if ys == [] {
      assert xs + ys == xs;
    } else {
      var init, last := ys[..|ys| - 1], ys[|ys| - 1];
      assert last in ys;
      RunStays(blocks, genesis, i, xs, init);
      RunAppend(blocks, genesis, i, xs + init, last);
      assert xs + ys == xs + init + [last];
      StepHead(blocks, genesis, Run(blocks, genesis, i, xs), last);
    }
  }

  lemma {:induction false} RunTwo(blocks: Blocks, genesis: Hash, i: Index, a: Hash, b: Hash)
    requires SingleGenesis(blocks, genesis) && i.head in blocks && a in blocks && b in blocks
    ensures Run(blocks, genesis, i, [a]) == Step(blocks, genesis, i, a)
    ensures Run(blocks, genesis, i, [a, b]) == Step(blocks, genesis, Step(blocks, genesis, i, a), b)
  {
    hide Step, SingleGenesis;
    assert [a][..0] == [] && [a, b][..1] == [a];
  }

  /** A block first of all: it becomes the head, with its path. */
  lemma {:induction false} FirstEvent(blocks: Blocks, genesis: Hash, a: Hash)
    requires SingleGenesis(blocks, genesis) && NamesOk(blocks, genesis) && a in blocks
    ensures var n := Step(blocks, genesis, Fresh(genesis), a); n.head == a && IsPathOf(blocks, a, n.heights)
  {
    hide Ancestor, Step;
    FreshOk(blocks, genesis);
    StepHead(blocks, genesis, Fresh(genesis), a);
    StepPath(blocks, genesis, Fresh(genesis), a);
    if blocks[genesis].simple == blocks[a].parentSimple {
      Grows(blocks, genesis, genesis, a);
    }
  }

  /** The members of a set as a sequence of events. */
  lemma {:induction false} Listing(seen: set<Hash>) returns (xs: seq<Hash>)
    ensures Members(xs) == seen
  {
    xs := [];
    if x :| x in seen {
      var rest := Listing(seen - {x});
      xs := [x] + rest;
      assert Members(xs) == {x} + Members(rest);
    }
  }

  /** The entry at `k` is not the head's ancestor. */
  ghost predicate StaleAt(blocks: Blocks, i: Index, k: nat)
    requires Forest(blocks) && i.head in blocks
  {
    Spans(blocks, i.head, i.heights) && k <= blocks[i.head].height && i.heights[k] != Ancestor(blocks, i.head, k)
  }

  /** A clash leaves the entry just above the fork stale. */
  lemma {:induction false} StaleBy(blocks: Blocks, genesis: Hash, i: Index, e: Hash)
    requires SingleGenesis(blocks, genesis) && NamesOk(blocks, genesis) && i.head in blocks && e in blocks
    requires IsPathOf(blocks, i.head, i.heights) && Clash(blocks, i.head, e)
    ensures SameRoot(blocks, e, i.head)
    ensures var n := Step(blocks, genesis, i, e); n.head == e && StaleAt(blocks, n, ForkHeight(blocks, e, i.head) + 1)
  {
    hide Ancestor, ForkHeight, Step, NamesOk, Forest;
    var t := i.head;
    Facts(blocks, genesis, e, t);
    ClashFork(blocks, genesis, t, e);
    StepHead(blocks, genesis, i, e);
    var k := ForkHeight(blocks, e, t) + 1;
    ForkMax(blocks, e, t, k);
    StepEntry(blocks, genesis, i, e, k);
  }

  /** The paths of a clashing pair part below the lower block. */
  lemma {:induction false} ClashFork(blocks: Blocks, genesis: Hash, t: Hash, e: Hash)
    requires SingleGenesis(blocks, genesis) && NamesOk(blocks, genesis) && t in blocks && e in blocks
    requires Clash(blocks, t, e) && SameRoot(blocks, e, t)
    ensures blocks[e].height == blocks[t].height + 1 && ForkHeight(blocks, e, t) < blocks[t].height
  {
    hide Ancestor, ForkHeight, NamesOk;
    Grows(blocks, genesis, t, e);
    SelfAncestor(blocks, t);
    SelfAncestor(blocks, blocks[e].parentFull);
    ForkMax(blocks, e, t, blocks[t].height);
  }

  lemma {:induction false} StaleNoPath(blocks: Blocks, i: Index, k: nat)
    requires Forest(blocks) && i.head in blocks && StaleAt(blocks, i, k)
    ensures Spans(blocks, i.head, i.heights) && !IsPathOf(blocks, i.head, i.heights)
  {
  }

  /** A better block that leaves the head's path above a stale entry inherits it. */
  lemma {:induction false} StaleStays(blocks: Blocks, genesis: Hash, i: Index, b: Hash, k: nat)
    requires SingleGenesis(blocks, genesis) && NamesOk(blocks, genesis) && i.head in blocks && b in blocks
    requires StaleAt(blocks, i, k) && IsReOrg(blocks[b], blocks[i.head]) && SameRoot(blocks, i.head, b) && k <= ForkHeight(blocks, i.head, b)
    ensures var n := Step(blocks, genesis, i, b); n.head == b && StaleAt(blocks, n, k)
  {
    hide Ancestor, ForkHeight, Step, NamesOk;
    StepHead(blocks, genesis, i, b);
    StepEntry(blocks, genesis, i, b, k);
    ForkMax(blocks, i.head, b, k);
  }

  /** A harmful clash, delivered as `t`, `e`, `best`, leaves a stale entry under the best block. */
  lemma {:induction false} HarmRuns(blocks: Blocks, genesis: Hash, t: Hash, e: Hash, best: Hash) returns (xs: seq<Hash>)
    requires SingleGenesis(blocks, genesis) && NamesOk(blocks, genesis) && t in blocks && e in blocks && best in blocks
    requires Harmful(blocks, genesis, t, e, best) && (best == e || IsReOrg(blocks[best], blocks[e]))
    ensures Members(xs) == {t, e, best} && (forall x :: x in xs ==> x in blocks)
    ensures var n := Run(blocks, genesis, Fresh(genesis), xs);
            n.head == best && Spans(blocks, best, n.heights) && !IsPathOf(blocks, best, n.heights)
  {
    hide Ancestor, ForkHeight, Step, Run, NamesOk, IsReOrg, IsPathOf, StaleAt, Spans, Forest, Clash;
    var i := Fresh(genesis);
    var a := Step(blocks, genesis, i, t);
    FirstEvent(blocks, genesis, t);
    StaleBy(blocks, genesis, a, e);
    RunTwo(blocks, genesis, i, t, e);
    Facts(blocks, genesis, e, best);
    var k := ForkHeight(blocks, e, t) + 1;
    var b := Step(blocks, genesis, a, e);
    xs := [t, e];
    if best != e {
      RunAppend(blocks, genesis, i, xs, best);
      StaleStays(blocks, genesis, b, best, k);
      b := Step(blocks, genesis, b, best);
      xs := xs + [best];
    }
    StaleNoPath(blocks, b, k);
  }

  /** Delivered first, an unbeaten block stays the head of its own path. */
  lemma {:induction false} BestFirst(blocks: Blocks, genesis: Hash, seen: set<Hash>, best: Hash, rest: seq<Hash>)
    requires SingleGenesis(blocks, genesis) && NamesOk(blocks, genesis) && NoBetter(blocks, seen, best)
    requires forall x :: x in rest ==> x in seen
    ensures (forall x :: x in [best] + rest ==> x in blocks)
    ensures var n := Run(blocks, genesis, Fresh(genesis), [best] + rest); n.head == best && IsPathOf(blocks, best, n.heights)
  {
    hide Ancestor, Step, Run, NamesOk, IsReOrg;
    FreshOk(blocks, genesis);
    FirstEvent(blocks, genesis, best);
    RunTwo(blocks, genesis, Fresh(genesis), best, best);
    RunStays(blocks, genesis, Fresh(genesis), [best], rest);
  }

  /** `xs` tells of exactly the blocks of `seen`, in some order; of the genesis it need not. */
  ghost predicate Delivers(xs: seq<Hash>, genesis: Hash, seen: set<Hash>) {
    Members(xs) + {genesis} == seen
  }

  /** After any events, those of blocks that do not beat the head may follow until all of `seen` is delivered. */
  lemma {:induction false} FillUp(blocks: Blocks, genesis: Hash, seen: set<Hash>, xs: seq<Hash>) returns (ys: seq<Hash>)
    requires SingleGenesis(blocks, genesis) && NamesOk(blocks, genesis) && genesis in seen && Members(xs) <= seen && seen <= blocks.Keys
    requires forall x :: x in xs ==> x in blocks
    requires var n := Run(blocks, genesis, Fresh(genesis), xs); Spans(blocks, n.head, n.heights) && NoBetter(blocks, seen, n.head)
    ensures Delivers(ys, genesis, seen) && (forall y :: y in ys ==> y in blocks)
    ensures Run(blocks, genesis, Fresh(genesis), ys) == Run(blocks, genesis, Fresh(genesis), xs)
  {
    hide Ancestor, Step, Run, NamesOk, IsReOrg;
    var rest := Listing(seen);
    assert forall y :: y in rest ==> y in Members(rest);
    FreshOk(blocks, genesis);
    RunStays(blocks, genesis, Fresh(genesis), xs, rest);
    ys := xs + rest;
    assert Members(ys) == Members(xs) + Members(rest);
  }

  /** Every order of delivering the blocks of `seen` leads to the same index. */
  ghost predicate Confluent(blocks: Blocks, genesis: Hash, seen: set<Hash>)
    requires SingleGenesis(blocks, genesis) && seen <= blocks.Keys
  {
    forall xs, ys :: Delivers(xs, genesis, seen) && Delivers(ys, genesis, seen) ==>
      Outcome(blocks, genesis, xs) == Outcome(blocks, genesis, ys)
  }

  /** Every order of delivering the blocks of `seen` leads to the path of the head. */
  ghost predicate AlwaysPath(blocks: Blocks, genesis: Hash, seen: set<Hash>)
    requires SingleGenesis(blocks, genesis) && seen <= blocks.Keys
  {
    forall xs :: Delivers(xs, genesis, seen) ==> PathAt(blocks, Outcome(blocks, genesis, xs))
  }

  ghost predicate PathAt(blocks: Blocks, i: Index)
    requires Forest(blocks)
  {
    i.head in blocks && IsPathOf(blocks, i.head, i.heights)
  }

  /** The index after the events `xs` on a fresh record. */
  ghost function Outcome(blocks: Blocks, genesis: Hash, xs: seq<Hash>): Index
    requires SingleGenesis(blocks, genesis)
  {
    if forall x :: x in xs ==> x in blocks then Run(blocks, genesis, Fresh(genesis), xs) else Fresh(genesis)
  }

  lemma {:induction false} OutcomeOk(blocks: Blocks, genesis: Hash, seen: set<Hash>, xs: seq<Hash>)
    requires SingleGenesis(blocks, genesis) && NamesOk(blocks, genesis) && seen <= blocks.Keys && Delivers(xs, genesis, seen)
    ensures RecordOk(blocks, seen, Outcome(blocks, genesis, xs))
  {
    hide RecordOk, NamesOk, Forest, Run;
    assert forall x :: x in xs ==> x in Members(xs);
    FreshOk(blocks, genesis);
    RunOk(blocks, genesis, {genesis}, Fresh(genesis), xs);
    assert {genesis} + Members(xs) == seen;
  }

  /** The order that starts with an unbeaten block. */
  lemma {:induction false} BestOutcome(blocks: Blocks, genesis: Hash, seen: set<Hash>, best: Hash) returns (xs: seq<Hash>)
    requires SingleGenesis(blocks, genesis) && NamesOk(blocks, genesis) && genesis in seen && NoBetter(blocks, seen, best)
    ensures Delivers(xs, genesis, seen) && Outcome(blocks, genesis, xs).head == best && PathAt(blocks, Outcome(blocks, genesis, xs))
  {
    hide Ancestor, Run, NamesOk, IsReOrg, Forest, IsPathOf;
    var rest := Listing(seen);
    assert forall y :: y in rest ==> y in Members(rest);
    BestFirst(blocks, genesis, seen, best, rest);
    xs := [best] + rest;
    assert Members(xs) == Members(rest) + {best};
  }

  /** An order that leaves a stale entry under an unbeaten block with a harmful clash. */
  lemma {:induction false} HarmOutcome(blocks: Blocks, genesis: Hash, seen: set<Hash>, t: Hash, e: Hash, best: Hash) returns (xs: seq<Hash>)
    requires SingleGenesis(blocks, genesis) && NamesOk(blocks, genesis) && genesis in seen && NoBetter(blocks, seen, best)
    requires t in seen && e in seen && Harmful(blocks, genesis, t, e, best)
    ensures Delivers(xs, genesis, seen) && !PathAt(blocks, Outcome(blocks, genesis, xs))
  {
    hide Ancestor, ForkHeight, Run, NamesOk, Forest, IsPathOf, Spans;
    var b := if best == e || IsReOrg(blocks[best], blocks[e]) then best else e;
    SelfHarm(blocks, genesis, t, e, best);
    var ys := HarmRuns(blocks, genesis, t, e, b);
    xs := FillUp(blocks, genesis, seen, ys);
  }

  lemma {:induction false} SelfHarm(blocks: Blocks, genesis: Hash, t: Hash, e: Hash, best: Hash)
    requires SingleGenesis(blocks, genesis) && t in blocks && e in blocks && best in blocks && Harmful(blocks, genesis, t, e, best)
    ensures Harmful(blocks, genesis, t, e, e)
  {
    hide Ancestor, ForkHeight;
    Facts(blocks, genesis, e, t);
    Facts(blocks, genesis, e, best);
    Facts(blocks, genesis, e, e);
    ForkMax(blocks, e, e, blocks[e].height);
  }

  /** Every order leads to a path if and only if no clash is harmful to an unbeaten block. */
  lemma {:induction false} PathIff(blocks: Blocks, genesis: Hash, seen: set<Hash>)
    requires SingleGenesis(blocks, genesis) && NamesOk(blocks, genesis) && genesis in seen && seen <= blocks.Keys
    ensures AlwaysPath(blocks, genesis, seen) <==> forall best :: NoBetter(blocks, seen, best) ==> NoneHarmful(blocks, genesis, seen, best)
  {
    hide Harmful, NamesOk, Forest, IsPathOf, Outcome, Delivers, IsReOrg;
    if AlwaysPath(blocks, genesis, seen) {
      forall best, t, e | NoBetter(blocks, seen, best) && t in seen && e in seen
        ensures !Harmful(blocks, genesis, t, e, best)
      {
        if Harmful(blocks, genesis, t, e, best) {
          var xs := HarmOutcome(blocks, genesis, seen, t, e, best);
        }
      }
    }
    if forall best :: NoBetter(blocks, seen, best) ==> NoneHarmful(blocks, genesis, seen, best) {
      forall xs | Delivers(xs, genesis, seen)
        ensures PathAt(blocks, Outcome(blocks, genesis, xs))
      {
        var i := Outcome(blocks, genesis, xs);
        OutcomeOk(blocks, genesis, seen, xs);
        HarmlessPath(blocks, genesis, seen, i);
      }
    }
  }

  /**
   * Confluence: every order leads to the same head and the same height map if and only if one block beats all others,
   * none tying with it in height, round and simple hash, and no clash is harmful to it.
   */
  lemma {:induction false} ConfluenceIff(blocks: Blocks, genesis: Hash, seen: set<Hash>)
    requires SingleGenesis(blocks, genesis) && NamesOk(blocks, genesis) && genesis in seen && seen <= blocks.Keys
    ensures Confluent(blocks, genesis, seen) <==>
            exists best :: Best(blocks, seen, best) && NoneHarmful(blocks, genesis, seen, best)
  {
    hide NoneHarmful, NamesOk, Forest, Outcome, Delivers, IsReOrg, Confluent;
    if Confluent(blocks, genesis, seen) {
      assert OneHead(blocks, genesis, seen) by { ConfluentHeads(blocks, genesis, seen); }
      var best := OneHeadBest(blocks, genesis, seen);
      ConfluentHarmless(blocks, genesis, seen, best);
    }
    if best :| Best(blocks, seen, best) && NoneHarmful(blocks, genesis, seen, best) {
      HarmlessConfluent(blocks, genesis, seen, best);
    }
  }

  /** Every order leads to the same head if and only if one block beats all others: no second one ties with it. */
  lemma {:induction false} HeadIff(blocks: Blocks, genesis: Hash, seen: set<Hash>)
    requires SingleGenesis(blocks, genesis) && NamesOk(blocks, genesis) && genesis in seen && seen <= blocks.Keys
    ensures OneHead(blocks, genesis, seen) <==> exists best :: Best(blocks, seen, best)
  {
    hide NamesOk, Forest, Outcome, Delivers, IsReOrg, Best, Explained;
    if OneHead(blocks, genesis, seen) {
      var best := OneHeadBest(blocks, genesis, seen);
    }
    if best :| Best(blocks, seen, best) {
      forall xs | Delivers(xs, genesis, seen)
        ensures Outcome(blocks, genesis, xs).head == best
      {
        OutcomeOk(blocks, genesis, seen, xs);
        BestUnique(blocks, seen, best, Outcome(blocks, genesis, xs).head);
      }
    }
  }

  ghost predicate OneHead(blocks: Blocks, genesis: Hash, seen: set<Hash>)
    requires SingleGenesis(blocks, genesis) && seen <= blocks.Keys
  {
    forall xs, ys :: Delivers(xs, genesis, seen) && Delivers(ys, genesis, seen) ==>
      Outcome(blocks, genesis, xs).head == Outcome(blocks, genesis, ys).head
  }

  lemma {:induction false} OneHeadBest(blocks: Blocks, genesis: Hash, seen: set<Hash>) returns (best: Hash)
    requires SingleGenesis(blocks, genesis) && NamesOk(blocks, genesis) && genesis in seen && seen <= blocks.Keys && OneHead(blocks, genesis, seen)
    ensures Best(blocks, seen, best) && NoBetter(blocks, seen, best)
  {
    hide NamesOk, Forest, Outcome, IsReOrg, IsPathOf, Explained, Spans;
    var xs := Listing(seen);
    best := Outcome(blocks, genesis, xs).head;
    OutcomeOk(blocks, genesis, seen, xs);
    forall b | NoBetter(blocks, seen, b)
      ensures b == best
    {
      var ys := BestOutcome(blocks, genesis, seen, b);
    }
    BestIff(blocks, seen, best);
  }

  lemma {:induction false} ConfluentHeads(blocks: Blocks, genesis: Hash, seen: set<Hash>)
    requires SingleGenesis(blocks, genesis) && seen <= blocks.Keys && Confluent(blocks, genesis, seen)
    ensures OneHead(blocks, genesis, seen)
  {
    hide Outcome, Delivers, Forest;
  }

  lemma {:induction false} ConfluentHarmless(blocks: Blocks, genesis: Hash, seen: set<Hash>, best: Hash)
    requires SingleGenesis(blocks, genesis) && NamesOk(blocks, genesis) && genesis in seen && seen <= blocks.Keys
    requires Confluent(blocks, genesis, seen) && NoBetter(blocks, seen, best)
    ensures NoneHarmful(blocks, genesis, seen, best)
  {
    hide Harmful, NamesOk, Forest, Outcome, IsReOrg, PathAt, Delivers;
    forall t, e | t in seen && e in seen
      ensures !Harmful(blocks, genesis, t, e, best)
    {
      if Harmful(blocks, genesis, t, e, best) {
        var xs := HarmOutcome(blocks, genesis, seen, t, e, best);
        var ys := BestOutcome(blocks, genesis, seen, best);
      }
    }
  }

  lemma {:induction false} HarmlessConfluent(blocks: Blocks, genesis: Hash, seen: set<Hash>, best: Hash)
    requires SingleGenesis(blocks, genesis) && NamesOk(blocks, genesis) && seen <= blocks.Keys
    requires Best(blocks, seen, best) && NoneHarmful(blocks, genesis, seen, best)
    ensures Confluent(blocks, genesis, seen)
  {
    hide NoneHarmful, NamesOk, Forest, Outcome, IsReOrg, Best, Delivers;
    forall xs, ys | Delivers(xs, genesis, seen) && Delivers(ys, genesis, seen)
      ensures Outcome(blocks, genesis, xs) == Outcome(blocks, genesis, ys)
    {
      OutcomeOk(blocks, genesis, seen, xs);
      OutcomeOk(blocks, genesis, seen, ys);
      IndexUnique(blocks, genesis, seen, best, Outcome(blocks, genesis, xs), Outcome(blocks, genesis, ys));
    }
  }

  /** A best block without harmful clash has one index. */
  lemma {:induction false} IndexUnique(blocks: Blocks, genesis: Hash, seen: set<Hash>, best: Hash, i: Index, j: Index)
    requires SingleGenesis(blocks, genesis) && RecordOk(blocks, seen, i) && RecordOk(blocks, seen, j)
    requires Best(blocks, seen, best) && NoneHarmful(blocks, genesis, seen, best)
    ensures i == j && i.head == best && IsPathOf(blocks, best, i.heights)
  {
    hide Ancestor, Forest, NoneHarmful, IsReOrg, Best, NoBetter, Explained;
    BestUnique(blocks, seen, best, i.head);
    BestUnique(blocks, seen, best, j.head);
    HarmlessPath(blocks, genesis, seen, i);
    HarmlessPath(blocks, genesis, seen, j);
    assert i.heights == j.heights;
  }

  // ---------------------------------------------------------------- the record

  /** The heights from `f` exclusive to `t` inclusive hold the path of `b`, the others what they held. */
  ghost predicate Overwritten(blocks: Blocks, b: Hash, heights: map<nat, Hash>, next: map<nat, Hash>, f: nat, t: nat)
    requires Forest(blocks) && b in blocks && t <= blocks[b].height
  {
    && (forall k: nat :: k in next <==> k in heights || f < k <= t)
    && (forall k: nat :: k in next ==> next[k] == if f < k <= t then Ancestor(blocks, b, k) else heights[k])
  }

  lemma {:induction false} OverwriteNext(blocks: Blocks, b: Hash, heights: map<nat, Hash>, next: map<nat, Hash>, f: nat, t: nat)
    requires Forest(blocks) && b in blocks && f <= t < blocks[b].height && Overwritten(blocks, b, heights, next, f, t)
    ensures Overwritten(blocks, b, heights, next[t + 1 := Ancestor(blocks, b, t + 1)], f, t + 1)
  {
    hide Ancestor;
  }

  lemma {:induction false} OverwriteNone(blocks: Blocks, b: Hash, heights: map<nat, Hash>, f: nat)
    requires Forest(blocks) && b in blocks && f <= blocks[b].height
    ensures Overwritten(blocks, b, heights, heights, f, f)
  {
  }

  lemma {:induction false} OverwriteAll(blocks: Blocks, b: Hash, heights: map<nat, Hash>, next: map<nat, Hash>, f: nat)
    requires Forest(blocks) && b in blocks && f <= blocks[b].height && Overwritten(blocks, b, heights, next, f, blocks[b].height)
    ensures next == Rewritten(blocks, heights, b, f)
  {
    hide Ancestor;
  }

  /** A better block is not on the path of the head. */
  lemma {:induction false} ForkBelowBetter(blocks: Blocks, head: Hash, b: Hash)
    requires Forest(blocks) && head in blocks && b in blocks && SameRoot(blocks, head, b) && IsReOrg(blocks[b], blocks[head])
    ensures ForkHeight(blocks, head, b) < blocks[b].height
  {
  }

  /** Storing a block touches neither what was seen nor the ancestors of the head. */
  lemma {:induction false} StoreOk(blocks: Blocks, genesis: Hash, seen: set<Hash>, i: Index, hash: Hash, header: Header)
    requires SingleGenesis(blocks, genesis) && SingleGenesis(blocks[hash := header], genesis) && hash !in blocks && RecordOk(blocks, seen, i)
    ensures RecordOk(blocks[hash := header], seen, i)
    ensures IsPathOf(blocks[hash := header], i.head, i.heights) <==> IsPathOf(blocks, i.head, i.heights)
  {
    hide Ancestor, Forest, EntryOk;
    var c := blocks[hash := header];
    forall k: nat | k <= blocks[i.head].height
      ensures Ancestor(c, i.head, k) == Ancestor(blocks, i.head, k)
      ensures EntryOk(c, seen, i.head, i.heights[k], k)
    {
      AncestorStable(blocks, c, i.head, k);
      StoreEntry(blocks, c, seen, i.head, i.heights[k], k);
    }
  }

  lemma {:induction false} StoreEntry(blocks: Blocks, c: Blocks, seen: set<Hash>, head: Hash, entry: Hash, k: nat)
    requires Forest(blocks) && Forest(c) && head in blocks && seen <= blocks.Keys && k <= blocks[head].height
    requires (forall x :: x in blocks ==> x in c && c[x] == blocks[x]) && EntryOk(blocks, seen, head, entry, k)
    ensures seen <= c.Keys && EntryOk(c, seen, head, entry, k)
  {
    hide Ancestor, Forest;
    AncestorStable(blocks, c, head, k);
    if entry != Ancestor(blocks, head, k) {
      var t, e :| t in seen && e in seen && Explains(blocks, t, e, head, k);
      AncestorStable(blocks, c, t, k);
      AncestorStable(blocks, c, e, k);
      assert Explains(c, t, e, head, k);
    }
  }

  class MainBranchRecord {
    var blocks: Blocks
    var heights: map<nat, Hash>
    var head: Hash
    ghost var seen: set<Hash>
    ghost const genesis: Hash

    ghost predicate Valid()
      reads this
    {
      SingleGenesis(blocks, genesis) && NamesOk(blocks, genesis) && head in blocks && RecordOk(blocks, seen, Now())
    }

    ghost function Now(): Index
      reads this
    {
      Index(head, heights)
    }

    /** `NewMainBranchRecord` on a fresh database. */
    constructor (genesis: Hash, header: Header)
      requires header.height == 0 && header.parentFull != genesis && header.parentSimple != header.simple
      ensures Valid() && blocks == map[genesis := header] && Now() == Fresh(genesis) && seen == {genesis} && this.genesis == genesis
    {
      blocks := map[genesis := header];
      heights := map[0 := genesis];
      head, seen, this.genesis := genesis, {genesis}, genesis;
      new;
      FreshOk(blocks, genesis);
    }

    /** Blocks are stored, ancestors first, independently of their execution. */
    method StoreBlock(hash: Hash, header: Header)
      requires Valid() && hash !in blocks && header.height > 0
      requires SingleGenesis(blocks[hash := header], genesis) && NamesOk(blocks[hash := header], genesis)
      modifies this`blocks
      ensures Valid() && blocks == old(blocks)[hash := header]
      ensures IsPathOf(blocks, head, heights) <==> old(IsPathOf(blocks, head, heights))
    {
      hide SingleGenesis, NamesOk, RecordOk, IsPathOf;
      StoreOk(blocks, genesis, seen, Now(), hash, header);
      blocks := blocks[hash := header];
    }

    /** One executed block: the head moves exactly when the block is better; a path stays one exactly if there is no clash. */
    method Executed(block: Hash)
      requires Valid() && block in blocks
      modifies this`heights, this`head, this`seen
      ensures Valid() && seen == old(seen) + {block} && Now() == Step(blocks, genesis, old(Now()), block)
      ensures head == if IsReOrg(blocks[block], blocks[old(head)]) then block else old(head)
      ensures Foremost(blocks, seen, head) && (Ties(blocks[old(head)], blocks[head]) ==> head == old(head))
      ensures old(IsPathOf(blocks, head, heights)) ==> (IsPathOf(blocks, head, heights) <==> !Clash(blocks, old(head), block))
    {
      hide IsPathOf, Spans, NamesOk, Ancestor, Clash, Explained, Rewritten, NoBetter, ForkHeight, Forest, Foremost;
      Facts(blocks, genesis, head, block);
      StepOk(blocks, genesis, seen, Now(), block);
      StepHead(blocks, genesis, Now(), block);
      MoveUp(blocks, head, block);
      ForemostIff(blocks, seen + {block}, Step(blocks, genesis, Now(), block).head);
      if IsPathOf(blocks, head, heights) {
        StepPath(blocks, genesis, Now(), block);
      }
      seen := seen + {block};
      if blocks[head].simple == blocks[block].parentSimple {
        heights := heights[blocks[block].height := block];
        head := block;
      } else if IsReOrg(blocks[block], blocks[head]) {
        ForkBelowBetter(blocks, head, block);
        var reorg := FindReorgChain(blocks, head, block);
        if |reorg| <= 1 {
          return;
        }
        WriteReorg(reorg, block);
        head := block;
      }
    }

    /** The event loop: nothing seen beats the head, and without a harmful clash the height map is its path. */
    method EventLoop(events: seq<Hash>)
      requires Valid() && forall e :: e in events ==> e in blocks
      modifies this`heights, this`head, this`seen
      ensures Valid() && seen == old(seen) + Members(events) && Now() == Run(blocks, genesis, old(Now()), events)
      ensures Foremost(blocks, seen, head) && (NoneHarmful(blocks, genesis, seen, head) ==> IsPathOf(blocks, head, heights))
    {
      hide IsPathOf, Spans, NamesOk, Explained, IsReOrg, NoneHarmful, Forest, Step;
      for i := 0 to |events|
        invariant Valid() && seen == old(seen) + Members(events[..i]) && Now() == Run(blocks, genesis, old(Now()), events[..i])
      {
        RunAppend(blocks, genesis, old(Now()), events[..i], events[i]);
        Executed(events[i]);
        assert events[..i + 1] == events[..i] + [events[i]];
      }
      assert events[..|events|] == events;
      ForemostIff(blocks, seen, head);
      if NoneHarmful(blocks, genesis, seen, head) {
        HarmlessPath(blocks, genesis, seen, Now());
      }
    }

    /** Overwrite the heights of the new branch, the common ancestor excepted. */
    method WriteReorg(reorg: seq<Hash>, block: Hash)
      requires Forest(blocks) && head in blocks
      requires block in blocks && SameRoot(blocks, head, block) && blocks[head].height <= blocks[block].height
      requires IsUp(blocks, block, ForkHeight(blocks, head, block), reorg)
      modifies this`heights
      ensures heights == Rewritten(blocks, old(heights), block, ForkHeight(blocks, head, block))
    {
      hide Ancestor, ForkHeight, SameRoot, Forest, Overwritten, Rewritten;
      ghost var f := ForkHeight(blocks, head, block);
      OverwriteNone(blocks, block, heights, f);
      for i := 1 to |reorg|
        invariant Overwritten(blocks, block, old(heights), heights, f, f + i - 1)
      {
        OverwriteNext(blocks, block, old(heights), heights, f, f + i - 1);
        heights := heights[blocks[reorg[i]].height := reorg[i]];
      }
      OverwriteAll(blocks, block, old(heights), heights, f);
    }

    /** `GetMainBranchBlock`: the block recorded at a height, or an error above the head. */
    method GetMainBranchBlock(height: nat) returns (r: Option<Hash>)
      requires Valid()
      ensures r.Some? <==> height <= blocks[head].height
      ensures r.Some? && NoneHarmful(blocks, genesis, seen, head) ==> r.value == Ancestor(blocks, head, height)
    {
      hide Ancestor, NamesOk, Explained, IsReOrg, NoneHarmful, Forest;
      if NoneHarmful(blocks, genesis, seen, head) {
        HarmlessPath(blocks, genesis, seen, Now());
      }
      if height !in heights {
        return None;
      }
      return Some(heights[height]);
    }
  }

  /**
   * Two records told of the same executed blocks, in any two orders and with any repetition: if one block beats all
   * others and no clash is harmful to it, both end with it as head and with its path.
   */
  method Confluence(a: MainBranchRecord, b: MainBranchRecord, xs: seq<Hash>, ys: seq<Hash>, ghost best: Hash)
    requires a != b && a.Valid() && b.Valid() && a.blocks == b.blocks && a.genesis == b.genesis && a.seen == b.seen
    requires (forall e :: e in xs ==> e in a.blocks) && forall e :: e in xs <==> e in ys
    modifies a, b
    ensures a.Valid() && b.Valid() && a.seen == b.seen == old(a.seen) + Members(xs)
    ensures Foremost(a.blocks, a.seen, a.head) && Foremost(b.blocks, b.seen, b.head)
    ensures Best(a.blocks, a.seen, best) ==> a.head == b.head == best
    ensures Best(a.blocks, a.seen, best) && NoneHarmful(a.blocks, a.genesis, a.seen, best) ==>
              a.heights == b.heights && IsPathOf(a.blocks, best, a.heights)
  {
    hide NamesOk, IsPathOf, Spans, Best, IsReOrg, NoneHarmful, Explained, Run, Forest;
    assert Members(xs) == Members(ys);
    a.EventLoop(xs);
    b.EventLoop(ys);
    ForemostIff(a.blocks, a.seen, a.head);
    ForemostIff(b.blocks, b.seen, b.head);
    if Best(a.blocks, a.seen, best) {
      BestUnique(a.blocks, a.seen, best, a.head);
      BestUnique(a.blocks, a.seen, best, b.head);
      if NoneHarmful(a.blocks, a.genesis, a.seen, best) {
        IndexUnique(a.blocks, a.genesis, a.seen, best, a.Now(), b.Now());
      }
    }
  }

  // ---------------------------------------------------------------- two blocks with one simple hash

  /** Blocks 2 and 3 are children of the genesis 1 and share round and simple hash; 4 is a child of 3. */
  ghost predicate Twins(blocks: Blocks) {
    && blocks.Keys == {1, 2, 3, 4} && blocks[1] == Header(0, 0, 10, 0, 0)
    && blocks[2] == blocks[3] == Header(1, 1, 20, 10, 1) && blocks[4] == Header(2, 2, 30, 20, 3)
  }

  lemma {:induction false} TwinsOk(blocks: Blocks)
    requires Twins(blocks)
    ensures SingleGenesis(blocks, 1) && NamesOk(blocks, 1) && Ancestor(blocks, 4, 1) == 3
  {
    TwinsForest(blocks);
    hide NamesOk, Forest;
    TwinsNamed(blocks);
    assert Ancestor(blocks, 4, 1) == Ancestor(blocks, 3, 1) == 3;
  }

  lemma {:induction false} TwinsForest(blocks: Blocks)
    requires Twins(blocks)
    ensures SingleGenesis(blocks, 1)
  {
    forall b | b in blocks
      ensures Rooted(blocks, blocks[b]) && (blocks[b].height == 0 ==> b == 1)
    {
      assert b == 1 || b == 2 || b == 3 || b == 4;
    }
  }

  lemma {:induction false} TwinsNamed(blocks: Blocks)
    requires Twins(blocks)
    ensures NamesOk(blocks, 1)
  {
    forall b | b in blocks
      ensures b == 1 || b == 2 || b == 3 || b == 4
    {
    }
  }

  /** On parents-first orders of these blocks the twin told of first stays on the path: the height map may keep a stale
      block, the orders disagree on it, and without block 4 they disagree on the head. */
  lemma {:induction false} TwinOrders(a: Hash, b: Hash) returns (blocks: Blocks)
    requires (a == 2 && b == 3) || (a == 3 && b == 2)
    ensures Twins(blocks) && SingleGenesis(blocks, 1) && NamesOk(blocks, 1) && Ancestor(blocks, 4, 1) == 3
    ensures Run(blocks, 1, Fresh(1), [a, b]) == Index(a, map[0 := 1, 1 := a])
    ensures Run(blocks, 1, Fresh(1), [a, b, 4]) == Index(4, map[0 := 1, 1 := a, 2 := 4])
  {
    blocks := map[1 := Header(0, 0, 10, 0, 0), 2 := Header(1, 1, 20, 10, 1), 3 := Header(1, 1, 20, 10, 1), 4 := Header(2, 2, 30, 20, 3)];
    TwinsOk(blocks);
    TwinRun(blocks, a, b);
  }

  lemma {:induction false} TwinRun(blocks: Blocks, a: Hash, b: Hash)
    requires Twins(blocks) && SingleGenesis(blocks, 1) && ((a == 2 && b == 3) || (a == 3 && b == 2))
    ensures Run(blocks, 1, Fresh(1), [a, b]) == Index(a, map[0 := 1, 1 := a])
    ensures Run(blocks, 1, Fresh(1), [a, b, 4]) == Index(4, map[0 := 1, 1 := a, 2 := 4])
  {
    hide SingleGenesis, Ancestor, Rewritten, ForkHeight, Run;
    RunTwo(blocks, 1, Fresh(1), a, b);
    RunAppend(blocks, 1, Fresh(1), [a, b], 4);
    assert [a, b] + [4] == [a, b, 4];
  }
}
