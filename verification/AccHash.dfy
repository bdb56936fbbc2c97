/**
 * Recomputing accumulated hashes from a received hash tree (core/types/hash_tree.go), against the
 * accumulated hashes the chain itself stores (chain/blockchain.go).
 */
module AccHash {
  import opened Common
  import opened HashSeqs
  import opened HashTree

  /** The hash function on lists of hashes. */
  type ListHash = seq<nat> -> nat

  ghost predicate Injective(H: ListHash) {
    forall a, b :: H(a) == H(b) ==> a == b
  }

  /** Links lead downwards. */
  ghost predicate Acyclic(store: Store, rank: Hash -> nat) {
    forall b, u :: b in store && u in Links(store[b]) ==> rank(u) < rank(b)
  }

  /** Accumulated hashes as the chain computes them; a block without stored parent has something else. */
  ghost predicate AccOk(store: Store, H: ListHash) {
    forall b :: b in store ==>
      if LinksStored(store, b) then store[b].acc == H(Accs(store, Links(store[b])) + [b]) else store[b].acc != H([b])
  }

  ghost predicate LinksStored(store: Store, b: Hash)
    requires b in store
  {
    forall u :: u in Links(store[b]) ==> u in store
  }

  ghost function Accs(store: Store, hs: seq<Hash>): (r: seq<nat>)
    ensures |r| == |hs|
    ensures forall i :: 0 <= i < |hs| && hs[i] in store ==> r[i] == store[hs[i]].acc
  {
    if hs == [] then [] else
      Accs(store, hs[..|hs| - 1]) + [if hs[|hs| - 1] in store then store[hs[|hs| - 1]].acc else 0]
  }

  // ---------------------------------------------------------------- what is recomputed

  /** The value recomputed for a block: taken from the pairs at the tree point, else from its links. */
  ghost function Recalc(t: Span, H: ListHash, rank: Hash -> nat, b: Hash): nat
    decreases rank(b), 1, 0
  {
    if b !in t.store then 0
    else if !Followed(t, b) then (if t.store[b].height >= t.below then t.store[b].acc else H([b]))
    else H(Recalcs(t, H, rank, b, |Links(t.store[b])|) + [b])
  }

  /** The values of the first `k` links of a block. */
  ghost function Recalcs(t: Span, H: ListHash, rank: Hash -> nat, b: Hash, k: nat): (r: seq<nat>)
    requires b in t.store && k <= |Links(t.store[b])|
    ensures |r| == k
    decreases rank(b), 0, k
  {
    if k == 0 then [] else
      var u := Links(t.store[b])[k - 1];
      Recalcs(t, H, rank, b, k - 1) + [if rank(u) < rank(b) then Recalc(t, H, rank, u) else 0]
  }

  lemma {:induction false} RecalcsAt(t: Span, H: ListHash, rank: Hash -> nat, b: Hash, k: nat, i: nat)
    requires b in t.store && i < k <= |Links(t.store[b])| && Acyclic(t.store, rank)
    ensures Recalcs(t, H, rank, b, k)[i] == Recalc(t, H, rank, Links(t.store[b])[i])
  {
    hide Recalc;
    if i < k - 1 {
      RecalcsAt(t, H, rank, b, k - 1, i);
    } else {
      assert Links(t.store[b])[i] in Links(t.store[b]);
    }
  }

  /** Every block of the tree point below `b` has its accumulated hash in the pairs. */
  ghost predicate Sound(t: Span, rank: Hash -> nat, b: Hash)
    decreases rank(b)
  {
    b in t.store &&
    if !Followed(t, b) then t.store[b].height >= t.below
    else forall u :: u in Links(t.store[b]) && rank(u) < rank(b) ==> Sound(t, rank, u)
  }

  /** The recomputed hash is the chain's if no tree point block lies below the lower height, and only if, collisions aside. */
  lemma {:induction false} RecalcIff(t: Span, H: ListHash, rank: Hash -> nat, b: Hash)
    requires Acyclic(t.store, rank) && AccOk(t.store, H) && Reached(t, b) && b in t.store
    requires forall h :: Reached(t, h) && Followed(t, h) ==> LinksStored(t.store, h)
    ensures Sound(t, rank, b) ==> Recalc(t, H, rank, b) == t.store[b].acc
    ensures Injective(H) && Recalc(t, H, rank, b) == t.store[b].acc ==> Sound(t, rank, b)
    decreases rank(b)
  {
    hide Reached, LinkPath, Recalc, Recalcs, Followed, Injective, AccOk, Acyclic, Links;
    if Followed(t, b) {
      forall u | u in Links(t.store[b])
        ensures u in t.store && rank(u) < rank(b)
        ensures Sound(t, rank, u) ==> Recalc(t, H, rank, u) == t.store[u].acc
        ensures Injective(H) && Recalc(t, H, rank, u) == t.store[u].acc ==> Sound(t, rank, u)
      {
        ReachedNext(t, b, u);
        Lower(t.store, rank, b, u);
        RecalcIff(t, H, rank, u);
      }
      RecalcFollowed(t, H, rank, b);
    } else {
      RecalcPoint(t, H, rank, b);
    }
  }

  lemma {:induction false} Lower(store: Store, rank: Hash -> nat, b: Hash, u: Hash)
    requires Acyclic(store, rank) && b in store && u in Links(store[b])
    ensures rank(u) < rank(b)
  {
  }

  lemma {:induction false} RecalcPoint(t: Span, H: ListHash, rank: Hash -> nat, b: Hash)
    requires AccOk(t.store, H) && b in t.store && !Followed(t, b)
    ensures t.store[b].height >= t.below ==> Recalc(t, H, rank, b) == t.store[b].acc
    ensures Injective(H) && Recalc(t, H, rank, b) == t.store[b].acc ==> t.store[b].height >= t.below
  {
    if LinksStored(t.store, b) {
      var l := Accs(t.store, Links(t.store[b]));
      assert |l + [b]| != |[b]|;
    }
  }

  lemma {:induction false} RecalcFollowed(t: Span, H: ListHash, rank: Hash -> nat, b: Hash)
    requires Acyclic(t.store, rank) && AccOk(t.store, H) && b in t.store && Followed(t, b) && LinksStored(t.store, b)
    ensures (forall u :: u in Links(t.store[b]) ==> Recalc(t, H, rank, u) == t.store[u].acc) ==> Recalc(t, H, rank, b) == t.store[b].acc
    ensures Injective(H) && Recalc(t, H, rank, b) == t.store[b].acc ==>
              forall u :: u in Links(t.store[b]) ==> Recalc(t, H, rank, u) == t.store[u].acc
  {
    var ls := Links(t.store[b]);
    var r, a := Recalcs(t, H, rank, b, |ls|), Accs(t.store, ls);
    assert Recalc(t, H, rank, b) == H(r + [b]) && t.store[b].acc == H(a + [b]);
    hide Recalc, Recalcs, Links, Accs, AccOk;
    forall i | 0 <= i < |ls|
      ensures ls[i] in t.store && r[i] == Recalc(t, H, rank, ls[i]) && a[i] == t.store[ls[i]].acc
    {
      assert ls[i] in ls;
      RecalcsAt(t, H, rank, b, |ls|, i);
    }
    if Injective(H) && Recalc(t, H, rank, b) == t.store[b].acc {
      assert r + [b] == a + [b];
      forall u | u in ls
        ensures Recalc(t, H, rank, u) == t.store[u].acc
      {
        var i :| 0 <= i < |ls| && ls[i] == u;
        assert (r + [b])[i] == (a + [b])[i];
      }
    }
    if forall u :: u in ls ==> Recalc(t, H, rank, u) == t.store[u].acc {
      assert r == a;
    }
  }

  /** No block of the tree point lies below the lower height. */
  ghost predicate PointAbove(t: Span) {
    forall h :: Reached(t, h) && h in t.store && !Followed(t, h) ==> t.store[h].height >= t.below
  }

  lemma {:induction false} AboveIsSound(t: Span, rank: Hash -> nat, b: Hash)
    requires PointAbove(t) && Reached(t, b) && b in t.store
    requires forall h :: Reached(t, h) && Followed(t, h) ==> LinksStored(t.store, h)
    ensures Sound(t, rank, b)
    decreases rank(b)
  {
    hide Reached, LinkPath, Followed, Links;
    if Followed(t, b) {
      forall u | u in Links(t.store[b]) && rank(u) < rank(b)
        ensures Sound(t, rank, u)
      {
        ReachedNext(t, b, u);
        AboveIsSound(t, rank, u);
      }
    }
  }

  lemma {:induction false} SoundAlong(t: Span, rank: Hash -> nat, path: seq<Hash>)
    requires Acyclic(t.store, rank) && Sound(t, rank, t.up) && LinkPath(t, path)
    ensures Sound(t, rank, path[|path| - 1])
  {
    hide Followed, Acyclic;
    if |path| > 1 {
      var init := path[..|path| - 1];
      forall i | 0 <= i < |init| - 1
        ensures LinkStep(t, init, i)
      {
        assert LinkStep(t, path, i);
      }
      SoundAlong(t, rank, init);
      var p, u := path[|path| - 2], path[|path| - 1];
      assert LinkStep(t, path, |path| - 2);
      FollowedStored(t, p);
      Lower(t.store, rank, p, u);
    }
  }

  lemma {:induction false} FollowedStored(t: Span, h: Hash)
    requires Followed(t, h)
    ensures h in t.store
  {
  }

  lemma {:induction false} SoundIsAbove(t: Span, rank: Hash -> nat)
    requires Acyclic(t.store, rank) && Sound(t, rank, t.up)
    ensures PointAbove(t)
  {
    hide LinkStep, Followed;
    forall h | Reached(t, h) && h in t.store && !Followed(t, h)
      ensures t.store[h].height >= t.below
    {
      var path :| LinkPath(t, path) && path[|path| - 1] == h;
      SoundAlong(t, rank, path);
    }
  }

  // ---------------------------------------------------------------- the recomputation

  type Verified = map<Hash, nat>

  /** Recomputed values so far; the tree point's pairs are there from the start. */
  ghost predicate VerifiedOk(t: Span, H: ListHash, rank: Hash -> nat, elems: seq<TreeElem>, v: Verified) {
    && (forall h :: h in v ==> v[h] == Recalc(t, H, rank, h))
    && (forall i :: 0 <= i < |elems| && elems[i].parent.TreePoint? ==> InPairs(t, elems[i].hash, v))
  }

  ghost predicate InPairs(t: Span, h: Hash, v: Verified) {
    h in t.store && t.store[h].height >= t.below ==> h in v
  }

  /** `RetrieveAccHashMap`. */
  function PairMap(pairs: seq<Pair>): Verified {
    if pairs == [] then map[] else PairMap(pairs[..|pairs| - 1])[pairs[|pairs| - 1].hash := pairs[|pairs| - 1].acc]
  }

  lemma {:induction false} PairMapNames(pairs: seq<Pair>, h: Hash)
    ensures h in PairMap(pairs) <==> h in PairNames(pairs)
    ensures h in PairMap(pairs) ==> Pair(h, PairMap(pairs)[h]) in pairs
  {
    if pairs != [] {
      var init, last := pairs[..|pairs| - 1], pairs[|pairs| - 1];
      PairMapNames(init, h);
      assert pairs == init + [last];
      if h == last.hash {
        assert last in pairs;
      }
    }
  }

  /** The pairs give every listed block its own accumulated hash. */
  lemma {:induction false} PairMapOk(t: Span, H: ListHash, rank: Hash -> nat, elems: seq<TreeElem>, pairs: seq<Pair>)
    requires StoreOk(t.store) && TreeOk(t, elems) && PointExact(t, elems, pairs) && t.up in t.store && !InTreePoint(t, t.up)
    ensures VerifiedOk(t, H, rank, elems, PairMap(pairs))
  {
    hide Reached, PairMap, TreeOk;
    forall h | h in PairMap(pairs)
      ensures PairMap(pairs)[h] == Recalc(t, H, rank, h)
    {
      PairMapNames(pairs, h);
      var i :| 0 <= i < |pairs| && pairs[i] == Pair(h, PairMap(pairs)[h]);
      assert PairOk(t, pairs[i]);
      PointBelow(t, elems, h);
    }
    forall i | 0 <= i < |elems| && elems[i].parent.TreePoint?
      ensures InPairs(t, elems[i].hash, PairMap(pairs))
    {
      var h := elems[i].hash;
      PairMapNames(pairs, h);
      if h in t.store {
        assert IsAncestor(t.store, h, h);
      }
    }
  }

  /** Ancestors of tree point blocks belong to the tree point. */
  lemma {:induction false} PointBelow(t: Span, elems: seq<TreeElem>, a: Hash)
    requires StoreOk(t.store) && TreeOk(t, elems) && FromPoint(t, elems, a) && t.up in t.store && !InTreePoint(t, t.up)
    ensures a in t.store && !Followed(t, a)
  {
    hide Reached, IsAncestor;
    var i :| 0 <= i < |elems| && elems[i].parent.TreePoint? && IsAncestor(t.store, elems[i].hash, a);
    AncestorHeight(t.store, elems[i].hash, a);
    IsStored(t.store, elems[i].hash, a);
    assert Final(t, elems, elems[i]);
  }

  /** `getParentAndConfirms`: nothing at the tree point, else the confirms and then the parent. */
  function Sources(e: TreeElem): seq<nat>
    requires !e.parent.UnCompleted?
  {
    if e.parent.TreePoint? then [] else e.confirms + [e.parent.index]
  }

  /** Sources of a followed block are its links. */
  lemma {:induction false} SourcesAreLinks(t: Span, elems: seq<TreeElem>, i: nat)
    requires TreeOk(t, elems) && i < |elems|
    ensures elems[i].hash in t.store && !elems[i].parent.UnCompleted?
    ensures elems[i].parent.TreePoint? <==> !Followed(t, elems[i].hash)
    ensures Followed(t, elems[i].hash) ==>
              var ls := Links(t.store[elems[i].hash]);
              |Sources(elems[i])| == |ls| && forall j :: 0 <= j < |ls| ==> Sources(elems[i])[j] < |elems| && elems[Sources(elems[i])[j]].hash == ls[j]
  {
  }

  ghost function Names(elems: seq<TreeElem>): set<Hash> {
    set e | e in elems :: e.hash
  }

  lemma {:induction false} RankBound(elems: seq<TreeElem>, rank: Hash -> nat) returns (n: nat)
    ensures forall i :: 0 <= i < |elems| ==> rank(elems[i].hash) < n
  {
    n := 0;
    for i := 0 to |elems|
      invariant forall j :: 0 <= j < i ==> rank(elems[j].hash) < n
    {
      n := n + rank(elems[i].hash) + 1;
    }
  }

  /** `calcuAccIndexHash`, once all sources are verified. */
  method CalcAccIndexHash(H: ListHash, elems: seq<TreeElem>, v: Verified, k: nat, ghost t: Span, ghost rank: Hash -> nat) returns (acc: nat)
    requires TreeOk(t, elems) && k < |elems| && Acyclic(t.store, rank) && VerifiedOk(t, H, rank, elems, v)
    requires elems[k].hash !in v && !elems[k].parent.UnCompleted?
    requires forall j :: 0 <= j < |Sources(elems[k])| ==> Sources(elems[k])[j] < |elems| && elems[Sources(elems[k])[j]].hash in v
    ensures acc == Recalc(t, H, rank, elems[k].hash)
  {
    hide TreeOk, Recalc, Recalcs, Acyclic, Links, Followed, Sources;
    SourcesAreLinks(t, elems, k);
    ghost var b := elems[k].hash;
    var sources, accs := Sources(elems[k]), [];
    for j := 0 to |sources|
      invariant |accs| == j && forall i :: 0 <= i < j ==> accs[i] == Recalc(t, H, rank, elems[sources[i]].hash)
    {
      accs := accs + [v[elems[sources[j]].hash]];
    }
    acc := H(accs + [elems[k].hash]);
    CalcIsRecalc(t, H, rank, elems, v, k, accs);
  }

  lemma {:induction false} CalcIsRecalc(t: Span, H: ListHash, rank: Hash -> nat, elems: seq<TreeElem>, v: Verified, k: nat, accs: seq<nat>)
    requires TreeOk(t, elems) && k < |elems| && Acyclic(t.store, rank) && VerifiedOk(t, H, rank, elems, v)
    requires elems[k].hash !in v && !elems[k].parent.UnCompleted? && |accs| == |Sources(elems[k])|
    requires forall i :: 0 <= i < |accs| ==> Sources(elems[k])[i] < |elems| && accs[i] == Recalc(t, H, rank, elems[Sources(elems[k])[i]].hash)
    ensures H(accs + [elems[k].hash]) == Recalc(t, H, rank, elems[k].hash)
  {
    hide TreeOk, Recalcs, Acyclic, Links, Followed;
    SourcesAreLinks(t, elems, k);
    var b := elems[k].hash;
    if Followed(t, b) {
      var ls := Links(t.store[b]);
      var r := Recalcs(t, H, rank, b, |ls|);
      forall i | 0 <= i < |ls|
        ensures accs[i] == r[i]
      {
        RecalcsAt(t, H, rank, b, |ls|, i);
      }
      assert accs == r;
    } else {
      assert InPairs(t, b, v);
      assert accs == [] && accs + [b] == [b];
    }
  }

  /** `parentAndConfirmsUnverified`. */
  method Unverified(elems: seq<TreeElem>, v: Verified, sources: seq<nat>) returns (r: seq<nat>)
    requires forall j :: 0 <= j < |sources| ==> sources[j] < |elems|
    ensures forall k :: k in r ==> k < |elems| && elems[k].hash !in v && k in sources
    ensures r == [] <==> forall j :: 0 <= j < |sources| ==> elems[sources[j]].hash in v
  {
    r := [];
    for j := 0 to |sources|
      invariant forall k :: k in r ==> k < |elems| && elems[k].hash !in v && k in sources
      invariant r == [] <==> forall i :: 0 <= i < j ==> elems[sources[i]].hash in v
    {
      if elems[sources[j]].hash !in v {
        r := r + [sources[j]];
      }
    }
  }

  /** `dfsVerifyTree`: verify everything below an element, then the element. */
  method DfsVerify(H: ListHash, elems: seq<TreeElem>, v0: Verified, index: nat, ghost t: Span, ghost rank: Hash -> nat) returns (v: Verified)
    requires TreeOk(t, elems) && index < |elems| && Acyclic(t.store, rank) && VerifiedOk(t, H, rank, elems, v0)
    ensures VerifiedOk(t, H, rank, elems, v) && elems[index].hash in v && v0.Keys <= v.Keys
  {
    hide TreeOk, Recalc, Acyclic, Links, Followed, Sources, VerifiedOk, Names;
    ghost var bound := RankBound(elems, rank);
    v := v0;
    var stack: seq<nat> := [index];
    while stack != []
      invariant VerifiedOk(t, H, rank, elems, v) && v0.Keys <= v.Keys
      invariant forall i :: 0 <= i < |stack| ==> stack[i] < |elems|
      invariant if stack == [] then elems[index].hash in v else stack[0] == index
      decreases Names(elems) - v.Keys,
                if stack == [] then 0
                else if elems[stack[|stack| - 1]].hash in v then bound + |stack| else rank(elems[stack[|stack| - 1]].hash)
    {
      var top := stack[|stack| - 1];
      if elems[top].hash in v {
        stack := stack[..|stack| - 1];
        continue;
      }
      SourcesAreLinks(t, elems, top);
      SourcesBounded(t, elems, rank, top);
      var missing := Unverified(elems, v, Sources(elems[top]));
      if missing == [] {
        var acc := CalcAccIndexHash(H, elems, v, top, t, rank);
        VerifyNext(t, H, rank, elems, v, top, acc);
        v := v[elems[top].hash := acc];
        stack := stack[..|stack| - 1];
      } else {
        assert forall i :: 0 <= i < |missing| ==> missing[i] in missing;
        stack := stack + missing;
      }
    }
  }

  lemma {:induction false} SourcesBounded(t: Span, elems: seq<TreeElem>, rank: Hash -> nat, k: nat)
    requires TreeOk(t, elems) && k < |elems| && Acyclic(t.store, rank)
    ensures !elems[k].parent.UnCompleted?
    ensures forall j :: 0 <= j < |Sources(elems[k])| ==> Sources(elems[k])[j] < |elems|
    ensures forall m :: m in Sources(elems[k]) ==> m < |elems| && rank(elems[m].hash) < rank(elems[k].hash)
  {
  }

  lemma {:induction false} VerifyNext(t: Span, H: ListHash, rank: Hash -> nat, elems: seq<TreeElem>, v: Verified, k: nat, acc: nat)
    requires VerifiedOk(t, H, rank, elems, v) && k < |elems| && elems[k].hash !in v && acc == Recalc(t, H, rank, elems[k].hash)
    ensures VerifiedOk(t, H, rank, elems, v[elems[k].hash := acc])
    ensures Names(elems) - v[elems[k].hash := acc].Keys < Names(elems) - v.Keys
  {
  }

  /** `list` climbs from the first element above the tree point along parents, block by block. */
  ghost predicate MainPath(t: Span, elems: seq<TreeElem>, list: seq<nat>) {
    && list != [] && (forall i :: 0 <= i < |list| ==> list[i] < |elems|)
    && (forall i :: 0 < i < |list| ==> elems[list[i]].parent == At(list[i - 1]) && IsParent(t, elems[list[i]].hash, elems[list[i - 1]].hash))
    && elems[list[0]].parent.At? && elems[list[0]].parent.index < |elems| && elems[elems[list[0]].parent.index].parent.TreePoint?
  }

  ghost predicate IsParent(t: Span, b: Hash, a: Hash) {
    b in t.store && t.store[b].parent == a
  }

  /** `buildMainChainList`: the indices of the root's path, from just above the tree point up to the root. */
  method BuildMainChainList(elems: seq<TreeElem>, root: nat, ghost t: Span, ghost rank: Hash -> nat) returns (list: seq<nat>)
    requires TreeOk(t, elems) && root < |elems| && elems[root].hash == t.up && Acyclic(t.store, rank)
    ensures MainPath(t, elems, list) && list[|list| - 1] == root
  {
    hide TreeOk, Acyclic, Links, Sources, IsParent;
    var cur := root;
    list := [root];
    ParentBounded(t, elems, rank, root);
    while !elems[cur].parent.TreePoint?
      invariant cur < |elems| && list != [] && list[0] == cur && list[|list| - 1] == root && (forall i :: 0 <= i < |list| ==> list[i] < |elems|)
      invariant cur == root || |list| > 1
      invariant forall i :: 0 < i < |list| ==> elems[list[i]].parent == At(list[i - 1]) && IsParent(t, elems[list[i]].hash, elems[list[i - 1]].hash)
      decreases rank(elems[cur].hash)
    {
      ParentBounded(t, elems, rank, cur);
      cur := elems[cur].parent.index;
      list := [cur] + list;
    }
    list := list[1..];
  }

  lemma {:induction false} ParentBounded(t: Span, elems: seq<TreeElem>, rank: Hash -> nat, k: nat)
    requires TreeOk(t, elems) && k < |elems| && Acyclic(t.store, rank)
    ensures !elems[k].parent.UnCompleted?
    ensures elems[k].hash == t.up ==> elems[k].parent.At?
    ensures elems[k].parent.At? ==>
              var p := elems[k].parent.index;
              p < |elems| && rank(elems[p].hash) < rank(elems[k].hash) && IsParent(t, elems[k].hash, elems[p].hash)
  {
  }

  /** `CalcAccHash`: the accumulated hash of the root, recomputed from the tree and the tree point's pairs. */
  method CalcAccHash(H: ListHash, elems: seq<TreeElem>, root: nat, pairs: seq<Pair>, ghost t: Span, ghost rank: Hash -> nat) returns (acc: nat)
    requires StoreOk(t.store) && Acyclic(t.store, rank) && AccOk(t.store, H)
    requires t.up in t.store && !InTreePoint(t, t.up) && TreeOk(t, elems) && PointExact(t, elems, pairs)
    requires root < |elems| && elems[root].hash == t.up
    ensures PointAbove(t) ==> acc == t.store[t.up].acc
    ensures Injective(H) && acc == t.store[t.up].acc ==> PointAbove(t)
  {
    hide TreeOk, Recalc, Acyclic, VerifiedOk, PointExact, AccOk, StoreOk, PointAbove, Injective, PairMap;
    var list := BuildMainChainList(elems, root, t, rank);
    PairMapOk(t, H, rank, elems, pairs);
    var v: Verified := PairMap(pairs);
    for i := 0 to |list|
      invariant VerifiedOk(t, H, rank, elems, v) && (i == |list| ==> t.up in v)
    {
      v := DfsVerify(H, elems, v, list[i], t, rank);
    }
    acc := v[elems[root].hash];
    assert acc == Recalc(t, H, rank, t.up) by { Looked(t, H, rank, elems, v, t.up); }
    AccIff(t, H, rank, elems);
  }

  lemma {:induction false} Looked(t: Span, H: ListHash, rank: Hash -> nat, elems: seq<TreeElem>, v: Verified, h: Hash)
    requires VerifiedOk(t, H, rank, elems, v) && h in v
    ensures v[h] == Recalc(t, H, rank, h)
  {
  }

  /** Sender and receiver agree on the root's accumulated hash exactly when the tree point reaches down far enough. */
  lemma {:induction false} AccIff(t: Span, H: ListHash, rank: Hash -> nat, elems: seq<TreeElem>)
    requires Acyclic(t.store, rank) && AccOk(t.store, H) && t.up in t.store && TreeOk(t, elems)
    ensures PointAbove(t) ==> Recalc(t, H, rank, t.up) == t.store[t.up].acc
    ensures Injective(H) && Recalc(t, H, rank, t.up) == t.store[t.up].acc ==> PointAbove(t)
  {
    hide Recalc, Acyclic, AccOk, PointAbove, Injective, Followed, Reached;
    ReachedUp(t);
    forall h | Reached(t, h) && Followed(t, h)
      ensures LinksStored(t.store, h)
    {
      LinksOf(t, elems, h);
    }
    RecalcIff(t, H, rank, t.up);
    if PointAbove(t) {
      AboveIsSound(t, rank, t.up);
    }
    if Sound(t, rank, t.up) {
      SoundIsAbove(t, rank);
    }
  }

  lemma {:induction false} LinksOf(t: Span, elems: seq<TreeElem>, h: Hash)
    requires TreeOk(t, elems) && Reached(t, h) && Followed(t, h)
    ensures h in t.store && LinksStored(t.store, h)
  {
  }

  // ---------------------------------------------------------------- a tree point below the lower height

  /** A single chain with accumulated hashes, numbered from the genesis up. */
  function AccChain(H: ListHash, n: nat): (r: Store)
    ensures forall b :: b in r <==> 1 <= b <= n
  {
    if n == 0 then map[]
    else if n == 1 then map[1 := Block(0, 0, [], H([1]) + 1)]
    else AccChain(H, n - 1)[n := Block(n - 1, n - 1, [], H([AccChain(H, n - 1)[n - 1].acc, n]))]
  }

  lemma {:induction false} AccChainAt(H: ListHash, n: nat, b: nat)
    requires 1 <= b <= n
    ensures var r := AccChain(H, n);
            && r[b].height == b - 1 && r[b].parent == b - 1 && r[b].confirms == []
            && r[b].acc == if b == 1 then H([1]) + 1 else H([r[b - 1].acc, b])
  {
    if b < n {
      AccChainAt(H, n - 1, b);
    }
  }

  /** The chain of 22 blocks, and a block on top that confirms the genesis. */
  function Confirming(H: ListHash): Store {
    AccChain(H, 22)[23 := Block(22, 22, [1], H([AccChain(H, 22)[1].acc, AccChain(H, 22)[22].acc, 23]))]
  }

  lemma {:induction false} ConfirmingAt(H: ListHash, b: Hash)
    requires b in Confirming(H)
    ensures var r := Confirming(H);
            && 1 <= b <= 23 && r[b].height == b - 1 && r[b].parent == b - 1 && r[b].confirms == (if b == 23 then [1] else [])
            && (b == 1 ==> r[b].acc == H([1]) + 1) && (1 < b < 23 ==> r[b].acc == H([r[b - 1].acc, b]))
            && (b == 23 ==> r[b].acc == H([r[1].acc, r[22].acc, 23]))
  {
    hide AccChain;
    if b < 23 {
      AccChainAt(H, 22, b);
    }
  }

  /** Heights and links of that chain. */
  ghost predicate Shaped(r: Store) {
    && (forall b :: b in r <==> 1 <= b <= 23) && (forall b :: b in r ==> r[b].height == b - 1 && r[b].parent == b - 1)
    && (forall b :: b in r ==> r[b].confirms == if b == 23 then [1] else [])
  }

  lemma {:induction false} ConfirmingShaped(H: ListHash)
    ensures Shaped(Confirming(H))
  {
    var r := Confirming(H);
    assert forall b :: b in r <==> 1 <= b <= 23;
    hide Confirming, AccChain;
    forall b | b in r
      ensures r[b].height == b - 1 && r[b].parent == b - 1 && r[b].confirms == (if b == 23 then [1] else [])
    {
      ConfirmingAt(H, b);
    }
  }

  lemma {:induction false} ShapedOk(r: Store)
    requires Shaped(r)
    ensures StoreOk(r) && Acyclic(r, (b: Hash) => b)
  {
  }

  lemma {:induction false} ConfirmingOk(H: ListHash)
    ensures Shaped(Confirming(H)) && AccOk(Confirming(H), H)
  {
    ConfirmingShaped(H);
    hide Confirming, Accs;
    var r := Confirming(H);
    forall b | b in r
      ensures if LinksStored(r, b) then r[b].acc == H(Accs(r, Links(r[b])) + [b]) else r[b].acc != H([b])
    {
      if b == 1 {
        ConfirmingAt(H, 1);
        assert 0 in Links(r[1]);
      } else {
        ConfirmingAcc(H, b);
      }
    }
  }

  lemma {:induction false} ConfirmingAcc(H: ListHash, b: Hash)
    requires 1 < b <= 23 && Shaped(Confirming(H))
    ensures LinksStored(Confirming(H), b) && Confirming(H)[b].acc == H(Accs(Confirming(H), Links(Confirming(H)[b])) + [b])
  {
    hide Confirming, Accs;
    var r := Confirming(H);
    ConfirmingAt(H, b);
    var l := Links(r[b]);
    if b == 23 {
      assert l == [1, 22];
      AccsTwo(r, 1, 22);
      assert Accs(r, l) + [b] == [r[1].acc, r[22].acc, 23];
    } else {
      assert l == [b - 1];
      AccsOne(r, b - 1);
      assert Accs(r, l) + [b] == [r[b - 1].acc, b];
    }
  }

  lemma {:induction false} AccsOne(r: Store, x: Hash)
    requires x in r
    ensures Accs(r, [x]) == [r[x].acc]
  {
  }

  lemma {:induction false} AccsTwo(r: Store, x: Hash, y: Hash)
    requires x in r && y in r
    ensures Accs(r, [x, y]) == [r[x].acc, r[y].acc]
  {
    assert [x, y][..1] == [x];
  }

  /**
   * The sender's tree for this chain, from the second block to the top with a greedy bound of 20, makes the receiver
   * recompute another accumulated hash: the confirmed genesis lies below the lower height.
   */
  method WrongAccHash(H: ListHash) returns (acc: nat, want: nat)
    requires Injective(H)
    ensures acc != want
  {
    hide Confirming, AccChain, StoreOk, Acyclic, AccOk, TreeOk, PointExact, Injective, OnPath, Broken, PathBroken, PointAbove, InTreePoint;
    var store := Confirming(H);
    ConfirmingInput(H);
    ghost var t := Span(store, 23, 1, 20);
    var r := CreateHashTree(store, 1, 2, 23, 20);
    NoError(r);
    acc := CalcAccHash(H, r.value.elems, r.value.root, r.value.pairs, t, (b: Hash) => b);
    want := store[23].acc;
  }

  lemma {:induction false} NoError(r: Result<Created, TreeError>)
    requires r != Err(BlockNotFound) && r != Err(HeightDiffNotMeet) && r != Err(Overrun)
    ensures r.Ok?
  {
    match r
    case Ok(_) =>
    case Err(e) =>
      match e
      case BlockNotFound =>
      case HeightDiffNotMeet =>
      case Overrun =>
  }

  lemma {:induction false} ConfirmingInput(H: ListHash)
    ensures var r := Confirming(H);
            var t := Span(r, 23, 1, 20);
            && StoreOk(r) && Acyclic(r, (b: Hash) => b) && AccOk(r, H) && 2 in r && 23 in r && r[2].height == 1 && r[23].height == 22
            && !InTreePoint(t, 23) && (forall h :: !Broken(t, h)) && !PathBroken(r, 23, 1 - Before(1)) && !PointAbove(t)
  {
    hide Confirming, StoreOk, Acyclic, AccOk, Broken, PathBroken, PointAbove;
    ConfirmingOk(H);
    ShapedOk(Confirming(H));
    ConfirmingWhole(Span(Confirming(H), 23, 1, 20));
  }

  lemma {:induction false} ConfirmingWhole(t: Span)
    requires t.up == 23 && t.below == 1 && t.greedy == 20 && StoreOk(t.store) && Shaped(t.store)
    ensures (forall h :: !Broken(t, h)) && !PathBroken(t.store, 23, 0) && !PointAbove(t)
  {
    hide StoreOk, IsAncestor;
    ReachedUp(t);
    assert 1 in Links(t.store[23]);
    ReachedNext(t, 23, 1);
  }
}
