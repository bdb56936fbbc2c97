/**
 * Hash trees for fixpoint sync (chain/hash_tree_handler.go): the blocks between an upper block and a
 * tree point, as an array whose elements refer to their parent and confirms by index.
 */
module HashTree {
  import opened Common
  import opened HashSeqs

  datatype Block = Block(height: nat, parent: Hash, confirms: seq<Hash>, acc: nat)

  type Store = map<Hash, Block>

  /** Parents lie one lower, and no block confirms itself. */
  ghost predicate StoreOk(store: Store) {
    forall b :: b in store ==>
      && b !in store[b].confirms
      && (store[b].parent in store ==> store[b].height == store[store[b].parent].height + 1)
  }

  /** Where an element's parent is found: at an index, beyond the tree, or not known yet. */
  datatype Link = At(index: nat) | TreePoint | UnCompleted

  datatype TreeElem = TreeElem(hash: Hash, confirms: seq<nat>, parent: Link)

  datatype Pair = Pair(hash: Hash, acc: nat)

  /** What the construction is about: the stored blocks, the upper block, the lower height, the greedy bound. */
  datatype Span = Span(store: Store, up: Hash, below: nat, greedy: nat)

  datatype State = State(elems: seq<TreeElem>, index: map<Hash, nat>, stack: seq<Hash>, pairs: seq<Pair>)

  /** `checkInTreePoint`. */
  predicate InTreePoint(t: Span, h: Hash)
    requires h in t.store
  {
    if t.below == 0 then t.store[h].height == 0 else t.store[h].height <= t.below + t.greedy
  }

  /** The upper block is always followed, others unless they belong to the tree point. */
  ghost predicate Followed(t: Span, h: Hash) {
    h in t.store && (h == t.up || !InTreePoint(t, h))
  }

  function Links(b: Block): seq<Hash> {
    b.confirms + [b.parent]
  }

  /** A path of links from the upper block through followed blocks. */
  ghost predicate LinkPath(t: Span, path: seq<Hash>) {
    path != [] && path[0] == t.up && forall i :: 0 <= i < |path| - 1 ==> LinkStep(t, path, i)
  }

  ghost predicate LinkStep(t: Span, path: seq<Hash>, i: nat)
    requires i < |path| - 1
  {
    Followed(t, path[i]) && path[i + 1] in Links(t.store[path[i]])
  }

  /** The closure of the upper block under parent and confirm links, stopped at the tree point. */
  ghost predicate Reached(t: Span, h: Hash) {
    exists path :: LinkPath(t, path) && path[|path| - 1] == h
  }

  lemma {:induction false} ReachedUp(t: Span)
    ensures Reached(t, t.up)
  {
    assert LinkPath(t, [t.up]);
  }

  lemma {:induction false} ReachedNext(t: Span, h: Hash, u: Hash)
    requires Reached(t, h) && Followed(t, h) && u in Links(t.store[h])
    ensures Reached(t, u)
  {
    var path :| LinkPath(t, path) && path[|path| - 1] == h;
    var more := path + [u];
    forall i | 0 <= i < |more| - 1
      ensures LinkStep(t, more, i)
    {
      if i < |path| - 1 {
        assert LinkStep(t, path, i);
      }
    }
    assert LinkPath(t, more) && more[|more| - 1] == u;
  }

  // ---------------------------------------------------------------- the tree point's pairs

  function PairNames(pairs: seq<Pair>): set<Hash> {
    set p | p in pairs :: p.hash
  }

  /** `a` is `b` or one of its ancestors. */
  ghost predicate IsAncestor(store: Store, b: Hash, a: Hash)
    requires StoreOk(store)
    decreases if b in store then store[b].height + 1 else 0
  {
    b in store && (a == b || (store[b].parent in store && IsAncestor(store, store[b].parent, a)))
  }

  /** `addParentListToTreePoint`: a block and its parents, down to the lower height or one already there. */
  ghost function AddAncestors(t: Span, pairs: seq<Pair>, b: Hash): seq<Pair>
    requires StoreOk(t.store)
    decreases if b in t.store then t.store[b].height + 1 else 0
  {
    if b !in t.store || t.store[b].height < t.below || b in PairNames(pairs) then pairs
    else
      var more := pairs + [Pair(b, t.store[b].acc)];
      if t.store[b].parent !in t.store then more else AddAncestors(t, more, t.store[b].parent)
  }

  /** Pairs are stored blocks with their accumulated hash, each once; with a block its parent is listed, save for `but`. */
  ghost predicate PairsOk(t: Span, pairs: seq<Pair>, but: set<Hash>) {
    && (forall i, j :: 0 <= i < j < |pairs| ==> pairs[i].hash != pairs[j].hash)
    && (forall i :: 0 <= i < |pairs| ==> PairOk(t, pairs[i]))
    && (forall i :: 0 <= i < |pairs| ==> ParentListed(t, pairs, pairs[i].hash, but))
  }

  ghost predicate PairOk(t: Span, p: Pair) {
    p.hash in t.store && p.acc == t.store[p.hash].acc && t.store[p.hash].height >= t.below
  }

  ghost predicate ParentListed(t: Span, pairs: seq<Pair>, h: Hash, but: set<Hash>)
    requires h in t.store
  {
    var p := t.store[h].parent;
    p in t.store && t.store[p].height >= t.below ==> p in PairNames(pairs) || p in but
  }

  lemma {:induction false} AddAncestorsOk(t: Span, pairs: seq<Pair>, b: Hash)
    requires StoreOk(t.store) && PairsOk(t, pairs, {b})
    ensures PairsOk(t, AddAncestors(t, pairs, b), {})
    ensures PairNames(pairs) <= PairNames(AddAncestors(t, pairs, b))
    ensures b in t.store && t.store[b].height >= t.below ==> b in PairNames(AddAncestors(t, pairs, b))
    ensures forall a :: a in PairNames(AddAncestors(t, pairs, b)) ==> a in PairNames(pairs) || IsAncestor(t.store, b, a)
    decreases if b in t.store then t.store[b].height + 1 else 0
  {
    hide StoreOk;
    if b !in t.store || t.store[b].height < t.below || b in PairNames(pairs) {
      PairsStop(t, pairs, b);
    } else {
      var more := pairs + [Pair(b, t.store[b].acc)];
      PairsMore(t, pairs, b);
      if t.store[b].parent in t.store {
        ParentHeight(t.store, b);
        AddAncestorsOk(t, more, t.store[b].parent);
      } else {
        PairsStop(t, more, t.store[b].parent);
      }
    }
  }

  lemma {:induction false} ParentHeight(store: Store, b: Hash)
    requires StoreOk(store) && b in store && store[b].parent in store
    ensures store[b].height == store[store[b].parent].height + 1
  {
  }

  lemma {:induction false} PairsStop(t: Span, pairs: seq<Pair>, b: Hash)
    requires PairsOk(t, pairs, {b}) && (b !in t.store || t.store[b].height < t.below || b in PairNames(pairs))
    ensures PairsOk(t, pairs, {})
  {
  }

  lemma {:induction false} PairsMore(t: Span, pairs: seq<Pair>, b: Hash)
    requires PairsOk(t, pairs, {b}) && b in t.store && t.store[b].height >= t.below && b !in PairNames(pairs)
    ensures PairsOk(t, pairs + [Pair(b, t.store[b].acc)], {t.store[b].parent})
    ensures PairNames(pairs + [Pair(b, t.store[b].acc)]) == PairNames(pairs) + {b}
  {
  }

  /** Listed parents make the pairs closed under ancestors above the lower height. */
  lemma {:induction false} AncestorsListed(t: Span, pairs: seq<Pair>, b: Hash, a: Hash)
    requires StoreOk(t.store) && PairsOk(t, pairs, {}) && IsAncestor(t.store, b, a)
    requires a in t.store && t.store[a].height >= t.below && b in PairNames(pairs)
    ensures a in PairNames(pairs)
    decreases if b in t.store then t.store[b].height + 1 else 0
  {
    hide StoreOk;
    if a != b {
      ParentHeight(t.store, b);
      var i :| 0 <= i < |pairs| && pairs[i].hash == b;
      assert ParentListed(t, pairs, pairs[i].hash, {});
      AncestorHeight(t.store, t.store[b].parent, a);
      AncestorsListed(t, pairs, t.store[b].parent, a);
    }
  }

  lemma {:induction false} AncestorHeight(store: Store, b: Hash, a: Hash)
    requires StoreOk(store) && IsAncestor(store, b, a)
    ensures a in store && store[a].height <= store[b].height && (store[a].height == store[b].height ==> a == b)
    decreases if b in store then store[b].height + 1 else 0
  {
    hide StoreOk;
    if a != b {
      ParentHeight(store, b);
      AncestorHeight(store, store[b].parent, a);
    }
  }

  // ---------------------------------------------------------------- the elements

  /** The index finds every element, and every element is indexed: no hash occurs twice. */
  ghost predicate IndexOk(s: State) {
    && (forall h :: h in s.index ==> s.index[h] < |s.elems| && s.elems[s.index[h]].hash == h)
    && (forall i :: 0 <= i < |s.elems| ==> s.elems[i].hash in s.index && s.index[s.elems[i].hash] == i)
  }

  /** An element resolves to the real parent and confirms of its block. */
  ghost predicate Resolves(t: Span, elems: seq<TreeElem>, e: TreeElem) {
    && e.hash in t.store && e.parent.At?
    && e.parent.index < |elems| && elems[e.parent.index].hash == t.store[e.hash].parent
    && |e.confirms| == |t.store[e.hash].confirms|
    && forall j :: 0 <= j < |e.confirms| ==> e.confirms[j] < |elems| && elems[e.confirms[j]].hash == t.store[e.hash].confirms[j]
  }

  /** Elements are pending on the stack, at the tree point, or complete. */
  ghost predicate ElemOk(t: Span, elems: seq<TreeElem>, stack: seq<Hash>, e: TreeElem) {
    && e.hash in t.store && Reached(t, e.hash)
    && match e.parent
       case UnCompleted => e.hash in stack && e.hash != t.up && !InTreePoint(t, e.hash) && e.confirms == []
       case TreePoint => e.hash != t.up && InTreePoint(t, e.hash) && e.confirms == []
       case At(_) => Followed(t, e.hash) && Resolves(t, elems, e)
  }

  ghost predicate ElemsOk(t: Span, s: State) {
    forall i :: 0 <= i < |s.elems| ==> ElemOk(t, s.elems, s.stack, s.elems[i])
  }

  /** Only followed blocks wait on the stack. */
  ghost predicate StackOk(t: Span, s: State) {
    forall h :: h in s.stack ==> Followed(t, h) && Reached(t, h) && (h in s.index || h == t.up)
  }

  /** The pairs are the tree point's elements and their ancestors, down to the lower height. */
  ghost predicate PointOk(t: Span, s: State)
    requires StoreOk(t.store)
  {
    && PairsOk(t, s.pairs, {})
    && (forall i :: 0 <= i < |s.elems| && s.elems[i].parent.TreePoint? ==> Above(t, s.elems[i].hash, s.pairs))
    && (forall a :: a in PairNames(s.pairs) ==> FromPoint(t, s.elems, a))
  }

  ghost predicate Above(t: Span, h: Hash, pairs: seq<Pair>) {
    h in t.store && t.store[h].height >= t.below ==> h in PairNames(pairs)
  }

  ghost predicate FromPoint(t: Span, elems: seq<TreeElem>, a: Hash)
    requires StoreOk(t.store)
  {
    exists i :: 0 <= i < |elems| && elems[i].parent.TreePoint? && IsAncestor(t.store, elems[i].hash, a)
  }

  ghost predicate Inv(t: Span, s: State) {
    StoreOk(t.store) && IndexOk(s) && ElemsOk(t, s) && StackOk(t, s) && PointOk(t, s)
  }

  /** Completed elements. */
  ghost function Done(s: State): set<Hash> {
    set e | e in s.elems && !e.parent.UnCompleted? :: e.hash
  }

  predicate IsDone(s: State, h: Hash)
    requires h in s.index ==> s.index[h] < |s.elems|
  {
    h in s.index && !s.elems[s.index[h]].parent.UnCompleted?
  }

  // ---------------------------------------------------------------- adding an element

  /** A fresh element at the end changes nothing for the others. */
  lemma {:induction false} AppendOthers(t: Span, elems: seq<TreeElem>, stack: seq<Hash>, e: TreeElem, x: TreeElem, more: seq<Hash>)
    requires ElemOk(t, elems, stack, x) && forall h :: h in stack ==> h in more
    ensures ElemOk(t, elems + [e], more, x)
  {
  }

  lemma {:induction false} AppendElem(t: Span, s: State, e: TreeElem, stack: seq<Hash>)
    requires IndexOk(s) && ElemsOk(t, s) && e.hash !in s.index && (forall h :: h in s.stack ==> h in stack)
    requires ElemOk(t, s.elems + [e], stack, e)
    ensures var r := s.(elems := s.elems + [e], index := s.index[e.hash := |s.elems|], stack := stack);
            IndexOk(r) && ElemsOk(t, r)
  {
    hide ElemOk;
    forall i | 0 <= i < |s.elems|
      ensures ElemOk(t, s.elems + [e], stack, s.elems[i])
    {
      AppendOthers(t, s.elems, s.stack, e, s.elems[i], stack);
    }
  }

  /** The pairs only look at elements of the tree point. */
  lemma {:induction false} PointSame(t: Span, s: State, e: TreeElem)
    requires StoreOk(t.store) && PointOk(t, s) && !e.parent.TreePoint?
    ensures PointOk(t, s.(elems := s.elems + [e]))
  {
    hide PairsOk, PairNames, IsAncestor;
    forall a | a in PairNames(s.pairs)
      ensures FromPoint(t, s.elems + [e], a)
    {
      var i :| 0 <= i < |s.elems| && s.elems[i].parent.TreePoint? && IsAncestor(t.store, s.elems[i].hash, a);
      assert (s.elems + [e])[i] == s.elems[i];
    }
  }

  /** A new element of the tree point brings its ancestors. */
  lemma {:induction false} PointMore(t: Span, s: State, u: Hash)
    requires StoreOk(t.store) && PointOk(t, s) && u in t.store
    ensures PointOk(t, s.(elems := s.elems + [TreeElem(u, [], TreePoint)], pairs := AddAncestors(t, s.pairs, u)))
  {
    hide AddAncestors, PairNames, IsAncestor;
    var e := TreeElem(u, [], TreePoint);
    var r := s.(elems := s.elems + [e], pairs := AddAncestors(t, s.pairs, u));
    PairsButMore(t, s.pairs, u);
    AddAncestorsOk(t, s.pairs, u);
    hide PairsOk;
    forall a | a in PairNames(r.pairs)
      ensures FromPoint(t, r.elems, a)
    {
      if a in PairNames(s.pairs) {
        var i :| 0 <= i < |s.elems| && s.elems[i].parent.TreePoint? && IsAncestor(t.store, s.elems[i].hash, a);
        assert r.elems[i] == s.elems[i];
      } else {
        assert r.elems[|s.elems|] == e;
      }
    }
  }

  lemma {:induction false} PairsButMore(t: Span, pairs: seq<Pair>, b: Hash)
    requires PairsOk(t, pairs, {})
    ensures PairsOk(t, pairs, {b})
  {
  }

  /** Elements and index only grow, and what is added is not complete. */
  ghost predicate Grows(a: State, b: State) {
    && a.elems <= b.elems && a.stack <= b.stack
    && (forall h :: h in a.index ==> h in b.index && b.index[h] == a.index[h])
    && (forall i :: |a.elems| <= i < |b.elems| ==> !b.elems[i].parent.At?)
  }

  lemma {:induction false} GrowsTrans(a: State, b: State, c: State)
    requires Grows(a, b) && Grows(b, c)
    ensures Grows(a, c)
  {
  }

  /** A link that is not indexed yet becomes an element. */
  ghost function Linked(t: Span, s: State, u: Hash): State
    requires StoreOk(t.store) && u in t.store
  {
    if InTreePoint(t, u) then
      var pairs := AddAncestors(t, s.pairs, u);
      if u in s.index then s.(pairs := pairs)
      else s.(elems := s.elems + [TreeElem(u, [], TreePoint)], index := s.index[u := |s.elems|], pairs := pairs)
    else if u in s.index then s
    else s.(elems := s.elems + [TreeElem(u, [], UnCompleted)], index := s.index[u := |s.elems|], stack := s.stack + [u])
  }

  ghost predicate NotComplete(s: State, u: Hash) {
    u in s.index && s.index[u] < |s.elems| ==> !s.elems[s.index[u]].parent.At?
  }

  lemma {:induction false} LinkedOk(t: Span, s: State, u: Hash)
    requires Inv(t, s) && u in t.store && u != t.up && Reached(t, u) && NotComplete(s, u)
    ensures Inv(t, Linked(t, s, u)) && u in Linked(t, s, u).index && Grows(s, Linked(t, s, u))
  {
    hide Reached, AddAncestors, PointOk;
    var r := Linked(t, s, u);
    if u in s.index {
      LinkedAgain(t, s, u);
    } else if InTreePoint(t, u) {
      AppendElem(t, s, TreeElem(u, [], TreePoint), s.stack);
      PointMore(t, s, u);
      PointFrame(t, s.(elems := s.elems + [TreeElem(u, [], TreePoint)], pairs := r.pairs), r);
    } else {
      assert u in s.stack + [u];
      AppendElem(t, s, TreeElem(u, [], UnCompleted), s.stack + [u]);
      PointSame(t, s, TreeElem(u, [], UnCompleted));
      PointFrame(t, s.(elems := s.elems + [TreeElem(u, [], UnCompleted)]), r);
    }
  }

  lemma {:induction false} PointFrame(t: Span, a: State, b: State)
    requires StoreOk(t.store) && PointOk(t, a) && b.elems == a.elems && b.pairs == a.pairs
    ensures PointOk(t, b)
  {
  }

  lemma {:induction false} LinkedAgain(t: Span, s: State, u: Hash)
    requires Inv(t, s) && u in t.store && u in s.index && NotComplete(s, u)
    ensures Linked(t, s, u) == s
  {
  }

  // ---------------------------------------------------------------- completing an element

  /** The completed element of a block all of whose links are indexed. */
  function Finished(b: Block, h: Hash, index: map<Hash, nat>): TreeElem
    requires b.parent in index && forall c :: c in b.confirms ==> c in index
  {
    TreeElem(h, seq(|b.confirms|, j requires 0 <= j < |b.confirms| => index[b.confirms[j]]), At(index[b.parent]))
  }

  lemma {:induction false} FinishedResolves(t: Span, s: State, h: Hash, elems: seq<TreeElem>)
    requires IndexOk(s) && h in t.store && t.store[h].parent in s.index && forall c :: c in t.store[h].confirms ==> c in s.index
    requires |s.elems| <= |elems| && forall i :: 0 <= i < |s.elems| ==> elems[i].hash == s.elems[i].hash
    ensures Resolves(t, elems, Finished(t.store[h], h, s.index))
  {
  }

  /** Completing a pending element in place. */
  lemma {:induction false} CompleteOld(t: Span, s: State, h: Hash)
    requires Inv(t, s) && h in s.index && s.elems[s.index[h]].parent.UnCompleted?
    requires h in t.store && t.store[h].parent in s.index && forall c :: c in t.store[h].confirms ==> c in s.index
    ensures var r := s.(elems := s.elems[s.index[h] := Finished(t.store[h], h, s.index)]);
            Inv(t, r) && Done(r) == Done(s) + {h}
  {
    hide Reached, Finished, InTreePoint, PointOk, ElemOk, Done;
    var k, e := s.index[h], Finished(t.store[h], h, s.index);
    FinishedHash(t.store[h], h, s.index);
    FinishedResolves(t, s, h, s.elems[k := e]);
    var n := s.elems[k := e];
    forall i | 0 <= i < |n|
      ensures ElemOk(t, n, s.stack, n[i])
    {
      CompleteElem(t, s.elems, s.stack, k, e, i);
    }
    CompletePoint(t, s, k, e);
    CompleteDone(s, k, e);
  }

  lemma {:induction false} CompleteElem(t: Span, elems: seq<TreeElem>, stack: seq<Hash>, k: nat, e: TreeElem, i: nat)
    requires k < |elems| && i < |elems| && ElemOk(t, elems, stack, elems[k]) && ElemOk(t, elems, stack, elems[i])
    requires elems[k].parent.UnCompleted? && e.hash == elems[k].hash && Resolves(t, elems[k := e], e)
    ensures ElemOk(t, elems[k := e], stack, elems[k := e][i])
  {
  }

  lemma {:induction false} FinishedHash(b: Block, h: Hash, index: map<Hash, nat>)
    requires b.parent in index && forall c :: c in b.confirms ==> c in index
    ensures Finished(b, h, index).hash == h && Finished(b, h, index).parent.At?
  {
  }

  lemma {:induction false} CompletePoint(t: Span, s: State, k: nat, e: TreeElem)
    requires StoreOk(t.store) && PointOk(t, s) && k < |s.elems| && s.elems[k].parent.UnCompleted? && !e.parent.TreePoint?
    ensures PointOk(t, s.(elems := s.elems[k := e]))
  {
    hide PairsOk, PairNames, IsAncestor;
    var r := s.(elems := s.elems[k := e]);
    forall a | a in PairNames(s.pairs)
      ensures FromPoint(t, r.elems, a)
    {
      var i :| 0 <= i < |s.elems| && s.elems[i].parent.TreePoint? && IsAncestor(t.store, s.elems[i].hash, a);
      assert r.elems[i] == s.elems[i];
    }
  }

  lemma {:induction false} CompleteDone(s: State, k: nat, e: TreeElem)
    requires k < |s.elems| && s.elems[k].parent.UnCompleted? && !e.parent.UnCompleted?
    ensures Done(s.(elems := s.elems[k := e])) == Done(s) + {e.hash}
  {
    var r := s.(elems := s.elems[k := e]);
    forall x | x in s.elems && !x.parent.UnCompleted?
      ensures x in r.elems
    {
      var i :| 0 <= i < |s.elems| && s.elems[i] == x;
      assert r.elems[i] == x;
    }
    assert r.elems[k] == e;
    forall x | x in r.elems && x != e
      ensures x in s.elems
    {
      var i :| 0 <= i < |r.elems| && r.elems[i] == x;
      assert s.elems[i] == x;
    }
  }

  /** The upper block is appended complete. */
  lemma {:induction false} CompleteNew(t: Span, s: State)
    requires Inv(t, s) && t.up !in s.index && t.up in t.store
    requires t.store[t.up].parent in s.index && forall c :: c in t.store[t.up].confirms ==> c in s.index
    ensures var r := s.(elems := s.elems + [Finished(t.store[t.up], t.up, s.index)], index := s.index[t.up := |s.elems|]);
            Inv(t, r) && Done(r) == Done(s) + {t.up}
  {
    hide Reached, Finished, InTreePoint, PointOk;
    var e := Finished(t.store[t.up], t.up, s.index);
    ReachedUp(t);
    FinishedHash(t.store[t.up], t.up, s.index);
    FinishedResolves(t, s, t.up, s.elems + [e]);
    AppendElem(t, s, e, s.stack);
    PointSame(t, s, e);
    PointFrame(t, s.(elems := s.elems + [e]), s.(elems := s.elems + [e], index := s.index[t.up := |s.elems|]));
  }

  // ---------------------------------------------------------------- the construction

  /** Popping a completed block off the stack. */
  lemma {:induction false} PopOk(t: Span, s: State)
    requires Inv(t, s) && s.stack != [] && IsDone(s, s.stack[|s.stack| - 1])
    ensures Inv(t, s.(stack := s.stack[..|s.stack| - 1])) && Done(s.(stack := s.stack[..|s.stack| - 1])) == Done(s)
  {
    hide Reached, InTreePoint, PointOk;
    var top, r := s.stack[|s.stack| - 1], s.(stack := s.stack[..|s.stack| - 1]);
    forall i | 0 <= i < |s.elems|
      ensures ElemOk(t, r.elems, r.stack, r.elems[i])
    {
      assert ElemOk(t, s.elems, s.stack, s.elems[i]);
      if s.elems[i].parent.UnCompleted? {
        var j :| 0 <= j < |s.stack| && s.stack[j] == s.elems[i].hash;
        assert r.stack[j] == s.stack[j];
      }
    }
    PointFrame(t, s, r);
  }

  lemma {:induction false} DoneIff(s: State, h: Hash)
    requires IndexOk(s)
    ensures IsDone(s, h) <==> h in Done(s)
  {
  }

  /** What a finished construction returns. */
  ghost predicate TreeOk(t: Span, elems: seq<TreeElem>) {
    && (forall i, j :: 0 <= i < j < |elems| ==> elems[i].hash != elems[j].hash)
    && (forall h :: Reached(t, h) <==> exists i :: 0 <= i < |elems| && elems[i].hash == h)
    && (forall i :: 0 <= i < |elems| ==> Final(t, elems, elems[i]))
  }

  /** A followed block resolves its links; one of the tree point has none. */
  ghost predicate Final(t: Span, elems: seq<TreeElem>, e: TreeElem) {
    e.hash in t.store && if Followed(t, e.hash) then Resolves(t, elems, e) else e.parent == TreePoint && e.confirms == []
  }

  /** The tree point's pairs: each followed-no-further block and its ancestors from the lower height on, once. */
  ghost predicate PointExact(t: Span, elems: seq<TreeElem>, pairs: seq<Pair>)
    requires StoreOk(t.store)
  {
    && (forall i, j :: 0 <= i < j < |pairs| ==> pairs[i].hash != pairs[j].hash)
    && (forall i :: 0 <= i < |pairs| ==> PairOk(t, pairs[i]))
    && (forall a :: a in PairNames(pairs) <==> a in t.store && t.store[a].height >= t.below && FromPoint(t, elems, a))
  }

  lemma {:induction false} AllFound(t: Span, s: State, path: seq<Hash>)
    requires Inv(t, s) && s.stack == [] && IsDone(s, t.up) && LinkPath(t, path)
    ensures path[|path| - 1] in s.index
  {
    hide Reached, InTreePoint, PointOk;
    if |path| > 1 {
      var init := path[..|path| - 1];
      assert forall i :: 0 <= i < |init| - 1 ==> LinkStep(t, path, i) ==> LinkStep(t, init, i);
      assert LinkPath(t, init);
      AllFound(t, s, init);
      var p, u := path[|path| - 2], path[|path| - 1];
      assert LinkStep(t, path, |path| - 2);
      var i := s.index[p];
      assert ElemOk(t, s.elems, s.stack, s.elems[i]);
      LinkFound(t, s, s.elems[i], u);
    }
  }

  lemma {:induction false} LinkFound(t: Span, s: State, e: TreeElem, u: Hash)
    requires IndexOk(s) && Resolves(t, s.elems, e) && u in Links(t.store[e.hash])
    ensures u in s.index
  {
  }

  lemma {:induction false} Finish(t: Span, s: State)
    requires Inv(t, s) && s.stack == [] && IsDone(s, t.up)
    ensures TreeOk(t, s.elems) && PointExact(t, s.elems, s.pairs)
  {
    hide Reached, PointOk;
    forall h
      ensures Reached(t, h) <==> exists i :: 0 <= i < |s.elems| && s.elems[i].hash == h
    {
      FinishFound(t, s, h);
    }
    forall i | 0 <= i < |s.elems|
      ensures Final(t, s.elems, s.elems[i])
    {
      assert ElemOk(t, s.elems, s.stack, s.elems[i]);
    }
    FinishPoint(t, s);
  }

  lemma {:induction false} FinishFound(t: Span, s: State, h: Hash)
    requires Inv(t, s) && s.stack == [] && IsDone(s, t.up)
    ensures Reached(t, h) <==> exists i :: 0 <= i < |s.elems| && s.elems[i].hash == h
  {
    hide PointOk, LinkStep, InTreePoint;
    if Reached(t, h) {
      var path :| LinkPath(t, path) && path[|path| - 1] == h;
      AllFound(t, s, path);
      assert s.elems[s.index[h]].hash == h;
    }
    if i :| 0 <= i < |s.elems| && s.elems[i].hash == h {
      assert ElemOk(t, s.elems, s.stack, s.elems[i]);
    }
  }

  lemma {:induction false} FinishPoint(t: Span, s: State)
    requires StoreOk(t.store) && PointOk(t, s)
    ensures PointExact(t, s.elems, s.pairs)
  {
    hide IsAncestor;
    forall a | a in t.store && t.store[a].height >= t.below && FromPoint(t, s.elems, a)
      ensures a in PairNames(s.pairs)
    {
      var i :| 0 <= i < |s.elems| && s.elems[i].parent.TreePoint? && IsAncestor(t.store, s.elems[i].hash, a);
      AncestorHeight(t.store, s.elems[i].hash, a);
      IsStored(t.store, s.elems[i].hash, a);
      assert Above(t, s.elems[i].hash, s.pairs);
      AncestorsListed(t, s.pairs, s.elems[i].hash, a);
    }
  }

  lemma {:induction false} IsStored(store: Store, b: Hash, a: Hash)
    requires StoreOk(store) && IsAncestor(store, b, a)
    ensures b in store
  {
  }

  /** `addParentListToTreePoint`. */
  method AddParentList(t: Span, pairs: seq<Pair>, b: Hash) returns (r: seq<Pair>)
    requires StoreOk(t.store) && b in t.store
    ensures r == AddAncestors(t, pairs, b)
  {
    hide StoreOk, PairNames;
    var cur := b;
    r := pairs;
    while t.store[cur].height >= t.below && cur !in PairNames(r)
      invariant cur in t.store && AddAncestors(t, r, cur) == AddAncestors(t, pairs, b)
      decreases t.store[cur].height
    {
      r := r + [Pair(cur, t.store[cur].acc)];
      if t.store[cur].parent !in t.store {
        return;
      }
      ParentHeight(t.store, cur);
      cur := t.store[cur].parent;
    }
  }

  /** One unfinished link of the block on top of the stack. */
  method AddLink(t: Span, s: State, u: Hash) returns (r: State)
    requires StoreOk(t.store) && u in t.store
    ensures r == Linked(t, s, u)
  {
    hide AddAncestors, StoreOk;
    var known := u in s.index;
    r := s;
    if InTreePoint(t, u) {
      if !known {
        r := r.(elems := r.elems + [TreeElem(u, [], TreePoint)], index := r.index[u := |r.elems|]);
      }
      var pairs := AddParentList(t, s.pairs, u);
      r := r.(pairs := pairs);
    } else if !known {
      r := r.(elems := r.elems + [TreeElem(u, [], UnCompleted)], index := r.index[u := |r.elems|], stack := r.stack + [u]);
    }
  }

  /** The links of a block that are not complete, confirms first. */
  method Unfinished(s: State, links: seq<Hash>) returns (us: seq<Hash>)
    requires IndexOk(s)
    ensures forall u :: u in us <==> u in links && !IsDone(s, u)
  {
    us := [];
    for i := 0 to |links|
      invariant forall u :: u in us <==> u in links[..i] && !IsDone(s, u)
    {
      assert links[..i + 1] == links[..i] + [links[i]];
      if !IsDone(s, links[i]) {
        us := us + [links[i]];
      }
    }
    assert links[..|links|] == links;
  }

  /** Enter the unfinished links of a followed block. */
  method EnterLinks(t: Span, s: State, h: Hash, us: seq<Hash>) returns (r: State)
    requires Inv(t, s) && Followed(t, h) && Reached(t, h) && !IsDone(s, h) && (h == t.up || IsDone(s, t.up))
    requires forall u :: u in us ==> u in Links(t.store[h]) && u in t.store && !IsDone(s, u)
    ensures Inv(t, r) && Grows(s, r) && forall u :: u in us ==> u in r.index
    ensures (t.up in r.index <==> t.up in s.index) && (us == [] ==> r == s)
  {
    hide Inv, Reached, Grows, Linked, NotComplete, Followed, LinkPath;
    GrowsSelf(s);
    r := s;
    for i := 0 to |us|
      invariant Inv(t, r) && Grows(s, r) && forall u :: u in us[..i] ==> u in r.index
      invariant (t.up in r.index <==> t.up in s.index) && (i == 0 ==> r == s)
    {
      var u := us[i];
      NotUp(t, s, h, u);
      ReachedNext(t, h, u);
      StillNotComplete(t, s, r, u);
      LinkedOk(t, r, u);
      ghost var m := r;
      InvStore(t, r);
      r := AddLink(t, r, u);
      LinkedUp(t, m, u);
      GrowsTrans(s, m, r);
      GrowsIndex(m, r);
      assert us[..i + 1] == us[..i] + [u];
    }
    assert us[..|us|] == us;
  }

  lemma {:induction false} LinkedUp(t: Span, s: State, u: Hash)
    requires StoreOk(t.store) && u in t.store && u != t.up
    ensures t.up in Linked(t, s, u).index <==> t.up in s.index
  {
  }

  lemma {:induction false} GrowsSelf(s: State)
    ensures Grows(s, s)
  {
  }

  lemma {:induction false} GrowsIndex(a: State, b: State)
    requires Grows(a, b)
    ensures forall h :: h in a.index ==> h in b.index
  {
  }

  lemma {:induction false} InvStore(t: Span, s: State)
    requires Inv(t, s)
    ensures StoreOk(t.store) && IndexOk(s)
  {
  }

  /** A link that is not complete is not the upper block. */
  lemma {:induction false} NotUp(t: Span, s: State, h: Hash, u: Hash)
    requires Inv(t, s) && Followed(t, h) && (h == t.up || IsDone(s, t.up)) && u in Links(t.store[h]) && u in t.store && !IsDone(s, u)
    ensures u != t.up
  {
  }

  lemma {:induction false} StillNotComplete(t: Span, s: State, r: State, u: Hash)
    requires Inv(t, s) && Inv(t, r) && Grows(s, r) && !IsDone(s, u)
    ensures NotComplete(r, u)
  {
  }

  /** Expand the block on top of the stack: enter its links, then complete it. */
  method Expand(t: Span, s: State) returns (r: State, waiting: bool)
    requires Inv(t, s) && s.stack != []
    requires var h := s.stack[|s.stack| - 1];
             && !IsDone(s, h) && (h == t.up || IsDone(s, t.up)) && h in t.store
             && forall u :: u in Links(t.store[h]) ==> u in t.store
    ensures Inv(t, r) && Done(s) + {s.stack[|s.stack| - 1]} <= Done(r)
    ensures forall x :: x in s.index ==> x in r.index && r.index[x] == s.index[x]
    ensures s.stack[|s.stack| - 1] == t.up ==> t.up in r.index && r.index[t.up] == |r.elems| - 1
    ensures waiting <==> exists u :: u in Links(t.store[s.stack[|s.stack| - 1]]) && !IsDone(s, u)
  {
    hide Inv, Reached, Grows, Followed, Done, Finished, Resolves, Links;
    var h := s.stack[|s.stack| - 1];
    TopFacts(t, s);
    var us := Unfinished(s, Links(t.store[h]));
    waiting := us != [];
    assert waiting ==> us[0] in us;
    var m := EnterLinks(t, s, h, us);
    ExpandFacts(t, s, m, h, us);
    if h in m.index {
      CompleteOld(t, m, h);
      r := m.(elems := m.elems[m.index[h] := Finished(t.store[h], h, m.index)]);
    } else {
      CompleteNew(t, m);
      r := m.(elems := m.elems + [Finished(t.store[h], h, m.index)], index := m.index[h := |m.elems|]);
    }
    if !waiting {
      InvStore(t, r);
      DoneIff(r, h);
      PopOk(t, r);
      r := r.(stack := r.stack[..|r.stack| - 1]);
    }
  }

  lemma {:induction false} TopFacts(t: Span, s: State)
    requires Inv(t, s) && s.stack != []
    ensures IndexOk(s) && StoreOk(t.store)
    ensures Followed(t, s.stack[|s.stack| - 1]) && Reached(t, s.stack[|s.stack| - 1])
    ensures s.stack[|s.stack| - 1] in s.index || s.stack[|s.stack| - 1] == t.up
    ensures s.stack[|s.stack| - 1] in t.store
  {
  }

  /** After its links have been entered, a block can be completed. */
  lemma {:induction false} ExpandFacts(t: Span, s: State, m: State, h: Hash, us: seq<Hash>)
    requires Inv(t, s) && Inv(t, m) && Grows(s, m) && h in t.store && !IsDone(s, h) && (h in s.index || h == t.up)
    requires forall u :: u in us <==> u in Links(t.store[h]) && !IsDone(s, u)
    requires (forall u :: u in us ==> u in m.index) && (t.up in m.index <==> t.up in s.index)
    ensures t.store[h].parent in m.index && forall c :: c in t.store[h].confirms ==> c in m.index
    ensures h in m.index ==> m.index[h] < |m.elems| && m.elems[m.index[h]].parent.UnCompleted?
    ensures h !in m.index ==> h == t.up
    ensures h == t.up ==> h !in m.index
    ensures Done(s) <= Done(m) && forall x :: x in s.index ==> x in m.index && m.index[x] == s.index[x]
  {
    hide Reached, PointOk, StackOk, InTreePoint;
    forall u | u in Links(t.store[h])
      ensures u in m.index
    {
      assert u in us || IsDone(s, u);
    }
    assert t.store[h].parent in Links(t.store[h]);
    assert forall c :: c in t.store[h].confirms ==> c in Links(t.store[h]);
    if h in s.index {
      assert ElemOk(t, s.elems, s.stack, s.elems[s.index[h]]);
      assert m.elems[s.index[h]] == s.elems[s.index[h]];
    }
    forall e | e in s.elems
      ensures e in m.elems
    {
      var i :| 0 <= i < |s.elems| && s.elems[i] == e;
      assert m.elems[i] == e;
    }
  }

  /** `Overrun` stands for slicing the main chain list beyond its end. */
  datatype TreeError = BlockNotFound | HeightDiffNotMeet | Overrun

  /** A followed block of the closure with a link that is not stored. */
  ghost predicate Broken(t: Span, h: Hash) {
    Followed(t, h) && Reached(t, h) && exists u :: u in Links(t.store[h]) && u !in t.store
  }

  ghost predicate StateOk(t: Span, s: State, root: nat) {
    Inv(t, s) && (s == State([], map[], [t.up], []) || (IsDone(s, t.up) && s.index[t.up] == root))
  }

  lemma {:induction false} Initial(t: Span)
    requires StoreOk(t.store) && t.up in t.store
    ensures Inv(t, State([], map[], [t.up], []))
  {
  }

  lemma {:induction false} ExpandDone(t: Span, s: State, m: State, h: Hash)
    requires Inv(t, s) && Inv(t, m) && Done(s) + {h} <= Done(m) && h in t.store && IndexOk(s) && IndexOk(m)
    requires !IsDone(s, h) && (h == t.up || IsDone(s, t.up))
    ensures IsDone(m, t.up) && t.store.Keys - Done(m) < t.store.Keys - Done(s)
  {
    hide Inv, Done;
    DoneIff(s, h);
    DoneIff(s, t.up);
    DoneIff(m, t.up);
    assert h in t.store.Keys - Done(s) && h !in t.store.Keys - Done(m);
  }

  /** In heights: a block other than the upper one ends the tree exactly up to the greedy bound above the lower height, or
      at height zero if that is the lower height. */
  ghost predicate StopsAt(t: Span, elems: seq<TreeElem>) {
    forall i :: 0 <= i < |elems| ==>
      && elems[i].hash in t.store
      && (elems[i].parent.TreePoint? <==>
            elems[i].hash != t.up && t.store[elems[i].hash].height <= if t.below == 0 then 0 else t.below + t.greedy)
  }

  lemma {:induction false} TreeStops(t: Span, elems: seq<TreeElem>)
    requires TreeOk(t, elems)
    ensures StopsAt(t, elems)
  {
    hide Reached;
    forall i | 0 <= i < |elems|
      ensures elems[i].hash in t.store
      ensures elems[i].parent.TreePoint? <==>
                elems[i].hash != t.up && t.store[elems[i].hash].height <= if t.below == 0 then 0 else t.below + t.greedy
    {
      assert Final(t, elems, elems[i]);
    }
  }

  /** The path of the upper block lies in the tree down to `last`, where it ends. */
  ghost predicate LeavesAt(t: Span, elems: seq<TreeElem>, last: Hash)
    requires StoreOk(t.store)
  {
    && (forall a :: IsAncestor(t.store, t.up, a) && a in t.store && t.store[a].height >= t.below + t.greedy ==> IsElem(elems, a))
    && (exists i :: 0 <= i < |elems| && elems[i].hash == last && elems[i].parent.TreePoint?)
  }

  ghost predicate IsElem(elems: seq<TreeElem>, h: Hash) {
    exists i :: 0 <= i < |elems| && elems[i].hash == h
  }

  lemma {:induction false} AncestorReached(t: Span, b: Hash, a: Hash)
    requires StoreOk(t.store) && t.below > 0 && Reached(t, b) && IsAncestor(t.store, b, a) && a in t.store && b in t.store
    requires t.store[a].height >= t.below + t.greedy
    ensures Reached(t, a)
    decreases t.store[b].height
  {
    hide StoreOk, Reached;
    if a != b {
      var p := t.store[b].parent;
      ParentHeight(t.store, b);
      AncestorHeight(t.store, p, a);
      assert p in Links(t.store[b]);
      ReachedNext(t, b, p);
      AncestorReached(t, p, a);
    }
  }

  lemma {:induction false} PathLeaves(t: Span, elems: seq<TreeElem>, last: Hash)
    requires StoreOk(t.store) && TreeOk(t, elems) && t.below > 0 && t.up in t.store && t.store[t.up].height > t.below + t.greedy
    requires IsAncestor(t.store, t.up, last) && last in t.store && t.store[last].height == t.below + t.greedy
    ensures LeavesAt(t, elems, last)
  {
    hide StoreOk, Reached;
    ReachedUp(t);
    forall a | IsAncestor(t.store, t.up, a) && a in t.store && t.store[a].height >= t.below + t.greedy
      ensures IsElem(elems, a)
    {
      AncestorReached(t, t.up, a);
    }
    TreeStops(t, elems);
    assert IsElem(elems, last);
  }

  /** The construction proper, from a stored upper block. */
  method Build(t: Span) returns (r: Result<(seq<TreeElem>, nat, seq<Pair>), TreeError>)
    requires StoreOk(t.store) && t.up in t.store
    ensures r.Ok? ==> TreeOk(t, r.value.0) && StopsAt(t, r.value.0) && PointExact(t, r.value.0, r.value.2)
    ensures r.Ok? ==> r.value.1 < |r.value.0| && r.value.0[r.value.1].hash == t.up
    ensures r.Err? ==> r.error == BlockNotFound && exists h :: Broken(t, h)
  {
    hide Inv, Done, TreeOk, PointExact, Reached, Followed, LinkPath, StopsAt;
    var s := State([], map[], [t.up], []);
    var root: nat := 0;
    Initial(t);
    while s.stack != []
      invariant StateOk(t, s, root)
      decreases t.store.Keys - Done(s), |s.stack|
    {
      InvStore(t, s);
      var h := s.stack[|s.stack| - 1];
      TopFacts(t, s);
      DoneIff(s, h);
      if IsDone(s, h) {
        PopOk(t, s);
        s := s.(stack := s.stack[..|s.stack| - 1]);
        continue;
      }
      if exists u :: u in Links(t.store[h]) && u !in t.store {
        assert Broken(t, h);
        return Err(BlockNotFound);
      }
      var m, waiting := Expand(t, s);
      InvStore(t, m);
      ExpandDone(t, s, m, h);
      assert t.store[h].parent in Links(t.store[h]);
      assert h == t.up ==> !IsDone(s, t.store[h].parent);
      assert h == t.up ==> waiting;
      if h == t.up && waiting {
        root := |m.elems| - 1;
      }
      s := m;
    }
    InvStore(t, s);
    Finish(t, s);
    TreeStops(t, s.elems);
    r := Ok((s.elems, root, s.pairs));
  }

  const HASH_TREE_MIN_LENGTH := 20

  const STAKE_REGISTER_HEIGHT_DISTANCE := 6

  /** The hash tree with its root, and the tree point with its main chain list and pairs. */
  datatype Created = Created(elems: seq<TreeElem>, root: nat, mainChain: seq<Hash>, pairs: seq<Pair>)

  /** `list` is the part of the path of `up` that starts at height `low`. */
  ghost predicate OnPath(store: Store, up: Hash, low: nat, list: seq<Hash>)
    requires StoreOk(store)
  {
    forall i :: 0 <= i < |list| ==> IsAncestor(store, up, list[i]) && list[i] in store && store[list[i]].height == low + i
  }

  /** Above height `low`, the path of `up` meets a block whose parent is not stored. */
  ghost predicate PathBroken(store: Store, up: Hash, low: int)
    requires StoreOk(store)
  {
    exists b :: IsAncestor(store, up, b) && b in store && store[b].height > low && store[b].parent !in store
  }

  /** `getTreePointHashList`: `length` blocks of the path below `up`, of which the lowest `take` are kept. */
  method GetTreePointHashList(store: Store, up: Hash, length: nat, take: nat) returns (r: Result<seq<Hash>, TreeError>)
    requires StoreOk(store) && up in store && 0 < length <= store[up].height + 1
    ensures r.Ok? ==> |r.value| == take <= length && OnPath(store, up, store[up].height + 1 - length, r.value)
    ensures r.Err? ==> r.error == if PathBroken(store, up, store[up].height + 1 - length) then BlockNotFound else Overrun
    ensures r == Err(Overrun) ==> take > length
    ensures take > length ==> r.Err?
  {
    hide StoreOk;
    PathStart(store, up);
    var b, list := up, [up];
    for i := 0 to length - 1
      invariant b in store && IsAncestor(store, up, b) && list != [] && list[0] == b && |list| == i + 1
      invariant store[b].height == store[up].height - i && OnPath(store, up, store[b].height, list)
      invariant !PathBroken(store, up, store[b].height)
    {
      if store[b].parent !in store {
        return Err(BlockNotFound);
      }
      ParentHeight(store, b);
      AncestorNext(store, up, b);
      PathNext(store, up, b);
      b := store[b].parent;
      list := [b] + list;
    }
    if take > length {
      return Err(Overrun);
    }
    return Ok(list[..take]);
  }

  /** A block has one ancestor at a height. */
  lemma {:induction false} AncestorAt(store: Store, b: Hash, a: Hash, c: Hash)
    requires StoreOk(store) && IsAncestor(store, b, a) && IsAncestor(store, b, c) && a in store && c in store
    requires store[a].height == store[c].height
    ensures a == c
    decreases store[b].height
  {
    hide StoreOk;
    AncestorHeight(store, b, a);
    AncestorHeight(store, b, c);
    if a != b && c != b {
      ParentHeight(store, b);
      AncestorAt(store, store[b].parent, a, c);
    }
  }

  lemma {:induction false} PathStart(store: Store, up: Hash)
    requires StoreOk(store) && up in store
    ensures !PathBroken(store, up, store[up].height)
  {
    hide StoreOk, IsAncestor;
    forall b | IsAncestor(store, up, b)
      ensures b in store && store[b].height <= store[up].height
    {
      AncestorHeight(store, up, b);
    }
  }

  lemma {:induction false} PathNext(store: Store, up: Hash, b: Hash)
    requires StoreOk(store) && IsAncestor(store, up, b) && b in store && store[b].parent in store
    requires !PathBroken(store, up, store[b].height)
    ensures !PathBroken(store, up, store[b].height - 1)
  {
    hide StoreOk, IsAncestor;
    forall a | IsAncestor(store, up, a) && a in store && store[a].height == store[b].height
      ensures a == b
    {
      AncestorAt(store, up, a, b);
    }
  }

  lemma {:induction false} AncestorNext(store: Store, b: Hash, a: Hash)
    requires StoreOk(store) && IsAncestor(store, b, a) && a in store && store[a].parent in store
    ensures IsAncestor(store, b, store[a].parent)
    decreases if b in store then store[b].height + 1 else 0
  {
    hide StoreOk;
    if a != b {
      ParentHeight(store, b);
      AncestorNext(store, store[b].parent, a);
    } else {
      ParentHeight(store, b);
      assert IsAncestor(store, store[b].parent, store[b].parent);
    }
  }

  lemma {:induction false} LastOnPath(store: Store, up: Hash, low: nat, list: seq<Hash>)
    requires StoreOk(store) && list != [] && OnPath(store, up, low, list)
    ensures var last := list[|list| - 1]; IsAncestor(store, up, last) && last in store && store[last].height == low + |list| - 1
  {
  }

  /** How far the main chain list reaches below the lower block. */
  function Before(low: nat): nat {
    if low < STAKE_REGISTER_HEIGHT_DISTANCE then low else STAKE_REGISTER_HEIGHT_DISTANCE
  }

  /** `CreateHashTree`: between two stored blocks more than the minimum length apart. */
  method CreateHashTree(store: Store, genesis: Hash, below: Hash, up: Hash, greedy: nat) returns (r: Result<Created, TreeError>)
    requires StoreOk(store)
    ensures up !in store || below !in store ==> r == Err(BlockNotFound)
    ensures up in store && below in store ==> (r == Err(HeightDiffNotMeet) <==> store[up].height <= store[below].height + HASH_TREE_MIN_LENGTH)
    ensures up in store && below in store && store[up].height > store[below].height + HASH_TREE_MIN_LENGTH ==>
              var low := store[below].height;
              r == Err(Overrun) <==> below != genesis && greedy > store[up].height - low && !PathBroken(store, up, low - Before(low))
    ensures r.Ok? ==>
              var t := Span(store, up, store[below].height, greedy);
              && TreeOk(t, r.value.elems) && StopsAt(t, r.value.elems) && PointExact(t, r.value.elems, r.value.pairs)
              && r.value.root < |r.value.elems| && r.value.elems[r.value.root].hash == up
              && if below == genesis then r.value.mainChain == [below]
                 else
                   var pre := Before(store[below].height);
                   |r.value.mainChain| == pre + greedy + 1 && OnPath(store, up, store[below].height - pre, r.value.mainChain)
    ensures r.Ok? && below != genesis && 0 < store[below].height < store[up].height - greedy ==>
              LeavesAt(Span(store, up, store[below].height, greedy), r.value.elems, r.value.mainChain[|r.value.mainChain| - 1])
    ensures r == Err(BlockNotFound) && up in store && below in store ==>
              var low := store[below].height;
              (exists h :: Broken(Span(store, up, low, greedy), h)) || PathBroken(store, up, low - Before(low))
  {
    hide StoreOk, TreeOk, PointExact, IsAncestor, OnPath, Broken, PathBroken, StopsAt, LeavesAt;
    if up !in store || below !in store {
      return Err(BlockNotFound);
    }
    if store[up].height < store[below].height || store[up].height - store[below].height <= HASH_TREE_MIN_LENGTH {
      return Err(HeightDiffNotMeet);
    }
    var low := store[below].height;
    var pre := Before(low);
    var main := [below];
    if below != genesis {
      var list := GetTreePointHashList(store, up, store[up].height - low + pre + 1, pre + greedy + 1);
      if list.Err? {
        return Err(list.error);
      }
      main := list.value;
    }
    var built := Build(Span(store, up, low, greedy));
    if built.Err? {
      return Err(built.error);
    }
    if below != genesis && 0 < low < store[up].height - greedy {
      LastOnPath(store, up, low - pre, main);
      PathLeaves(Span(store, up, low, greedy), built.value.0, main[|main| - 1]);
    }
    return Ok(Created(built.value.0, built.value.1, main, built.value.2));
  }

  /** A single chain of `n` blocks, numbered from the genesis up. */
  function SingleChain(n: nat): Store {
    if n == 0 then map[] else SingleChain(n - 1)[n := Block(n - 1, n - 1, [], 0)]
  }

  lemma {:induction false} SingleChainBlocks(n: nat)
    ensures forall b :: b in SingleChain(n) <==> 1 <= b <= n
    ensures forall b :: b in SingleChain(n) ==> SingleChain(n)[b] == Block(b - 1, b - 1, [], 0)
  {
    if n > 0 {
      SingleChainBlocks(n - 1);
    }
  }

  /** On a chain of 23 blocks a greedy bound of 22 is too large for the span of 21 blocks above the second. */
  method OverrunInput() returns (r: Result<Created, TreeError>)
    ensures r == Err(Overrun)
  {
    var store := SingleChain(23);
    SingleChainBlocks(23);
    hide SingleChain, IsAncestor;
    r := CreateHashTree(store, 1, 2, 23, 22);
  }
}
