/** Lookup, insertion and deletion on nodes that may be unloaded (trie/trie.go).

    On any node representing a canonical tree the three operations are proved to succeed and to act
    exactly as `Get`, `Put` and `Remove` on the tree, loading hash references on the way; insertion
    and deletion report a change if and only if the tree changes. */
module TrieOps {
  import opened Common
  import opened HexPrefix
  import opened PatriciaTree
  import opened NodeCodec
  import opened TrieStore

  function NewFlag(gen: nat): Flag { Flag(None, gen, true) }

  function HangNode(rest: Bytes, x: Node, gen: nat): Node
  {
    if rest == [] then x else Short(rest, x, NewFlag(gen))
  }

  function NoNodes(): (cs: seq<Node>)
    ensures |cs| == 17 && forall i :: 0 <= i < 17 ==> cs[i] == Nil
  {
    [Nil, Nil, Nil, Nil, Nil, Nil, Nil, Nil, Nil, Nil, Nil, Nil, Nil, Nil, Nil, Nil, Nil]
  }

  /** `insert` where the key leaves a short node's key after `m` nibbles. */
  function SplitNode(p: Bytes, v: Node, k: Bytes, x: Node, m: nat, gen: nat): (n: Node)
    requires m < |p| && m < |k| && p[m] < 17 && k[m] < 17
    ensures n.Short? || n.Full?
  {
    var cs := NoNodes()[p[m] := HangNode(p[m + 1..], v, gen)][k[m] := HangNode(k[m + 1..], x, gen)];
    var branch := Full(cs, NewFlag(gen));
    if m == 0 then branch else Short(k[..m], branch, NewFlag(gen))
  }

  /** `insert`: whether anything changed, and the new node.  Short nodes with an empty key, which only
      a corrupt store can hold, are reported as `Panic`, as are the source's own panics. */
  function Insert(db: Store, n: Node, k: Bytes, x: Node, gen: nat): Result<(bool, Node), TrieError>
    decreases |k|, if n.HashRef? then 1 else 0
  {
    if k == [] then
      if n.Value? then Ok((n != x, x)) else Ok((true, x))
    else
      match n
      case Nil => Ok((true, Short(k, x, NewFlag(gen))))
      case Value(_) => Err(Panic)
      case Short(p, v, _) =>
        var m := |CommonPrefix(k, p)|;
        if p == [] then Err(Panic)
        else if m == |p| then
          var r := Insert(db, v, k[m..], x, gen);
          if r.Err? then r
          else if !r.value.0 then Ok((false, n))
          else Ok((true, Short(p, r.value.1, NewFlag(gen))))
        else if m < |k| && p[m] < 17 && k[m] < 17 then Ok((true, SplitNode(p, v, k, x, m, gen)))
        else Err(Panic)
      case Full(cs, _) =>
        if k[0] >= |cs| then Err(Panic) else
          var r := Insert(db, cs[k[0]], k[1..], x, gen);
          if r.Err? then r
          else if !r.value.0 then Ok((false, n))
          else Ok((true, Full(cs[k[0] := r.value.1], NewFlag(gen))))
      case HashRef(h) =>
        var rn := Resolve(db, h, gen);
        if rn.Err? then Err(rn.error) else
          var r := Insert(db, rn.value, k, x, gen);
          if r.Ok? && !r.value.0 then Ok((false, rn.value)) else r
  }

  // ---------------------------------------------------------------- insertion represents Put

  lemma {:induction false} HangRep(H: Bytes -> Bytes, db: Store, rest: Bytes, x: Node, t: Tree, gen: nat)
    requires Rep(H, db, x, t, false)
    ensures Rep(H, db, HangNode(rest, x, gen), Hang(rest, t), false)
  {
  }

  lemma {:induction false} SplitRep(H: Bytes -> Bytes, db: Store, p: Bytes, v: Node, c: Tree, k: Bytes, x: Node, y: Tree,
                                    m: nat, gen: nat, top: bool)
    requires m < |p| && m < |k| && p[m] < 17 && k[m] < 17
    requires Rep(H, db, v, c, false) && Rep(H, db, x, y, false)
    ensures Rep(H, db, SplitNode(p, v, k, x, m, gen), SplitExt(p, c, k, y, m), top)
  {
    hide FlagOk, Stored, Rep;
    HangRep(H, db, p[m + 1..], v, c, gen);
    HangRep(H, db, k[m + 1..], x, y, gen);
    var a, b := HangNode(p[m + 1..], v, gen), HangNode(k[m + 1..], x, gen);
    var a', b' := Hang(p[m + 1..], c), Hang(k[m + 1..], y);
    ForkRep(H, db, p[m], a, a', k[m], b, b', gen, true);
    ForkRep(H, db, p[m], a, a', k[m], b, b', gen, top);
    ForkRep(H, db, p[m], a, a', k[m], b, b', gen, false);
    var branch := Full(NoNodes()[p[m] := a][k[m] := b], NewFlag(gen));
    var fork := Fork(p[m], a', k[m], b');
    if m > 0 { ShortRep(H, db, k[..m], branch, fork, gen, top); }
  }

  lemma {:induction false} ForkRep(H: Bytes -> Bytes, db: Store, i: Byte, a: Node, a': Tree, j: Byte, b: Node, b': Tree,
                                   gen: nat, top: bool)
    requires i < 17 && j < 17 && Rep(H, db, a, a', false) && Rep(H, db, b, b', false)
    ensures Rep(H, db, Full(NoNodes()[i := a][j := b], NewFlag(gen)), Fork(i, a', j, b'), top)
  {
  }

  lemma {:induction false} ShortRep(H: Bytes -> Bytes, db: Store, p: Bytes, v: Node, c: Tree, gen: nat, top: bool)
    requires Rep(H, db, v, c, false)
    ensures Rep(H, db, Short(p, v, NewFlag(gen)), Ext(p, c), top)
  {
  }

  lemma {:induction false} FullRep(H: Bytes -> Bytes, db: Store, cs: seq<Node>, ds: seq<Tree>, i: nat, n: Node, t: Tree,
                                   gen: nat, top: bool)
    requires |cs| == |ds| && i < |cs| && Rep(H, db, n, t, false)
    requires forall j :: 0 <= j < |cs| ==> Rep(H, db, cs[j], ds[j], false)
    ensures Rep(H, db, Full(cs[i := n], NewFlag(gen)), Branch(ds[i := t]), top)
  {
  }

  /** Insertion succeeds, represents `Put`, and reports a change exactly if the tree changes. */
  ghost predicate Inserted(H: Bytes -> Bytes, db: Store, r: Result<(bool, Node), TrieError>, t: Tree, t': Tree, top: bool)
  {
    && r.Ok?
    && Rep(H, db, r.value.1, t', top)
    && (r.value.0 <==> t' != t)
    && (r.value.0 ==> !r.value.1.HashRef?)
  }

  lemma {:induction false} InsertRep(H: Bytes -> Bytes, db: Store, n: Node, t: Tree, k: Bytes, v: Bytes, gen: nat, top: bool)
    requires HashLen(H) && Canon(t) && Fits(H, t) && Rep(H, db, n, t, top) && FullKey(k)
    ensures Inserted(H, db, Insert(db, n, k, Value(v), gen), t, Put(t, k, Leaf(v)), top)
    decreases t, if n.HashRef? then 2 else 1
  {
    hide Resolve, Fits, Canon, Rep, Insert, Put, Stored, FlagOk;
    if n.HashRef? {
      ResolveRep(H, db, n.hash, t, gen, top);
      InsertRep(H, db, Resolve(db, n.hash, gen).value, t, k, v, gen, top);
      InsertHash(db, n, k, v, gen);
    } else if t.Ext? {
      InsertExt(H, db, n, t, k, v, gen, top);
    } else if t.Branch? {
      InsertBranch(H, db, n, t, k, v, gen, top);
    } else {
      InsertEmpty(H, db, n, t, k, v, gen, top);
    }
  }

  lemma {:induction false} InsertHash(db: Store, n: Node, k: Bytes, v: Bytes, gen: nat)
    requires n.HashRef? && k != [] && Resolve(db, n.hash, gen).Ok?
    ensures var rn := Resolve(db, n.hash, gen).value;
            var r := Insert(db, rn, k, Value(v), gen);
            Insert(db, n, k, Value(v), gen) == if r.Ok? && !r.value.0 then Ok((false, rn)) else r
  {
    hide Resolve;
  }

  lemma {:induction false} InsertEmpty(H: Bytes -> Bytes, db: Store, n: Node, t: Tree, k: Bytes, v: Bytes, gen: nat, top: bool)
    requires Canon(t) && Rep(H, db, n, t, top) && FullKey(k) && !n.HashRef? && !t.Ext? && !t.Branch?
    ensures Inserted(H, db, Insert(db, n, k, Value(v), gen), t, Put(t, k, Leaf(v)), top)
  {
  }

  lemma {:induction false} SimpleNode(H: Bytes -> Bytes, db: Store, n: Node, t: Tree, top: bool)
    requires Rep(H, db, n, t, top)
    ensures t.Leaf? <==> n.Value?
    ensures t.Leaf? ==> n == Value(t.value)
    ensures t.Empty? <==> n.Nil?
  {
  }

  lemma {:induction false} InsertExt(H: Bytes -> Bytes, db: Store, n: Node, t: Tree, k: Bytes, v: Bytes, gen: nat, top: bool)
    requires HashLen(H) && Canon(t) && Fits(H, t) && Rep(H, db, n, t, top) && FullKey(k) && t.Ext? && !n.HashRef?
    ensures Inserted(H, db, Insert(db, n, k, Value(v), gen), t, Put(t, k, Leaf(v)), top)
    decreases t, 0
  {
    hide Resolve, Stored, FlagOk, SplitNode, SplitExt, CommonPrefix, Blob;
    var p, c := t.key, t.child;
    var m := |CommonPrefix(k, p)|;
    Meet(k, p);
    if m < |p| {
      SplitRep(H, db, p, n.val, c, k, Value(v), Leaf(v), m, gen, top);
      SplitDiffers(p, c, k, Leaf(v), m);
    } else {
      var r := k[m..];
      if HasTerm(p) {
        assert r == [];
        SimpleNode(H, db, n.val, c, false);
        assert Insert(db, n.val, r, Value(v), gen) == Ok((n.val != Value(v), Value(v)));
        ShortRep(H, db, p, Value(v), Leaf(v), gen, top);
      } else {
        FullKeyTail(k, m);
        InsertRep(H, db, n.val, c, r, v, gen, false);
        var i := Insert(db, n.val, r, Value(v), gen).value;
        ShortRep(H, db, p, i.1, Put(c, r, Leaf(v)), gen, top);
      }
    }
  }

  lemma {:induction false} SplitDiffers(p: Bytes, c: Tree, k: Bytes, x: Tree, m: nat)
    requires m < |p| && m < |k| && p[m] < 17 && k[m] < 17
    ensures SplitExt(p, c, k, x, m) != Ext(p, c)
  {
    if m > 0 { assert |k[..m]| == m; }
  }

  lemma {:induction false} InsertBranch(H: Bytes -> Bytes, db: Store, n: Node, t: Tree, k: Bytes, v: Bytes, gen: nat, top: bool)
    requires HashLen(H) && Canon(t) && Fits(H, t) && Rep(H, db, n, t, top) && FullKey(k) && t.Branch? && !n.HashRef?
    ensures Inserted(H, db, Insert(db, n, k, Value(v), gen), t, Put(t, k, Leaf(v)), top)
    decreases t, 0
  {
    hide Resolve, Stored, FlagOk, Blob;
    var cs, ds := n.children, t.children;
    FullKeyTail(k, 0);
    var i, r := k[0], k[1..];
    if i == TERM {
      assert r == [];
      SimpleNode(H, db, cs[i], ds[i], false);
      FullRep(H, db, cs, ds, i, Value(v), Leaf(v), gen, top);
      assert ds[i := Leaf(v)] == ds <==> ds[i] == Leaf(v);
    } else {
      FullKeyTail(k, 1);
      InsertRep(H, db, cs[i], ds[i], r, v, gen, false);
      var x := Insert(db, cs[i], r, Value(v), gen).value;
      var y := Put(ds[i], r, Leaf(v));
      FullRep(H, db, cs, ds, i, x.1, y, gen, top);
      assert ds[i := y] == ds <==> ds[i] == y;
    }
  }

  // ---------------------------------------------------------------- deletion

  /** The index of the only child left, -1 if there is none and -2 if there are several. */
  function LoneChild(cs: seq<Node>): (pos: int)
    ensures -2 <= pos < |cs|
  {
    if cs == [] then -1 else
      var pos := LoneChild(cs[..|cs| - 1]);
      if cs[|cs| - 1].Nil? then pos else if pos == -1 then |cs| - 1 else -2
  }

  /** The counting loop of `delete`, which stops at the second child. */
  method CountChildren(cs: seq<Node>) returns (pos: int)
    ensures pos == LoneChild(cs)
  {
    pos := -1;
    var i := 0;
    while i < |cs|
      invariant 0 <= i <= |cs| && pos == LoneChild(cs[..i])
    {
      assert cs[..i + 1][..i] == cs[..i];
      if !cs[i].Nil? {
        if pos == -1 {
          pos := i;
        } else {
          pos := -2;
          Several(cs, i + 1);
          return;
        }
      }
      i := i + 1;
    }
    assert cs[..i] == cs;
  }

  lemma {:induction false} Several(cs: seq<Node>, i: nat)
    requires i <= |cs| && LoneChild(cs[..i]) == -2
    ensures LoneChild(cs) == -2
    decreases |cs| - i
  {
    if i == |cs| {
      assert cs[..i] == cs;
    } else {
      assert cs[..i + 1][..i] == cs[..i];
      Several(cs, i + 1);
    }
  }

  /** What `delete` makes of a full node after clearing a child. */
  function ReduceNode(db: Store, cs: seq<Node>, gen: nat): Result<(bool, Node), TrieError>
    requires |cs| == 17
  {
    var pos := LoneChild(cs);
    if pos < 0 then Ok((true, Full(cs, NewFlag(gen))))
    else if pos == 16 then Ok((true, Short([pos], cs[pos], NewFlag(gen))))
    else
      var c := if cs[pos].HashRef? then Resolve(db, cs[pos].hash, gen) else Ok(cs[pos]);
      if c.Err? then Err(c.error)
      else if c.value.Short? then Ok((true, Short([pos] + c.value.key, c.value.val, NewFlag(gen))))
      else Ok((true, Short([pos], cs[pos], NewFlag(gen))))
  }

  /** `delete`: whether anything changed, and the new node. */
  function Delete(db: Store, n: Node, k: Bytes, gen: nat): Result<(bool, Node), TrieError>
    decreases |k|, if n.HashRef? then 1 else 0
  {
    match n
    case Nil => Ok((false, Nil))
    case Value(_) => Ok((true, Nil))
    case Short(p, v, _) =>
      var m := |CommonPrefix(k, p)|;
      if m < |p| then Ok((false, n))
      else if m == |k| then Ok((true, Nil))
      else if p == [] then Err(Panic)
      else
        var r := Delete(db, v, k[m..], gen);
        if r.Err? then r
        else if !r.value.0 then Ok((false, n))
        else if r.value.1.Short? then Ok((true, Short(p + r.value.1.key, r.value.1.val, NewFlag(gen))))
        else Ok((true, Short(p, r.value.1, NewFlag(gen))))
    case Full(cs, _) =>
      if k == [] || k[0] >= |cs| || |cs| != 17 then Err(Panic) else
        var r := Delete(db, cs[k[0]], k[1..], gen);
        if r.Err? then r
        else if !r.value.0 then Ok((false, n))
        else ReduceNode(db, cs[k[0] := r.value.1], gen)
    case HashRef(h) =>
      var rn := Resolve(db, h, gen);
      if rn.Err? then Err(rn.error) else
        var r := Delete(db, rn.value, k, gen);
        if r.Ok? && !r.value.0 then Ok((false, rn.value)) else r
  }

  lemma {:induction false} LoneAgrees(H: Bytes -> Bytes, db: Store, cs: seq<Node>, ds: seq<Tree>)
    requires |cs| == |ds| && forall i :: 0 <= i < |cs| ==> Rep(H, db, cs[i], ds[i], false)
    ensures LoneChild(cs) == Lone(ds)
  {
    hide Rep;
    if cs != [] {
      LoneAgrees(H, db, cs[..|cs| - 1], ds[..|ds| - 1]);
      SimpleNode(H, db, cs[|cs| - 1], ds[|ds| - 1], false);
    }
  }

  lemma {:induction false} ReduceRep(H: Bytes -> Bytes, db: Store, cs: seq<Node>, ds: seq<Tree>, gen: nat, top: bool)
    requires HashLen(H) && |cs| == 17 == |ds|
    requires forall i :: 0 <= i < 17 ==> Rep(H, db, cs[i], ds[i], false) && (cs[i].HashRef? ==> Fits(H, ds[i]))
    requires forall i :: 0 <= i < 16 ==> Canon(ds[i])
    ensures var r := ReduceNode(db, cs, gen);
            r.Ok? && r.value.0 && Rep(H, db, r.value.1, Reduce(ds), top) && !r.value.1.HashRef?
  {
    hide Resolve, Canon, Fits, LoneChild, Lone, FlagOk, Rep;
    LoneAgrees(H, db, cs, ds);
    var pos := Lone(ds);
    if pos < 0 {
      assert cs[0 := cs[0]] == cs && ds[0 := ds[0]] == ds;
      FullRep(H, db, cs, ds, 0, cs[0], ds[0], gen, top);
    } else {
      ShortRep(H, db, [pos], cs[pos], ds[pos], gen, top);
      if pos < 16 { MergeRep(H, db, pos, cs[pos], ds[pos], gen, top); }
    }
  }

  /** The remaining child of a full node, loaded if need be and merged if it is a short node. */
  lemma {:induction false} MergeRep(H: Bytes -> Bytes, db: Store, pos: Byte, n: Node, t: Tree, gen: nat, top: bool)
    requires HashLen(H) && Canon(t) && (n.HashRef? ==> Fits(H, t)) && Rep(H, db, n, t, false) && pos < 16
    ensures var c := if n.HashRef? then Resolve(db, n.hash, gen) else Ok(n);
            && c.Ok?
            && (c.value.Short? ==> Rep(H, db, Short([pos] + c.value.key, c.value.val, NewFlag(gen)), Shorten(pos, t), top))
            && (!c.value.Short? ==> Rep(H, db, Short([pos], n, NewFlag(gen)), Shorten(pos, t), top))
  {
    hide Resolve, Canon, Fits, Stored;
    if n.HashRef? { ResolveRep(H, db, n.hash, t, gen, false); }
    var c := if n.HashRef? then Resolve(db, n.hash, gen) else Ok(n);
    if c.value.Short? {
      ShortRep(H, db, [pos] + c.value.key, c.value.val, t.child, gen, top);
    } else {
      ShortRep(H, db, [pos], n, t, gen, top);
      assert !t.Ext?;
    }
  }

  /** Deletion succeeds, represents `Remove`, and reports a change exactly if the tree changes. */
  lemma {:induction false} DeleteRep(H: Bytes -> Bytes, db: Store, n: Node, t: Tree, k: Bytes, gen: nat, top: bool)
    requires HashLen(H) && Canon(t) && Fits(H, t) && Rep(H, db, n, t, top) && FullKey(k)
    ensures Inserted(H, db, Delete(db, n, k, gen), t, Remove(t, k), top)
    decreases t, if n.HashRef? then 2 else 1
  {
    hide Resolve, Fits, Canon, Rep, Delete, Remove, Stored, FlagOk;
    if n.HashRef? {
      ResolveRep(H, db, n.hash, t, gen, top);
      DeleteRep(H, db, Resolve(db, n.hash, gen).value, t, k, gen, top);
      DeleteHash(db, n, k, gen);
    } else if t.Ext? {
      DeleteExt(H, db, n, t, k, gen, top);
    } else if t.Branch? {
      DeleteBranch(H, db, n, t, k, gen, top);
    } else {
      DeleteEmpty(H, db, n, t, k, gen, top);
    }
  }

  lemma {:induction false} DeleteHash(db: Store, n: Node, k: Bytes, gen: nat)
    requires n.HashRef? && Resolve(db, n.hash, gen).Ok?
    ensures var rn := Resolve(db, n.hash, gen).value;
            var r := Delete(db, rn, k, gen);
            Delete(db, n, k, gen) == if r.Ok? && !r.value.0 then Ok((false, rn)) else r
  {
    hide Resolve;
  }

  lemma {:induction false} DeleteEmpty(H: Bytes -> Bytes, db: Store, n: Node, t: Tree, k: Bytes, gen: nat, top: bool)
    requires Canon(t) && Rep(H, db, n, t, top) && !n.HashRef? && !t.Ext? && !t.Branch?
    ensures Inserted(H, db, Delete(db, n, k, gen), t, Remove(t, k), top)
  {
  }

  lemma {:induction false} DeleteExt(H: Bytes -> Bytes, db: Store, n: Node, t: Tree, k: Bytes, gen: nat, top: bool)
    requires HashLen(H) && Canon(t) && Fits(H, t) && Rep(H, db, n, t, top) && FullKey(k) && t.Ext? && !n.HashRef?
    ensures Inserted(H, db, Delete(db, n, k, gen), t, Remove(t, k), top)
    decreases t, 0
  {
    hide Resolve, Stored, FlagOk, CommonPrefix, Blob;
    var p, c := t.key, t.child;
    var m := |CommonPrefix(k, p)|;
    Meet(k, p);
    if m == |p| && !HasTerm(p) {
      var r := k[m..];
      FullKeyTail(k, m);
      DeleteRep(H, db, n.val, c, r, gen, false);
      var d := Delete(db, n.val, r, gen).value;
      var c' := Remove(c, r);
      RemoveCanon(c, r);
      if d.0 {
        if d.1.Short? {
          ShortRep(H, db, p + d.1.key, d.1.val, c'.child, gen, top);
          assert p + c'.key != p;
        } else {
          ShortRep(H, db, p, d.1, c', gen, top);
        }
      }
    }
  }

  lemma {:induction false} DeleteBranch(H: Bytes -> Bytes, db: Store, n: Node, t: Tree, k: Bytes, gen: nat, top: bool)
    requires HashLen(H) && Canon(t) && Fits(H, t) && Rep(H, db, n, t, top) && FullKey(k) && t.Branch? && !n.HashRef?
    ensures Inserted(H, db, Delete(db, n, k, gen), t, Remove(t, k), top)
    decreases t, 0
  {
    hide Resolve, Stored, FlagOk, Blob, ReduceNode, Reduce;
    var cs, ds := n.children, t.children;
    FullKeyTail(k, 0);
    var i, r := k[0], k[1..];
    if i == TERM {
      DeleteValue(H, db, cs[i], ds[i], r, gen);
    } else {
      FullKeyTail(k, 1);
      DeleteRep(H, db, cs[i], ds[i], r, gen, false);
      RemoveCanon(ds[i], r);
    }
    var d := Delete(db, cs[i], r, gen).value;
    var c' := Remove(ds[i], r);
    ReduceChange(ds, i, c');
    if d.0 {
      ReduceRep(H, db, cs[i := d.1], ds[i := c'], gen, top);
    }
  }

  lemma {:induction false} DeleteValue(H: Bytes -> Bytes, db: Store, n: Node, t: Tree, r: Bytes, gen: nat)
    requires Rep(H, db, n, t, false) && (t.Empty? || t.Leaf?)
    ensures Inserted(H, db, Delete(db, n, r, gen), t, Empty, false) && Remove(t, r) == Empty
  {
    SimpleNode(H, db, n, t, false);
  }

  /** Reducing a canonical full node leaves it alone exactly if the child was left alone. */
  lemma {:induction false} ReduceChange(ds: seq<Tree>, i: nat, c: Tree)
    requires Canon(Branch(ds)) && i < 17
    ensures Reduce(ds[i := c]) == Branch(ds) <==> c == ds[i]
  {
    if c == ds[i] {
      assert ds[i := c] == ds;
    }
  }

  // ---------------------------------------------------------------- lookup

  /** `tryGet`: the value, the node with everything on the path loaded, and whether it was loaded. */
  function TryGet(db: Store, n: Node, k: Bytes, gen: nat): Result<(Option<Bytes>, Node, bool), TrieError>
    decreases |k|, if n.HashRef? then 1 else 0
  {
    match n
    case Nil => Ok((None, Nil, false))
    case Value(v) => Ok((Some(v), n, false))
    case Short(p, v, f) =>
      if !(p <= k) then Ok((None, n, false))
      else if p == [] then Err(Panic)
      else
        var r := TryGet(db, v, k[|p|..], gen);
        if r.Err? then r
        else if r.value.2 then Ok((r.value.0, Short(p, r.value.1, f.(gen := gen)), true))
        else Ok((r.value.0, n, false))
    case Full(cs, f) =>
      if k == [] || k[0] >= |cs| then Err(Panic) else
        var r := TryGet(db, cs[k[0]], k[1..], gen);
        if r.Err? then r
        else if r.value.2 then Ok((r.value.0, Full(cs[k[0] := r.value.1], f.(gen := gen)), true))
        else Ok((r.value.0, n, false))
    case HashRef(h) =>
      var rn := Resolve(db, h, gen);
      if rn.Err? then Err(rn.error) else
        var r := TryGet(db, rn.value, k, gen);
        if r.Err? then r else Ok((r.value.0, r.value.1, true))
  }

  /** Lookup finds the tree's value and only loads nodes. */
  lemma {:induction false} TryGetRep(H: Bytes -> Bytes, db: Store, n: Node, t: Tree, k: Bytes, gen: nat, top: bool)
    requires HashLen(H) && Canon(t) && Fits(H, t) && Rep(H, db, n, t, top) && FullKey(k)
    ensures var r := TryGet(db, n, k, gen);
            r.Ok? && r.value.0 == Get(t, k) && Rep(H, db, r.value.1, t, top) && (!r.value.2 ==> r.value.1 == n)
    decreases t, if n.HashRef? then 2 else 1
  {
    hide Resolve, Stored, Blob, FlagOk, Fits;
    match n
    case Nil =>
    case Value(_) =>
    case HashRef(h) =>
      ResolveRep(H, db, h, t, gen, top);
      TryGetRep(H, db, Resolve(db, h, gen).value, t, k, gen, top);
    case Short(p, v, f) => TryGetShort(H, db, n, t, k, gen, top);
    case Full(cs, f) => TryGetFull(H, db, n, t, k, gen, top);
  }

  lemma {:induction false} TryGetShort(H: Bytes -> Bytes, db: Store, n: Node, t: Tree, k: Bytes, gen: nat, top: bool)
    requires HashLen(H) && Canon(t) && Fits(H, t) && Rep(H, db, n, t, top) && FullKey(k) && n.Short?
    ensures var r := TryGet(db, n, k, gen);
            r.Ok? && r.value.0 == Get(t, k) && Rep(H, db, r.value.1, t, top) && (!r.value.2 ==> r.value.1 == n)
    decreases t, 0
  {
    hide Resolve, Stored, Blob, FlagOk;
    var p := n.key;
    FlagGen(H, db, n.flag, t, gen, top);
    if p <= k {
      TermPrefix(p, k);
      if HasTerm(p) {
        SimpleNode(H, db, n.val, t.child, false);
        assert k[|p|..] == [];
      } else {
        FullKeyTail(k, |p|);
        TryGetRep(H, db, n.val, t.child, k[|p|..], gen, false);
      }
    }
  }

  lemma {:induction false} TryGetFull(H: Bytes -> Bytes, db: Store, n: Node, t: Tree, k: Bytes, gen: nat, top: bool)
    requires HashLen(H) && Canon(t) && Fits(H, t) && Rep(H, db, n, t, top) && FullKey(k) && n.Full?
    ensures var r := TryGet(db, n, k, gen);
            r.Ok? && r.value.0 == Get(t, k) && Rep(H, db, r.value.1, t, top) && (!r.value.2 ==> r.value.1 == n)
    decreases t, 0
  {
    hide Resolve, Stored, Blob, FlagOk;
    FullKeyTail(k, 0);
    var i := k[0];
    if i == TERM {
      SimpleNode(H, db, n.children[i], t.children[i], false);
      assert k[1..] == [];
    } else {
      FullKeyTail(k, 1);
      TryGetRep(H, db, n.children[i], t.children[i], k[1..], gen, false);
      ReplaceChild(H, db, n, t, i, TryGet(db, n.children[i], k[1..], gen).value.1, gen, top);
    }
  }

  lemma {:induction false} ReplaceChild(H: Bytes -> Bytes, db: Store, n: Node, t: Tree, i: nat, c: Node, gen: nat, top: bool)
    requires Rep(H, db, n, t, top) && n.Full? && i < |n.children| && Rep(H, db, c, t.children[i], false)
    ensures Rep(H, db, Full(n.children[i := c], n.flag.(gen := gen)), t, top)
  {
    hide FlagOk;
    FlagGen(H, db, n.flag, t, gen, top);
  }

  lemma {:induction false} FlagGen(H: Bytes -> Bytes, db: Store, f: Flag, t: Tree, gen: nat, top: bool)
    requires FlagOk(H, db, f, t, top)
    ensures FlagOk(H, db, f.(gen := gen), t, top)
  {
  }
}
