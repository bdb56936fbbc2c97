/** The value-level Patricia tree behind a trie: what a trie denotes once every node is loaded.

    `Put` and `Remove` are the node splitting and merging of trie/trie.go on plain trees.  They are
    proved to keep the canonical form and to act on the tree as on a map from keys to values, and two
    canonical trees that differ are proved to differ at some key, so the tree, and hence its root
    hash, depends only on the final map and not on the history of updates. */
module PatriciaTree {
  import opened Common
  import opened HexPrefix

  /** `Leaf` is a value node, `Ext` a short node, `Branch` a full node. */
  datatype Tree = Empty | Leaf(value: Bytes) | Ext(key: Bytes, child: Tree) | Branch(children: seq<Tree>)

  /** A complete key: nibbles closed by the terminator. */
  ghost predicate FullKey(k: Bytes)
  {
    ValidHex(k) && HasTerm(k)
  }

  function Get(t: Tree, k: Bytes): Option<Bytes>
  {
    match t
    case Empty => None
    case Leaf(v) => if k == [] then Some(v) else None
    case Ext(p, c) => if p <= k then Get(c, k[|p|..]) else None
    case Branch(cs) => if k != [] && k[0] < |cs| then Get(cs[k[0]], k[1..]) else None
  }

  // ---------------------------------------------------------------- canonical form

  ghost predicate AtLeastTwo(cs: seq<Tree>)
  {
    exists i, j :: 0 <= i < j < |cs| && !cs[i].Empty? && !cs[j].Empty?
  }

  /** No empty or chained short nodes, terminators only at the end of keys, values only where a key
      ends, and at least two entries in every full node. */
  ghost predicate Canon(t: Tree)
  {
    match t
    case Empty => true
    case Leaf(_) => false
    case Ext(p, c) =>
      && p != [] && ValidHex(p)
      && (if HasTerm(p) then c.Leaf? && c.value != [] else c.Branch? && Canon(c))
    case Branch(cs) =>
      && |cs| == 17 && AtLeastTwo(cs)
      && (forall i :: 0 <= i < 16 ==> Canon(cs[i]))
      && (cs[16].Empty? || (cs[16].Leaf? && cs[16].value != []))
  }

  // ---------------------------------------------------------------- insertion

  /** `x` at the end of `rest`: what inserting into an empty subtree produces. */
  function Hang(rest: Bytes, x: Tree): Tree
  {
    if rest == [] then x else Ext(rest, x)
  }

  function NoChildren(): (cs: seq<Tree>)
    ensures |cs| == 17 && forall i :: 0 <= i < 17 ==> cs[i] == Empty
  {
    [Empty, Empty, Empty, Empty, Empty, Empty, Empty, Empty, Empty, Empty, Empty, Empty, Empty, Empty, Empty, Empty, Empty]
  }

  /** A full node with two entries. */
  function Fork(i: Byte, a: Tree, j: Byte, b: Tree): Tree
    requires i < 17 && j < 17
  {
    Branch(NoChildren()[i := a][j := b])
  }

  /** Splitting a short node where the inserted key leaves its key after `m` nibbles. */
  function SplitExt(p: Bytes, c: Tree, k: Bytes, x: Tree, m: nat): Tree
    requires m < |p| && m < |k| && p[m] < 17 && k[m] < 17
  {
    var fork := Fork(p[m], Hang(p[m + 1..], c), k[m], Hang(k[m + 1..], x));
    if m == 0 then fork else Ext(k[..m], fork)
  }

  /** The tree with `x` at key `k`. */
  function Put(t: Tree, k: Bytes, x: Tree): Tree
  {
    if k == [] then x else
    match t
    case Empty => Ext(k, x)
    case Leaf(_) => t
    case Ext(p, c) =>
      var m := |CommonPrefix(k, p)|;
      if m == |p| then Ext(p, Put(c, k[m..], x))
      else if m < |k| && p[m] < 17 && k[m] < 17 then SplitExt(p, c, k, x, m)
      else t
    case Branch(cs) =>
      if k[0] < |cs| then Branch(cs[k[0] := Put(cs[k[0]], k[1..], x)]) else t
  }

  lemma {:induction false} FullKeyTail(k: Bytes, n: nat)
    requires FullKey(k) && n < |k|
    ensures FullKey(k[n..]) && k[n] < 17
    ensures k[n] == TERM <==> n == |k| - 1
  {
    var t := k[n..];
    assert t[|t| - 1] == k[|k| - 1];
  }

  /** A complete key that starts with a terminated key is that key. */
  lemma {:induction false} TermPrefix(p: Bytes, k: Bytes)
    requires FullKey(k) && ValidHex(p) && p <= k
    ensures HasTerm(p) <==> p == k
  {
    if HasTerm(p) {
      assert k[|p| - 1] == p[|p| - 1];
    }
  }

  lemma {:induction false} FullPrefix(k: Bytes, q: Bytes)
    requires FullKey(k) && FullKey(q)
    ensures k <= q <==> k == q
  {
    if k <= q { TermPrefix(k, q); }
  }

  lemma {:induction false} ForkTwo(i: Byte, a: Tree, j: Byte, b: Tree)
    requires i < 17 && j < 17 && i != j && !a.Empty? && !b.Empty?
    ensures AtLeastTwo(Fork(i, a, j, b).children)
    ensures |Fork(i, a, j, b).children| == 17
    ensures Fork(i, a, j, b).children[i] == a && Fork(i, a, j, b).children[j] == b
    ensures forall n :: 0 <= n < 17 && n != i && n != j ==> Fork(i, a, j, b).children[n] == Empty
  {
    hide NoChildren;
    var cs := Fork(i, a, j, b).children;
    var lo, hi := if i < j then i else j, if i < j then j else i;
    assert !cs[lo].Empty? && !cs[hi].Empty?;
  }

  /** What may stand at the end of a key: a value after the terminator, a canonical full node before. */
  ghost predicate EndsWell(p: Bytes, x: Tree)
  {
    ValidHex(p) && (if HasTerm(p) then x.Leaf? && x.value != [] else x.Branch? && Canon(x))
  }

  lemma {:induction false} HangCanon(p: Bytes, m: nat, x: Tree)
    requires EndsWell(p, x) && m < |p|
    ensures var h := Hang(p[m + 1..], x);
            && !h.Empty? && p[m] < 17
            && (if p[m] == TERM then h.Leaf? && h.value != [] else Canon(h))
  {
    var rest := p[m + 1..];
    if rest != [] {
      assert rest[|rest| - 1] == p[|p| - 1];
      assert ValidHex(rest);
    }
  }

  lemma {:induction false} SplitCanon(p: Bytes, c: Tree, k: Bytes, x: Tree, m: nat)
    requires EndsWell(p, c) && EndsWell(k, x)
    requires m < |p| && m < |k| && p[..m] == k[..m] && p[m] != k[m]
    ensures p[m] < 17 && k[m] < 17 && Canon(SplitExt(p, c, k, x, m)) && !SplitExt(p, c, k, x, m).Empty?
  {
    HangCanon(p, m, c);
    HangCanon(k, m, x);
    ForkTwo(p[m], Hang(p[m + 1..], c), k[m], Hang(k[m + 1..], x));
    assert Canon(Fork(p[m], Hang(p[m + 1..], c), k[m], Hang(k[m + 1..], x)));
    if m > 0 {
      assert ValidHex(k[..m]) && !HasTerm(k[..m]);
    }
  }

  lemma {:induction false} BranchCanon(cs: seq<Tree>, i: Byte, c: Tree)
    requires Canon(Branch(cs)) && i < 17 && !c.Empty?
    requires if i == TERM then c.Leaf? && c.value != [] else Canon(c)
    ensures Canon(Branch(cs[i := c]))
  {
    var a, b :| 0 <= a < b < |cs| && !cs[a].Empty? && !cs[b].Empty?;
    var ds := cs[i := c];
    assert !ds[a].Empty? && !ds[b].Empty?;
  }

  /** How a complete key meets a short node's key: it contains it, or leaves it strictly inside both. */
  lemma {:induction false} Meet(k: Bytes, p: Bytes)
    requires FullKey(k) && ValidHex(p)
    ensures var m := |CommonPrefix(k, p)|;
            && m <= |k| && m <= |p| && k[..m] == p[..m]
            && (m == |p| <==> p <= k)
            && (m == |p| ==> (HasTerm(p) <==> p == k) && (!HasTerm(p) ==> m < |k|))
            && (m < |p| ==> m < |k| && p[m] != k[m] && p[m] < 17 && k[m] < 17)
  {
    var c := CommonPrefix(k, p);
    var m := |c|;
    assert c == k[..m] == p[..m];
    if m == |p| {
      TermPrefix(p, k);
    } else if m == |k| {
      TermInside(k, p);
    }
  }

  lemma {:induction false} TermInside(k: Bytes, p: Bytes)
    requires FullKey(k) && ValidHex(p) && k <= p
    ensures k == p
  {
    assert p[|k| - 1] == TERM;
  }

  /** Insertion keeps the canonical form. */
  lemma {:induction false} PutCanon(t: Tree, k: Bytes, v: Bytes)
    requires Canon(t) && FullKey(k) && v != []
    ensures Canon(Put(t, k, Leaf(v))) && !Put(t, k, Leaf(v)).Empty?
  {
    hide SplitExt, CommonPrefix;
    match t
    case Empty =>
    case Ext(p, c) =>
      var m := |CommonPrefix(k, p)|;
      Meet(k, p);
      if m < |p| {
        SplitCanon(p, c, k, Leaf(v), m);
      } else if !HasTerm(p) {
        FullKeyTail(k, m);
        PutCanon(c, k[m..], v);
        PutStaysBranch(c, k[m..], v);
      }
    case Branch(cs) =>
      FullKeyTail(k, 0);
      if k[0] == TERM {
        assert k[1..] == [];
        BranchCanon(cs, k[0], Leaf(v));
      } else {
        FullKeyTail(k, 1);
        PutCanon(cs[k[0]], k[1..], v);
        BranchCanon(cs, k[0], Put(cs[k[0]], k[1..], Leaf(v)));
      }
  }

  lemma {:induction false} PutStaysBranch(t: Tree, k: Bytes, v: Bytes)
    requires t.Branch? && k != []
    ensures Put(t, k, Leaf(v)).Branch?
  {
  }

  // ---------------------------------------------------------------- insertion as a map update

  lemma {:induction false} GetHang(rest: Bytes, x: Tree, k: Bytes)
    ensures Get(Hang(rest, x), k) == if rest <= k then Get(x, k[|rest|..]) else None
  {
    if rest == [] { assert k[0..] == k; }
  }

  /** Where a forked node leads: along one of its two keys, or nowhere. */
  lemma {:induction false} GetSplit(p: Bytes, c: Tree, k: Bytes, x: Tree, m: nat, q: Bytes)
    requires m < |p| && m < |k| && p[..m] == k[..m] && p[m] != k[m] && p[m] < 17 && k[m] < 17
    ensures Get(SplitExt(p, c, k, x, m), q)
         == if p <= q then Get(c, q[|p|..]) else if k <= q then Get(x, q[|k|..]) else None
  {
    hide Get;
    var a, b := Hang(p[m + 1..], c), Hang(k[m + 1..], x);
    var fork := Fork(p[m], a, k[m], b);
    if k[..m] <= q {
      var r := q[m..];
      GetFork(p[m], a, k[m], b, r);
      if r != [] {
        assert q[m + 1..] == r[1..];
        GetHang(p[m + 1..], c, r[1..]);
        GetHang(k[m + 1..], x, r[1..]);
        PrefixSplit(p, m, q);
        PrefixSplit(k, m, q);
      }
      GetExt(k[..m], fork, q);
    } else {
      GetExt(k[..m], fork, q);
      ShortPrefix(p, m, q);
      ShortPrefix(k, m, q);
    }
  }

  lemma {:induction false} ShortPrefix(p: Bytes, m: nat, q: Bytes)
    requires m <= |p|
    ensures p <= q ==> p[..m] <= q
  {
  }

  lemma {:induction false} GetExt(p: Bytes, c: Tree, q: Bytes)
    ensures Get(Hang(p, c), q) == if p <= q then Get(c, q[|p|..]) else None
  {
    GetHang(p, c, q);
  }

  lemma {:induction false} GetFork(i: Byte, a: Tree, j: Byte, b: Tree, r: Bytes)
    requires i < 17 && j < 17 && i != j
    ensures r == [] ==> Get(Fork(i, a, j, b), r) == None
    ensures r != [] && r[0] == i ==> Get(Fork(i, a, j, b), r) == Get(a, r[1..])
    ensures r != [] && r[0] == j ==> Get(Fork(i, a, j, b), r) == Get(b, r[1..])
    ensures r != [] && r[0] != i && r[0] != j ==> Get(Fork(i, a, j, b), r) == None
  {
  }

  lemma {:induction false} PrefixSplit(p: Bytes, m: nat, q: Bytes)
    requires m < |p| && p[..m] <= q && m < |q|
    ensures p <= q <==> p[m] == q[m] && p[m + 1..] <= q[m + 1..]
    ensures p <= q ==> q[m + 1..][|p[m + 1..]|..] == q[|p|..]
  {
    if p[m] == q[m] && p[m + 1..] <= q[m + 1..] {
      assert p == p[..m] + [p[m]] + p[m + 1..];
      assert q == q[..m] + [q[m]] + q[m + 1..];
    }
    if p <= q {
      assert p[m + 1..] == q[m + 1..][..|p| - m - 1];
    }
  }

  /** Insertion changes the value at its key and nothing else. */
  lemma {:induction false} PutGet(t: Tree, k: Bytes, v: Bytes, q: Bytes)
    requires Canon(t) && FullKey(k) && FullKey(q)
    ensures Get(Put(t, k, Leaf(v)), q) == if q == k then Some(v) else Get(t, q)
    decreases t, 1
  {
    hide SplitExt, CommonPrefix, Canon;
    match t
    case Empty =>
      FullPrefix(k, q);
    case Ext(p, c) =>
      PutGetExt(t, k, v, q);
    case Branch(cs) =>
      PutGetBranch(t, k, v, q);
    case Leaf(_) =>
      NotLeaf(t);
  }

  lemma {:induction false} NotLeaf(t: Tree)
    requires Canon(t)
    ensures !t.Leaf?
  {
  }

  lemma {:induction false} PutGetExt(t: Tree, k: Bytes, v: Bytes, q: Bytes)
    requires Canon(t) && FullKey(k) && FullKey(q) && t.Ext?
    ensures Get(Put(t, k, Leaf(v)), q) == if q == k then Some(v) else Get(t, q)
    decreases t, 0
  {
    hide SplitExt, CommonPrefix;
    var p, c := t.key, t.child;
    var m := |CommonPrefix(k, p)|;
    Meet(k, p);
    if m < |p| {
      GetSplit(p, c, k, Leaf(v), m, q);
      FullPrefix(k, q);
    } else if HasTerm(p) {
      FullPrefix(p, q);
    } else {
      FullKeyTail(k, m);
      if p <= q {
        TermPrefix(p, q);
        FullKeyTail(q, m);
        PutGet(c, k[m..], v, q[m..]);
        SameTail(p, k, q);
      }
    }
  }

  lemma {:induction false} PutGetBranch(t: Tree, k: Bytes, v: Bytes, q: Bytes)
    requires Canon(t) && FullKey(k) && FullKey(q) && t.Branch?
    ensures Get(Put(t, k, Leaf(v)), q) == if q == k then Some(v) else Get(t, q)
    decreases t, 0
  {
    var cs := t.children;
    FullKeyTail(k, 0);
    FullKeyTail(q, 0);
    if q[0] == k[0] {
      SameTail([k[0]], k, q);
      if k[0] == TERM {
        assert k[1..] == [] && q[1..] == [];
      } else {
        FullKeyTail(k, 1);
        FullKeyTail(q, 1);
        PutGet(cs[k[0]], k[1..], v, q[1..]);
      }
    }
  }

  // ---------------------------------------------------------------- deletion

  /** The index of the only entry, -1 if there is none and -2 if there are several. */
  function Lone(cs: seq<Tree>): (pos: int)
    ensures -2 <= pos < |cs|
    ensures pos >= 0 ==> !cs[pos].Empty? && forall i :: 0 <= i < |cs| && i != pos ==> cs[i].Empty?
    ensures pos == -1 ==> forall i :: 0 <= i < |cs| ==> cs[i].Empty?
    ensures pos == -2 ==> AtLeastTwo(cs)
  {
    if cs == [] then -1 else
      var front, last := cs[..|cs| - 1], cs[|cs| - 1];
      var pos := Lone(front);
      if last.Empty? then pos
      else if pos == -1 then |cs| - 1
      else (assert pos >= 0 ==> !cs[pos].Empty?; -2)
  }

  /** A one-nibble step to `c`, merged with a short node. */
  function Shorten(pos: Byte, c: Tree): Tree
  {
    if pos != TERM && c.Ext? then Ext([pos] + c.key, c.child) else Ext([pos], c)
  }

  /** A full node reduced to a short node if only one entry is left. */
  function Reduce(cs: seq<Tree>): Tree
    requires |cs| == 17
  {
    if Lone(cs) >= 0 then Shorten(Lone(cs), cs[Lone(cs)]) else Branch(cs)
  }

  /** A short node in front of `c`, merged with a short node. */
  function Join(p: Bytes, c: Tree): Tree
  {
    if c.Ext? then Ext(p + c.key, c.child) else Ext(p, c)
  }

  /** The tree without key `k`. */
  function Remove(t: Tree, k: Bytes): Tree
  {
    match t
    case Empty => Empty
    case Leaf(_) => Empty
    case Ext(p, c) =>
      var m := |CommonPrefix(k, p)|;
      if m < |p| then t
      else if m == |k| then Empty
      else Join(p, Remove(c, k[m..]))
    case Branch(cs) =>
      if k != [] && k[0] < |cs| && |cs| == 17 then Reduce(cs[k[0] := Remove(cs[k[0]], k[1..])]) else t
  }

  lemma {:induction false} JoinCanon(p: Bytes, c: Tree)
    requires p != [] && ValidHex(p) && !HasTerm(p) && Canon(c) && !c.Empty?
    ensures Canon(Join(p, c)) && Join(p, c).Ext?
  {
    if c.Ext? {
      var q := p + c.key;
      assert q[|q| - 1] == c.key[|c.key| - 1];
    }
  }

  lemma {:induction false} ReduceCanon(cs: seq<Tree>, i: Byte, c: Tree)
    requires Canon(Branch(cs)) && i < 17
    requires if i == TERM then c.Empty? else Canon(c)
    ensures Canon(Reduce(cs[i := c])) && !Reduce(cs[i := c]).Empty?
  {
    var ds := cs[i := c];
    var a, b :| 0 <= a < b < |cs| && !cs[a].Empty? && !cs[b].Empty?;
    assert ds[a] == cs[a] || ds[b] == cs[b];
    var pos := Lone(ds);
    assert pos != -1;
    if 0 <= pos < 16 {
      assert Canon(ds[pos]);
      JoinCanon([pos], ds[pos]);
    }
  }

  /** Deletion keeps the canonical form, and never empties a full node. */
  lemma {:induction false} RemoveCanon(t: Tree, k: Bytes)
    requires Canon(t) && FullKey(k)
    ensures Canon(Remove(t, k)) && (t.Branch? ==> !Remove(t, k).Empty?)
  {
    hide CommonPrefix, Join, Reduce;
    match t
    case Empty =>
    case Ext(p, c) =>
      var m := |CommonPrefix(k, p)|;
      Meet(k, p);
      if m == |p| && !HasTerm(p) {
        FullKeyTail(k, m);
        RemoveCanon(c, k[m..]);
        JoinCanon(p, Remove(c, k[m..]));
      }
    case Branch(cs) =>
      FullKeyTail(k, 0);
      if k[0] != TERM {
        FullKeyTail(k, 1);
        RemoveCanon(cs[k[0]], k[1..]);
      }
      ReduceCanon(cs, k[0], Remove(cs[k[0]], k[1..]));
  }

  lemma {:induction false} PrefixConcat(p: Bytes, r: Bytes, q: Bytes)
    ensures p + r <= q <==> p <= q && r <= q[|p|..]
    ensures p + r <= q ==> q[|p + r|..] == q[|p|..][|r|..]
  {
    if p <= q && r <= q[|p|..] {
      assert q == p + q[|p|..];
    }
    if p + r <= q {
      assert p == (p + r)[..|p|] && r == (p + r)[|p|..];
      assert r == q[|p|..][..|r|];
    }
  }

  lemma {:induction false} GetJoin(p: Bytes, c: Tree, q: Bytes)
    ensures Get(Join(p, c), q) == if p <= q then Get(c, q[|p|..]) else None
  {
    if c.Ext? {
      PrefixConcat(p, c.key, q);
    }
  }

  lemma {:induction false} GetReduce(cs: seq<Tree>, q: Bytes)
    requires |cs| == 17 && q != [] && q[0] < 17
    ensures Get(Reduce(cs), q) == Get(cs[q[0]], q[1..])
  {
    hide Lone;
    var pos := Lone(cs);
    if pos >= 0 {
      GetShorten(pos, cs[pos], q);
      if q[0] != pos { assert cs[q[0]].Empty?; }
    }
  }

  lemma {:induction false} GetShorten(pos: Byte, c: Tree, q: Bytes)
    requires q != []
    ensures Get(Shorten(pos, c), q) == if q[0] == pos then Get(c, q[1..]) else None
  {
    assert [pos] <= q <==> q[0] == pos;
    GetJoin([pos], c, q);
  }

  /** Deletion clears its key and nothing else. */
  lemma {:induction false} RemoveGet(t: Tree, k: Bytes, q: Bytes)
    requires Canon(t) && FullKey(k) && FullKey(q)
    ensures Get(Remove(t, k), q) == if q == k then None else Get(t, q)
    decreases t, 1
  {
    match t
    case Empty =>
    case Ext(p, c) => RemoveGetExt(t, k, q);
    case Branch(cs) => RemoveGetBranch(t, k, q);
  }

  lemma {:induction false} RemoveGetExt(t: Tree, k: Bytes, q: Bytes)
    requires Canon(t) && FullKey(k) && FullKey(q) && t.Ext?
    ensures Get(Remove(t, k), q) == if q == k then None else Get(t, q)
    decreases t, 0
  {
    hide CommonPrefix, Join, Reduce;
    var p, c := t.key, t.child;
    var m := |CommonPrefix(k, p)|;
    Meet(k, p);
    if m == |p| {
      if HasTerm(p) {
        FullPrefix(p, q);
      } else {
        FullKeyTail(k, m);
        GetJoin(p, Remove(c, k[m..]), q);
        if p <= q {
          TermPrefix(p, q);
          FullKeyTail(q, m);
          RemoveGet(c, k[m..], q[m..]);
          SameTail(p, k, q);
        }
      }
    }
  }

  lemma {:induction false} SameTail(p: Bytes, k: Bytes, q: Bytes)
    requires p <= k && p <= q
    ensures k == q <==> k[|p|..] == q[|p|..]
  {
    assert k == p + k[|p|..] && q == p + q[|p|..];
  }

  lemma {:induction false} RemoveGetBranch(t: Tree, k: Bytes, q: Bytes)
    requires Canon(t) && FullKey(k) && FullKey(q) && t.Branch?
    ensures Get(Remove(t, k), q) == if q == k then None else Get(t, q)
    decreases t, 0
  {
    hide Reduce;
    var cs := t.children;
    FullKeyTail(k, 0);
    FullKeyTail(q, 0);
    GetReduce(cs[k[0] := Remove(cs[k[0]], k[1..])], q);
    if q[0] == k[0] {
      SameTail([k[0]], k, q);
      if k[0] != TERM {
        FullKeyTail(k, 1);
        FullKeyTail(q, 1);
        RemoveGet(cs[k[0]], k[1..], q[1..]);
      }
    }
  }

  // ---------------------------------------------------------------- history independence

  lemma {:induction false} ConsFull(i: Byte, k: Bytes)
    requires FullKey(k) && i < 16
    ensures FullKey([i] + k) && ([i] + k)[1..] == k
  {
    var q := [i] + k;
    assert q[|q| - 1] == k[|k| - 1];
  }

  lemma {:induction false} ConcatFull(p: Bytes, k: Bytes)
    requires FullKey(k) && ValidHex(p) && !HasTerm(p)
    ensures FullKey(p + k) && p <= p + k && (p + k)[|p|..] == k
  {
    var q := p + k;
    assert q[|q| - 1] == k[|k| - 1];
  }

  /** Every non-empty canonical tree holds a key. */
  lemma {:induction false} SomeKey(t: Tree) returns (k: Bytes)
    requires Canon(t) && !t.Empty?
    ensures FullKey(k) && Get(t, k).Some?
    decreases t, 1
  {
    match t
    case Ext(p, c) =>
      if HasTerm(p) {
        k := p;
        assert p[|p|..] == [];
      } else {
        var r := SomeKey(c);
        ConcatFull(p, r);
        k := p + r;
      }
    case Branch(cs) =>
      k := KeyBesides(t, 17);
  }

  /** A full node holds a key that does not start with `x`, whatever `x` is. */
  lemma {:induction false} KeyBesides(t: Tree, x: int) returns (k: Bytes)
    requires Canon(t) && t.Branch?
    ensures FullKey(k) && Get(t, k).Some? && k[0] != x
    decreases t, 0
  {
    var cs := t.children;
    var a, b :| 0 <= a < b < |cs| && !cs[a].Empty? && !cs[b].Empty?;
    var i: Byte := if a != x then a else b;
    if i == TERM {
      k := [i];
      assert k[1..] == [];
    } else {
      var r := SomeKey(cs[i]);
      ConsFull(i, r);
      k := [i] + r;
    }
  }

  /** Different canonical trees are told apart by a key. */
  lemma {:induction false} Distinguish(s: Tree, t: Tree) returns (k: Bytes)
    requires Canon(s) && Canon(t) && s != t
    ensures FullKey(k) && Get(s, k) != Get(t, k)
    decreases s
  {
    if s.Empty? {
      k := SomeKey(t);
    } else if t.Empty? {
      k := SomeKey(s);
    } else if s.Branch? && t.Branch? {
      var i: Byte := DifferentChild(s.children, t.children);
      if i == TERM {
        k := [i];
        assert k[1..] == [];
      } else {
        var r := Distinguish(s.children[i], t.children[i]);
        ConsFull(i, r);
        k := [i] + r;
      }
    } else if s.Branch? {
      k := KeyBesides(s, t.key[0]);
    } else if t.Branch? {
      k := KeyBesides(t, s.key[0]);
    } else if s.key == t.key {
      if HasTerm(s.key) {
        k := s.key;
        assert s.key[|s.key|..] == [];
      } else {
        var r := Distinguish(s.child, t.child);
        ConcatFull(s.key, r);
        k := s.key + r;
      }
    } else {
      k := DifferentExt(s, t);
    }
  }

  lemma {:induction false} DifferentChild(cs: seq<Tree>, ds: seq<Tree>) returns (i: nat)
    requires |cs| == |ds| && cs != ds
    ensures i < |cs| && cs[i] != ds[i]
  {
    i :| 0 <= i < |cs| && cs[i] != ds[i];
  }

  lemma {:induction false} DifferentExt(s: Tree, t: Tree) returns (k: Bytes)
    requires Canon(s) && Canon(t) && s.Ext? && t.Ext? && s.key != t.key
    ensures FullKey(k) && Get(s, k) != Get(t, k)
  {
    var m := |CommonPrefix(s.key, t.key)|;
    assert CommonPrefix(s.key, t.key) == s.key[..m] == t.key[..m];
    if m == |s.key| {
      k := BeyondKey(s, t);
    } else if m == |t.key| {
      k := BeyondKey(t, s);
    } else {
      k := SomeKey(s);
      assert s.key <= k;
      assert k[m] == s.key[m];
    }
  }

  /** The shorter key belongs to an extension, which branches away from the longer one. */
  lemma {:induction false} BeyondKey(s: Tree, t: Tree) returns (k: Bytes)
    requires Canon(s) && Canon(t) && s.Ext? && t.Ext? && s.key < t.key
    ensures FullKey(k) && Get(s, k).Some? && Get(t, k).None?
  {
    var m := |s.key|;
    if HasTerm(s.key) { TermInside(s.key, t.key); }
    var r := KeyBesides(s.child, t.key[m]);
    ConcatFull(s.key, r);
    k := s.key + r;
    assert k[m] == r[0];
  }

  /** Canonical trees with the same keys and values are equal. */
  lemma {:induction false} Unique(s: Tree, t: Tree)
    requires Canon(s) && Canon(t)
    requires forall k :: FullKey(k) ==> Get(s, k) == Get(t, k)
    ensures s == t
  {
    if s != t {
      var k := Distinguish(s, t);
    }
  }

  /** An update of a byte key: an empty value deletes. */
  datatype Update = Update(key: Bytes, value: Bytes)

  function Apply(t: Tree, u: Update): Tree
  {
    if u.value == [] then Remove(t, KeyHex(u.key)) else Put(t, KeyHex(u.key), Leaf(u.value))
  }

  function Run(us: seq<Update>): Tree
  {
    if us == [] then Empty else Apply(Run(us[..|us| - 1]), us[|us| - 1])
  }

  /** The map an update sequence leaves behind. */
  function Final(us: seq<Update>): map<Bytes, Bytes>
  {
    if us == [] then map[] else
      var m, u := Final(us[..|us| - 1]), us[|us| - 1];
      if u.value == [] then m - {u.key} else m[u.key := u.value]
  }

  function Lookup(m: map<Bytes, Bytes>, key: Bytes): Option<Bytes>
  {
    if key in m then Some(m[key]) else None
  }

  /** The tree is canonical and holds exactly the entries of `m`. */
  ghost predicate Models(t: Tree, m: map<Bytes, Bytes>)
  {
    && Canon(t)
    && (forall key :: Get(t, KeyHex(key)) == Lookup(m, key))
    && (forall k :: FullKey(k) && Get(t, k).Some? ==> exists key :: KeyHex(key) == k)
  }

  /** One update of the tree is one update of the map. */
  lemma {:induction false} ApplyModels(t: Tree, m: map<Bytes, Bytes>, u: Update)
    requires Models(t, m)
    ensures Models(Apply(t, u), if u.value == [] then m - {u.key} else m[u.key := u.value])
  {
    hide Canon, Get, FullKey, KeyHex;
    var h := KeyHex(u.key);
    FullKeyHex(u.key);
    var t' := Apply(t, u);
    if u.value == [] { RemoveCanon(t, h); } else { PutCanon(t, h, u.value); }
    forall k | FullKey(k)
      ensures Get(t', k) == if k == h then (if u.value == [] then None else Some(u.value)) else Get(t, k)
    {
      if u.value == [] { RemoveGet(t, h, k); } else { PutGet(t, h, u.value, k); }
    }
    var m' := if u.value == [] then m - {u.key} else m[u.key := u.value];
    forall key ensures Get(t', KeyHex(key)) == Lookup(m', key) {
      FullKeyHex(key);
      if key != u.key && KeyHex(key) == h { KeyHexInjective(key, u.key); }
    }
  }

  lemma {:induction false} FullKeyHex(key: Bytes)
    ensures FullKey(KeyHex(key))
  {
    KeyHexValid(key);
  }

  lemma {:induction false} RunModels(us: seq<Update>)
    ensures Models(Run(us), Final(us))
  {
    hide Models, Apply;
    if us == [] {
      EmptyModels();
    } else {
      RunModels(us[..|us| - 1]);
      ApplyModels(Run(us[..|us| - 1]), Final(us[..|us| - 1]), us[|us| - 1]);
    }
  }

  lemma {:induction false} EmptyModels()
    ensures Models(Empty, map[])
  {
  }

  /** A map has at most one tree. */
  lemma {:induction false} ModelUnique(s: Tree, t: Tree, m: map<Bytes, Bytes>)
    requires Models(s, m) && Models(t, m)
    ensures s == t
  {
    hide Canon, FullKey, KeyHex, Get;
    forall k | FullKey(k) ensures Get(s, k) == Get(t, k) {
      if Get(s, k).Some? || Get(t, k).Some? {
        var key :| KeyHex(key) == k;
        assert Get(s, KeyHex(key)) == Lookup(m, key) == Get(t, KeyHex(key));
      }
    }
    Unique(s, t);
  }

  /** Any two update sequences that leave the same map leave the same tree. */
  lemma {:induction false} HistoryIndependence(us: seq<Update>, vs: seq<Update>)
    requires Final(us) == Final(vs)
    ensures Run(us) == Run(vs)
  {
    RunModels(us);
    RunModels(vs);
    ModelUnique(Run(us), Run(vs), Final(us));
  }
}
