/** How nodes in memory represent a tree when parts of it live in a node store.

    A store maps hashes to encoded nodes.  A hash in memory, whether a reference or a cached hash,
    must be the true hash of the subtree it stands for, and whatever is not in memory or not dirty
    must be found in the store. */
module TrieStore {
  import opened Common
  import opened RlpSpec
  import opened HexPrefix
  import opened PatriciaTree
  import opened NodeCodec

  type Store = map<Bytes, Bytes>

  ghost predicate Extends(db: Store, db': Store)
  {
    forall h :: h in db ==> h in db' && db'[h] == db[h]
  }

  /** The nodes of `t` below its root are in the store, as far as they are stored by hash. */
  ghost predicate ChildrenStored(H: Bytes -> Bytes, db: Store, t: Tree)
    decreases t, 0
  {
    && (t.Ext? ==> RefStored(H, db, t.child))
    && (t.Branch? ==> forall i :: 0 <= i < |t.children| ==> RefStored(H, db, t.children[i]))
  }

  ghost predicate RefStored(H: Bytes -> Bytes, db: Store, t: Tree)
    decreases t, 1
  {
    && ChildrenStored(H, db, t)
    && ((t.Ext? || t.Branch?) && |Blob(H, t)| >= HASH_LEN ==> InStore(H, db, t))
  }

  ghost predicate InStore(H: Bytes -> Bytes, db: Store, t: Tree)
  {
    H(Blob(H, t)) in db && db[H(Blob(H, t))] == Blob(H, t)
  }

  /** The whole tree, root included, can be read back from the store. */
  ghost predicate Stored(H: Bytes -> Bytes, db: Store, t: Tree)
  {
    (t.Ext? || t.Branch?) && InStore(H, db, t) && ChildrenStored(H, db, t)
  }

  /** A cached hash is the hash of the subtree; only a root may have one below the embedding limit;
      a clean node with a hash is stored, and a clean node without one is embedded in its parent. */
  ghost predicate FlagOk(H: Bytes -> Bytes, db: Store, f: Flag, t: Tree, top: bool)
  {
    && (f.hash.Some? ==>
          && f.hash.value == H(Blob(H, t))
          && (top || |Blob(H, t)| >= HASH_LEN)
          && (!f.dirty ==> Stored(H, db, t)))
    && (f.hash.None? && !f.dirty ==> !top && |Blob(H, t)| < HASH_LEN)
  }

  /** Node `n` represents tree `t`. */
  ghost predicate Rep(H: Bytes -> Bytes, db: Store, n: Node, t: Tree, top: bool)
    decreases t
  {
    match n
    case Nil => t.Empty?
    case Value(v) => t == Leaf(v)
    case Short(k, v, f) =>
      t.Ext? && t.key == k && Rep(H, db, v, t.child, false) && FlagOk(H, db, f, t, top)
    case Full(cs, f) =>
      && t.Branch? && |cs| == |t.children| && FlagOk(H, db, f, t, top)
      && (forall i :: 0 <= i < |cs| ==> Rep(H, db, cs[i], t.children[i], false))
    case HashRef(h) =>
      h == H(Blob(H, t)) && Stored(H, db, t) && (top || |Blob(H, t)| >= HASH_LEN)
  }

  // ---------------------------------------------------------------- larger stores

  lemma {:induction false} ChildrenStoredMono(H: Bytes -> Bytes, db: Store, db': Store, t: Tree)
    requires Extends(db, db') && ChildrenStored(H, db, t)
    ensures ChildrenStored(H, db', t)
    decreases t, 0
  {
    hide Blob;
    match t
    case Empty =>
    case Leaf(_) =>
    case Ext(_, c) => RefStoredMono(H, db, db', c);
    case Branch(cs) =>
      forall i | 0 <= i < |cs| ensures RefStored(H, db', cs[i]) {
        RefStoredMono(H, db, db', cs[i]);
      }
  }

  lemma {:induction false} RefStoredMono(H: Bytes -> Bytes, db: Store, db': Store, t: Tree)
    requires Extends(db, db') && RefStored(H, db, t)
    ensures RefStored(H, db', t)
    decreases t, 1
  {
    hide Blob;
    ChildrenStoredMono(H, db, db', t);
  }

  lemma {:induction false} StoredMono(H: Bytes -> Bytes, db: Store, db': Store, t: Tree)
    requires Extends(db, db') && Stored(H, db, t)
    ensures Stored(H, db', t)
  {
    hide Blob;
    ChildrenStoredMono(H, db, db', t);
  }

  /** Adding to the store keeps every representation. */
  lemma {:induction false} RepMono(H: Bytes -> Bytes, db: Store, db': Store, n: Node, t: Tree, top: bool)
    requires Extends(db, db') && Rep(H, db, n, t, top)
    ensures Rep(H, db', n, t, top)
    decreases t
  {
    hide Blob, Stored, Extends;
    match n
    case Nil =>
    case Value(_) =>
    case Short(_, v, f) =>
      RepMono(H, db, db', v, t.child, false);
      FlagMono(H, db, db', f, t, top);
    case Full(cs, f) =>
      FlagMono(H, db, db', f, t, top);
      forall i | 0 <= i < |cs| ensures Rep(H, db', cs[i], t.children[i], false) {
        RepMono(H, db, db', cs[i], t.children[i], false);
      }
    case HashRef(_) => StoredMono(H, db, db', t);
  }

  lemma {:induction false} FlagMono(H: Bytes -> Bytes, db: Store, db': Store, f: Flag, t: Tree, top: bool)
    requires Extends(db, db') && FlagOk(H, db, f, t, top)
    ensures FlagOk(H, db', f, t, top)
  {
    hide Blob, Stored, Extends;
    if f.hash.Some? && !f.dirty { StoredMono(H, db, db', t); }
  }

  // ---------------------------------------------------------------- loading

  /** The loaded form of a stored tree represents it. */
  lemma {:induction false} LoadedRep(H: Bytes -> Bytes, db: Store, t: Tree, hash: Option<Bytes>, gen: nat, top: bool)
    requires ChildrenStored(H, db, t)
    requires hash.Some? ==> hash.value == H(Blob(H, t)) && Stored(H, db, t) && (top || |Blob(H, t)| >= HASH_LEN)
    requires hash.None? && (t.Ext? || t.Branch?) ==> !top && |Blob(H, t)| < HASH_LEN
    ensures Rep(H, db, Loaded(H, t, hash, gen), t, top)
    decreases t, 0
  {
    hide Blob;
    match t
    case Empty =>
    case Leaf(_) =>
    case Ext(_, c) => LoadedRefRep(H, db, c, gen);
    case Branch(cs) =>
      forall i | 0 <= i < |cs| ensures Rep(H, db, LoadedRefs(H, cs, gen)[i], cs[i], false) {
        LoadedRefRep(H, db, cs[i], gen);
      }
  }

  lemma {:induction false} LoadedRefRep(H: Bytes -> Bytes, db: Store, t: Tree, gen: nat)
    requires RefStored(H, db, t)
    ensures Rep(H, db, LoadedRef(H, t, gen), t, false)
    decreases t, 1
  {
    hide Blob;
    if t.Empty? || t.Leaf? || |Blob(H, t)| < HASH_LEN {
      LoadedRep(H, db, t, None, gen, false);
    }
  }

  datatype TrieError = MissingNode(hash: Bytes) | Panic

  /** `resolveHash`: read and decode a node; an undecodable one makes the source panic. */
  function Resolve(db: Store, h: Bytes, gen: nat): (r: Result<Node, TrieError>)
    ensures r.Ok? ==> r.value.Short? || r.value.Full?
  {
    if h !in db then Err(MissingNode(h)) else
      var n := DecodeNode(Some(h), db[h], gen);
      if n.Ok? then Ok(n.value) else Err(Panic)
  }

  /** Resolving a hash reference yields a loaded node representing the same tree. */
  lemma {:induction false} ResolveRep(H: Bytes -> Bytes, db: Store, h: Bytes, t: Tree, gen: nat, top: bool)
    requires HashLen(H) && Canon(t) && Fits(H, t) && Rep(H, db, HashRef(h), t, top)
    ensures Resolve(db, h, gen).Ok?
    ensures var n := Resolve(db, h, gen).value;
            Rep(H, db, n, t, top) && (n.Short? || n.Full?) && n == Loaded(H, t, Some(h), gen)
  {
    hide Blob, DecodeNode, ChildrenStored;
    NodeRoundTrip(H, t, Some(h), gen, []);
    assert Blob(H, t) + [] == Blob(H, t);
    LoadedRep(H, db, t, Some(h), gen, top);
  }
}
