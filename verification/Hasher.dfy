/** Hashing and committing nodes (trie/hasher.go).

    Hashing reuses cached hashes, embeds small nodes, may unload old clean nodes and, when committing,
    writes the encoded nodes to the store.  It is proved to return the true reference of the tree it is
    given, to keep the tree represented, and, when committing, to leave the whole tree readable from
    the store.  Only collisions of the hash function could spoil the store, so the hash is required to
    be injective on a set covering the encodings involved. */
module Hasher {
  import opened Common
  import opened RlpSpec
  import opened HexPrefix
  import opened PatriciaTree
  import opened NodeCodec
  import opened TrieStore

  /** The collapsed reference, the node with hashes cached in, and the store afterwards. */
  datatype Hashed = Hashed(item: Item, cached: Node, db: Store)

  datatype HashedAll = HashedAll(items: seq<Item>, cached: seq<Node>, db: Store)

  /** What does not change while hashing: cache generation and limit, and whether to commit. */
  datatype Mode = Mode(gen: nat, limit: nat, persist: bool)

  /** `canUnload`, in 16-bit arithmetic. */
  predicate CanUnload(f: Flag, mode: Mode)
  {
    !f.dirty && (mode.gen - f.gen) % 0x1_0000 >= mode.limit
  }

  /** `hash`. */
  function Hash(H: Bytes -> Bytes, n: Node, db: Store, mode: Mode, force: bool): Hashed
    decreases n, 1
  {
    match n
    case Nil => Hashed(Str([]), n, db)
    case Value(v) => Hashed(Str(v), n, db)
    case HashRef(h) => Hashed(Str(h), n, db)
    case Short(k, v, f) =>
      if UseCached(f, mode) then FromCache(n, f, db, mode) else
        var c := Hash(H, v, db, mode, false);
        StoreNode(H, List([Str(Compact(k)), c.item]), Short(k, c.cached, f), f, c.db, mode, force)
    case Full(cs, f) =>
      if UseCached(f, mode) then FromCache(n, f, db, mode) else
        var c := HashAll(H, cs, db, mode);
        StoreNode(H, List(c.items), Full(c.cached, f), f, c.db, mode, force)
  }

  /** The children of a full node, from left to right. */
  function HashAll(H: Bytes -> Bytes, cs: seq<Node>, db: Store, mode: Mode): HashedAll
    decreases cs
  {
    if cs == [] then HashedAll([], [], db) else
      var front := HashAll(H, cs[..|cs| - 1], db, mode);
      var last := Hash(H, cs[|cs| - 1], front.db, mode, false);
      HashedAll(front.items + [last.item], front.cached + [last.cached], last.db)
  }

  /** Whether the cached hash is used instead of walking the children. */
  predicate UseCached(f: Flag, mode: Mode)
  {
    f.hash.Some? && (!mode.persist || CanUnload(f, mode) || !f.dirty)
  }

  function FromCache(n: Node, f: Flag, db: Store, mode: Mode): Hashed
    requires f.hash.Some?
  {
    Hashed(Str(f.hash.value), if mode.persist && CanUnload(f, mode) then HashRef(f.hash.value) else n, db)
  }

  function WithFlag(n: Node, f: Flag): Node
  {
    match n
    case Short(k, v, _) => Short(k, v, f)
    case Full(cs, _) => Full(cs, f)
    case Nil => n
    case Value(_) => n
    case HashRef(_) => n
  }

  /** `store`, and the flag update after it. */
  function StoreNode(H: Bytes -> Bytes, body: Item, n: Node, f: Flag, db: Store, mode: Mode, force: bool): Hashed
  {
    var enc := Encode(body);
    var dirty := if mode.persist then false else f.dirty;
    if |enc| < HASH_LEN && !force then
      Hashed(body, WithFlag(n, Flag(None, f.gen, dirty)), db)
    else
      var hash := if f.hash.Some? then f.hash.value else H(enc);
      var db' := if mode.persist && hash !in db then db[hash := enc] else db;
      Hashed(Str(hash), WithFlag(n, Flag(Some(hash), f.gen, dirty)), db')
  }

  // ---------------------------------------------------------------- collision freedom

  ghost predicate InjectiveOn(H: Bytes -> Bytes, S: set<Bytes>)
  {
    forall x, y :: x in S && y in S && H(x) == H(y) ==> x == y
  }

  /** Every node encoding of `t` is in `S`. */
  ghost predicate Covers(S: set<Bytes>, H: Bytes -> Bytes, t: Tree)
  {
    && (t.Ext? || t.Branch? ==> Blob(H, t) in S)
    && (t.Ext? ==> Covers(S, H, t.child))
    && (t.Branch? ==> forall i :: 0 <= i < |t.children| ==> Covers(S, H, t.children[i]))
  }

  /** Every entry is stored under its own hash, and all entries are in `S`. */
  ghost predicate ContentAddressed(H: Bytes -> Bytes, db: Store, S: set<Bytes>)
  {
    forall h :: h in db ==> H(db[h]) == h && db[h] in S
  }

  // ---------------------------------------------------------------- correctness

  /** The reference a node is replaced by: a root is always hashed. */
  ghost function WantItem(H: Bytes -> Bytes, t: Tree, top: bool): Item
  {
    if top && (t.Ext? || t.Branch?) then Str(H(Blob(H, t))) else Ref(H, t)
  }

  /** What hashing node `n` of tree `t` achieves. */
  ghost predicate Achieves(H: Bytes -> Bytes, db: Store, r: Hashed, t: Tree, mode: Mode, top: bool, S: set<Bytes>)
  {
    && r.item == WantItem(H, t, top)
    && Extends(db, r.db) && (!mode.persist ==> r.db == db)
    && (mode.persist ==> ContentAddressed(H, r.db, S) && RefStored(H, r.db, t))
    && (mode.persist && top && (t.Ext? || t.Branch?) ==> Stored(H, r.db, t))
    && Rep(H, r.db, r.cached, t, top)
  }

  lemma {:induction false} ExtendsTrans(a: Store, b: Store, c: Store)
    requires Extends(a, b) && Extends(b, c)
    ensures Extends(a, c)
  {
  }

  lemma {:induction false} RefIsHash(H: Bytes -> Bytes, t: Tree, top: bool)
    requires (t.Ext? || t.Branch?) && (top || |Blob(H, t)| >= HASH_LEN)
    ensures WantItem(H, t, top) == Str(H(Blob(H, t)))
  {
  }

  lemma {:induction false} StoredRef(H: Bytes -> Bytes, db: Store, t: Tree)
    requires Stored(H, db, t)
    ensures RefStored(H, db, t)
  {
    hide Blob;
  }

  lemma {:induction false} CacheAchieves(H: Bytes -> Bytes, db: Store, n: Node, f: Flag, t: Tree, mode: Mode, top: bool, S: set<Bytes>)
    requires (n.Short? || n.Full?) && f == n.flag && Rep(H, db, n, t, top) && UseCached(f, mode)
    requires mode.persist ==> ContentAddressed(H, db, S)
    ensures Achieves(H, db, FromCache(n, f, db, mode), t, mode, top, S)
  {
    hide Blob, RefStored;
    RefIsHash(H, t, top);
    if mode.persist { StoredRef(H, db, t); }
  }

  lemma {:induction false} HashRefAchieves(H: Bytes -> Bytes, db: Store, n: Node, t: Tree, mode: Mode, top: bool, S: set<Bytes>)
    requires n.HashRef? && Rep(H, db, n, t, top)
    requires mode.persist ==> ContentAddressed(H, db, S)
    ensures Achieves(H, db, Hashed(Str(n.hash), n, db), t, mode, top, S)
  {
    hide Blob, RefStored;
    RefIsHash(H, t, top);
    StoredRef(H, db, t);
  }

  /** Storing a collapsed node whose children have been dealt with. */
  lemma {:induction false} StoreAchieves(H: Bytes -> Bytes, db: Store, n: Node, t: Tree, f: Flag, mode: Mode, top: bool, S: set<Bytes>)
    requires HashLen(H) && (t.Ext? || t.Branch?) && (n.Short? || n.Full?)
    requires !UseCached(f, mode) && FlagOk(H, db, f, t, top)
    requires Rep(H, db, WithFlag(n, Flag(None, 0, true)), t, top)
    requires mode.persist ==> ContentAddressed(H, db, S) && ChildrenStored(H, db, t) && Blob(H, t) in S && InjectiveOn(H, S)
    ensures Achieves(H, db, StoreNode(H, Body(H, t), n, f, db, mode, top), t, mode, top, S)
  {
    hide RefStored, ChildrenStored, Body, Ref, Encode;
    assert Blob(H, t) == Encode(Body(H, t));
    var r := StoreNode(H, Body(H, t), n, f, db, mode, top);
    if |Blob(H, t)| < HASH_LEN && !top {
      SmallAchieves(H, db, n, t, f, mode, S);
    } else {
      var h := H(Blob(H, t));
      RefIsHash(H, t, top);
      assert r.item == Str(h);
      assert Extends(db, r.db);
      RepMono(H, db, r.db, WithFlag(n, Flag(None, 0, true)), t, top);
      if mode.persist {
        ChildrenStoredMono(H, db, r.db, t);
        assert Stored(H, r.db, t);
        StoredRef(H, r.db, t);
      }
      ReFlag(H, r.db, n, t, Flag(Some(h), f.gen, if mode.persist then false else f.dirty), top);
    }
  }

  lemma {:induction false} SmallAchieves(H: Bytes -> Bytes, db: Store, n: Node, t: Tree, f: Flag, mode: Mode, S: set<Bytes>)
    requires (t.Ext? || t.Branch?) && (n.Short? || n.Full?) && |Blob(H, t)| < HASH_LEN
    requires !UseCached(f, mode) && FlagOk(H, db, f, t, false)
    requires Rep(H, db, WithFlag(n, Flag(None, 0, true)), t, false)
    requires mode.persist ==> ContentAddressed(H, db, S) && ChildrenStored(H, db, t)
    ensures Achieves(H, db, Hashed(Body(H, t), WithFlag(n, Flag(None, f.gen, if mode.persist then false else f.dirty)), db),
                     t, mode, false, S)
  {
    hide Blob;
    ReFlag(H, db, n, t, Flag(None, f.gen, if mode.persist then false else f.dirty), false);
  }

  lemma {:induction false} ReFlag(H: Bytes -> Bytes, db: Store, n: Node, t: Tree, f: Flag, top: bool)
    requires (n.Short? || n.Full?) && FlagOk(H, db, f, t, top) && Rep(H, db, WithFlag(n, Flag(None, 0, true)), t, top)
    ensures Rep(H, db, WithFlag(n, f), t, top)
  {
    hide FlagOk;
  }

  /** Hashing returns the node's true reference, keeps the tree represented, and commits all of it. */
  lemma {:induction false} HashRep(H: Bytes -> Bytes, db: Store, n: Node, t: Tree, mode: Mode, top: bool, S: set<Bytes>)
    requires HashLen(H) && Rep(H, db, n, t, top)
    requires mode.persist ==> ContentAddressed(H, db, S) && Covers(S, H, t) && InjectiveOn(H, S)
    ensures Achieves(H, db, Hash(H, n, db, mode, top), t, mode, top, S)
    decreases t, 1
  {
    hide Rep, Achieves, FlagOk, StoreNode, FromCache, UseCached, Covers, ContentAddressed, InjectiveOn, Blob, HashLen;
    if n.Nil? || n.Value? {
      SimpleAchieves(H, db, n, t, mode, top, S);
    } else if n.HashRef? {
      HashRefAchieves(H, db, n, t, mode, top, S);
    } else if UseCached(n.flag, mode) {
      CacheAchieves(H, db, n, n.flag, t, mode, top, S);
    } else if n.Short? {
      HashShort(H, db, n, t, mode, top, S);
    } else {
      HashFull(H, db, n, t, mode, top, S);
    }
  }

  lemma {:induction false} SimpleAchieves(H: Bytes -> Bytes, db: Store, n: Node, t: Tree, mode: Mode, top: bool, S: set<Bytes>)
    requires (n.Nil? || n.Value?) && Rep(H, db, n, t, top)
    requires mode.persist ==> ContentAddressed(H, db, S)
    ensures Achieves(H, db, Hash(H, n, db, mode, top), t, mode, top, S)
  {
    SimpleRef(H, t, 0);
  }

  /** Composing a step over the children with the storing of the node itself. */
  lemma {:induction false} ThenStore(H: Bytes -> Bytes, db: Store, db1: Store, n: Node, t: Tree, f: Flag, mode: Mode, top: bool, S: set<Bytes>)
    requires HashLen(H) && (t.Ext? || t.Branch?) && (n.Short? || n.Full?) && !UseCached(f, mode)
    requires FlagOk(H, db, f, t, top) && Extends(db, db1) && (!mode.persist ==> db1 == db)
    requires Rep(H, db1, WithFlag(n, Flag(None, 0, true)), t, top)
    requires mode.persist ==>
               ContentAddressed(H, db1, S) && ChildrenStored(H, db1, t) && Covers(S, H, t) && InjectiveOn(H, S)
    ensures Achieves(H, db, StoreNode(H, Body(H, t), n, f, db1, mode, top), t, mode, top, S)
  {
    hide Rep, FlagOk, StoreNode, UseCached, ContentAddressed, InjectiveOn, Blob, ChildrenStored, HashLen, RefStored, Stored, Extends;
    FlagMono(H, db, db1, f, t, top);
    StoreAchieves(H, db1, n, t, f, mode, top, S);
    var r := StoreNode(H, Body(H, t), n, f, db1, mode, top);
    ExtendsTrans(db, db1, r.db);
  }

  lemma {:induction false} HashShort(H: Bytes -> Bytes, db: Store, n: Node, t: Tree, mode: Mode, top: bool, S: set<Bytes>)
    requires HashLen(H) && n.Short? && Rep(H, db, n, t, top) && !UseCached(n.flag, mode)
    requires mode.persist ==> ContentAddressed(H, db, S) && Covers(S, H, t) && InjectiveOn(H, S)
    ensures Achieves(H, db, Hash(H, n, db, mode, top), t, mode, top, S)
    decreases t, 0
  {
    hide FlagOk, StoreNode, UseCached, ContentAddressed, InjectiveOn, Blob, HashLen, Stored, Extends;
    HashRep(H, db, n.val, t.child, mode, false, S);
    var c := Hash(H, n.val, db, mode, false);
    assert Body(H, t) == List([Str(Compact(n.key)), c.item]);
    assert FlagOk(H, c.db, Flag(None, 0, true), t, top) by { FreshFlag(H, c.db, t, top); }
    ThenStore(H, db, c.db, Short(n.key, c.cached, n.flag), t, n.flag, mode, top, S);
  }

  lemma {:induction false} FreshFlag(H: Bytes -> Bytes, db: Store, t: Tree, top: bool)
    ensures FlagOk(H, db, Flag(None, 0, true), t, top)
  {
  }

  lemma {:induction false} HashFull(H: Bytes -> Bytes, db: Store, n: Node, t: Tree, mode: Mode, top: bool, S: set<Bytes>)
    requires HashLen(H) && n.Full? && Rep(H, db, n, t, top) && !UseCached(n.flag, mode)
    requires mode.persist ==> ContentAddressed(H, db, S) && Covers(S, H, t) && InjectiveOn(H, S)
    ensures Achieves(H, db, Hash(H, n, db, mode, top), t, mode, top, S)
    decreases t, 0
  {
    hide FlagOk, StoreNode, UseCached, ContentAddressed, InjectiveOn, Blob, HashLen, Stored, Extends, Refs, HashAll, RefStored;
    HashAllRep(H, db, n.children, t.children, mode, S);
    var c := HashAll(H, n.children, db, mode);
    assert FlagOk(H, c.db, Flag(None, 0, true), t, top) by { FreshFlag(H, c.db, t, top); }
    ThenStore(H, db, c.db, Full(c.cached, n.flag), t, n.flag, mode, top, S);
  }

  ghost predicate AllRep(H: Bytes -> Bytes, db: Store, cs: seq<Node>, ds: seq<Tree>)
  {
    |cs| == |ds| && forall i :: 0 <= i < |cs| ==> Rep(H, db, cs[i], ds[i], false)
  }

  ghost predicate AllCovered(S: set<Bytes>, H: Bytes -> Bytes, ds: seq<Tree>)
  {
    forall i :: 0 <= i < |ds| ==> Covers(S, H, ds[i])
  }

  ghost predicate AllStored(H: Bytes -> Bytes, db: Store, ds: seq<Tree>)
  {
    forall i :: 0 <= i < |ds| ==> RefStored(H, db, ds[i])
  }

  ghost predicate AllAchieved(H: Bytes -> Bytes, db: Store, r: HashedAll, ds: seq<Tree>, mode: Mode, S: set<Bytes>)
  {
    && r.items == Refs(H, ds)
    && Extends(db, r.db) && (!mode.persist ==> r.db == db)
    && (mode.persist ==> ContentAddressed(H, r.db, S) && AllStored(H, r.db, ds))
    && AllRep(H, r.db, r.cached, ds)
  }

  lemma {:induction false} HashAllRep(H: Bytes -> Bytes, db: Store, cs: seq<Node>, ds: seq<Tree>, mode: Mode, S: set<Bytes>)
    requires HashLen(H) && AllRep(H, db, cs, ds)
    requires mode.persist ==> ContentAddressed(H, db, S) && InjectiveOn(H, S) && AllCovered(S, H, ds)
    ensures AllAchieved(H, db, HashAll(H, cs, db, mode), ds, mode, S)
    decreases ds
  {
    hide Rep, ContentAddressed, InjectiveOn, Covers, RefStored, Stored, HashLen, Extends, Hash, Refs, AllAchieved;
    if cs == [] {
      NoneAchieved(H, db, mode, S);
    } else {
      var n := |cs| - 1;
      HashAllRep(H, db, cs[..n], ds[..n], mode, S);
      var front := HashAll(H, cs[..n], db, mode);
      assert Extends(db, front.db) && (mode.persist ==> ContentAddressed(H, front.db, S)) by {
        SplitAchieved(H, db, front, ds[..n], mode, S);
      }
      RepMono(H, db, front.db, cs[n], ds[n], false);
      HashRep(H, front.db, cs[n], ds[n], mode, false, S);
      SnocAchieved(H, db, front, ds, Hash(H, cs[n], front.db, mode, false), mode, S);
    }
  }

  lemma {:induction false} NoneAchieved(H: Bytes -> Bytes, db: Store, mode: Mode, S: set<Bytes>)
    requires mode.persist ==> ContentAddressed(H, db, S)
    ensures AllAchieved(H, db, HashedAll([], [], db), [], mode, S)
  {
    ExtendsSelf(db);
  }

  lemma {:induction false} SplitAchieved(H: Bytes -> Bytes, db: Store, r: HashedAll, ds: seq<Tree>, mode: Mode, S: set<Bytes>)
    requires AllAchieved(H, db, r, ds, mode, S)
    ensures Extends(db, r.db) && (mode.persist ==> ContentAddressed(H, r.db, S))
  {
  }

  lemma {:induction false} SnocAchieved(H: Bytes -> Bytes, db: Store, front: HashedAll, ds: seq<Tree>, last: Hashed, mode: Mode, S: set<Bytes>)
    requires ds != [] && AllAchieved(H, db, front, ds[..|ds| - 1], mode, S)
    requires Achieves(H, front.db, last, ds[|ds| - 1], mode, false, S)
    ensures AllAchieved(H, db, HashedAll(front.items + [last.item], front.cached + [last.cached], last.db), ds, mode, S)
  {
    hide Rep, ContentAddressed, RefStored, Stored, Extends, Ref;
    var n := |ds| - 1;
    ExtendsTrans(db, front.db, last.db);
    AllMono(H, front.db, last.db, front.cached, ds[..n], mode.persist);
    SnocRep(H, last.db, front.cached, last.cached, ds);
    if mode.persist { SnocStored(H, last.db, ds); }
  }

  lemma {:induction false} SnocRep(H: Bytes -> Bytes, db: Store, cs: seq<Node>, c: Node, ds: seq<Tree>)
    requires ds != [] && AllRep(H, db, cs, ds[..|ds| - 1]) && Rep(H, db, c, ds[|ds| - 1], false)
    ensures AllRep(H, db, cs + [c], ds)
  {
    hide Rep;
    forall i | 0 <= i < |ds| ensures Rep(H, db, (cs + [c])[i], ds[i], false) {
      if i < |cs| { assert ds[i] == ds[..|ds| - 1][i] && (cs + [c])[i] == cs[i]; }
    }
  }

  lemma {:induction false} SnocStored(H: Bytes -> Bytes, db: Store, ds: seq<Tree>)
    requires ds != [] && AllStored(H, db, ds[..|ds| - 1]) && RefStored(H, db, ds[|ds| - 1])
    ensures AllStored(H, db, ds)
  {
    hide RefStored;
    forall i | 0 <= i < |ds| ensures RefStored(H, db, ds[i]) {
      if i < |ds| - 1 { assert ds[i] == ds[..|ds| - 1][i]; }
    }
  }

  lemma {:induction false} ExtendsSelf(db: Store)
    ensures Extends(db, db)
  {
  }

  lemma {:induction false} AllMono(H: Bytes -> Bytes, db: Store, db': Store, cs: seq<Node>, ds: seq<Tree>, stored: bool)
    requires Extends(db, db') && AllRep(H, db, cs, ds) && (stored ==> AllStored(H, db, ds))
    ensures AllRep(H, db', cs, ds) && (stored ==> AllStored(H, db', ds))
  {
    hide Rep, RefStored, Extends;
    forall i | 0 <= i < |cs| ensures Rep(H, db', cs[i], ds[i], false) { RepMono(H, db, db', cs[i], ds[i], false); }
    if stored {
      forall i | 0 <= i < |ds| ensures RefStored(H, db', ds[i]) { RefStoredMono(H, db, db', ds[i]); }
    }
  }

  // ---------------------------------------------------------------- hashing over a store that lacks nodes

  /** The same result, over stores of which one extends the other. */
  ghost predicate Matches(r: Hashed, full: Hashed)
  {
    r.item == full.item && r.cached == full.cached && Extends(r.db, full.db)
  }

  /** Hashing reads nothing from the store, so missing nodes do not matter: what is written to the
      smaller store is what the larger one holds. */
  lemma {:induction false} HashMatches(H: Bytes -> Bytes, db: Store, full: Store, n: Node, t: Tree, mode: Mode, top: bool, S: set<Bytes>)
    requires HashLen(H) && Rep(H, full, n, t, top) && Extends(db, full)
    requires mode.persist ==> ContentAddressed(H, full, S) && Covers(S, H, t) && InjectiveOn(H, S)
    ensures Matches(Hash(H, n, db, mode, top), Hash(H, n, full, mode, top))
    decreases t, 1
  {
    hide Achieves, FlagOk, StoreNode, UseCached, ContentAddressed, InjectiveOn, Blob, HashLen, Extends, HashAll;
    if (n.Short? || n.Full?) && !UseCached(n.flag, mode) {
      HashRep(H, full, n, t, mode, top, S);
      if n.Short? {
        HashMatches(H, db, full, n.val, t.child, mode, false, S);
        HashRep(H, full, n.val, t.child, mode, false, S);
        var c, c' := Hash(H, n.val, db, mode, false), Hash(H, n.val, full, mode, false);
        assert c'.item == Ref(H, t.child) by { Unpack(H, full, c', t.child, mode, false, S); }
        assert Body(H, t) == List([Str(Compact(n.key)), c.item]);
        StoreMatches(H, c.db, full, c'.db, t, Short(n.key, c.cached, n.flag), n.flag, mode, top, S);
      } else {
        AllMatch(H, db, full, n.children, t.children, mode, S);
        HashAllRep(H, full, n.children, t.children, mode, S);
        var c, c' := HashAll(H, n.children, db, mode), HashAll(H, n.children, full, mode);
        StoreMatches(H, c.db, full, c'.db, t, Full(c.cached, n.flag), n.flag, mode, top, S);
      }
    }
  }

  lemma {:induction false} Unpack(H: Bytes -> Bytes, db: Store, r: Hashed, t: Tree, mode: Mode, top: bool, S: set<Bytes>)
    requires Achieves(H, db, r, t, mode, top, S)
    ensures r.item == WantItem(H, t, top) && Extends(db, r.db)
  {
  }

  lemma {:induction false} StoreMatches(H: Bytes -> Bytes, db: Store, full0: Store, full: Store, t: Tree, n: Node, f: Flag, mode: Mode, top: bool, S: set<Bytes>)
    requires (t.Ext? || t.Branch?) && Extends(db, full)
    requires Achieves(H, full0, StoreNode(H, Body(H, t), n, f, full, mode, top), t, mode, top, S)
    ensures Matches(StoreNode(H, Body(H, t), n, f, db, mode, top), StoreNode(H, Body(H, t), n, f, full, mode, top))
  {
    hide Rep, RefStored, ChildrenStored, ContentAddressed, Body;
    assert Blob(H, t) == Encode(Body(H, t));
    RefStoredIn(H, StoreNode(H, Body(H, t), n, f, full, mode, top).db, t);
  }

  lemma {:induction false} RefStoredIn(H: Bytes -> Bytes, db: Store, t: Tree)
    ensures RefStored(H, db, t) && (t.Ext? || t.Branch?) && |Blob(H, t)| >= HASH_LEN ==> InStore(H, db, t)
  {
    hide Blob, InStore;
  }

  lemma {:induction false} AllMatch(H: Bytes -> Bytes, db: Store, full: Store, cs: seq<Node>, ds: seq<Tree>, mode: Mode, S: set<Bytes>)
    requires HashLen(H) && AllRep(H, full, cs, ds) && Extends(db, full)
    requires mode.persist ==> ContentAddressed(H, full, S) && InjectiveOn(H, S) && AllCovered(S, H, ds)
    ensures var r, r' := HashAll(H, cs, db, mode), HashAll(H, cs, full, mode);
            r.items == r'.items && r.cached == r'.cached && Extends(r.db, r'.db)
    decreases ds
  {
    hide Rep, ContentAddressed, InjectiveOn, Covers, HashLen, Extends, Hash;
    if cs != [] {
      var n := |cs| - 1;
      AllMatch(H, db, full, cs[..n], ds[..n], mode, S);
      HashAllRep(H, full, cs[..n], ds[..n], mode, S);
      var front, front' := HashAll(H, cs[..n], db, mode), HashAll(H, cs[..n], full, mode);
      SplitAchieved(H, full, front', ds[..n], mode, S);
      RepMono(H, full, front'.db, cs[n], ds[n], false);
      HashMatches(H, front.db, front'.db, cs[n], ds[n], mode, false, S);
    }
  }

  /** What is in `b` and not in `a` was so before. */
  ghost predicate NoneMissed(a0: Store, b0: Store, a: Store, b: Store)
  {
    forall h :: h in b && h !in a ==> h in b0 && h !in a0
  }

  /** Reference, cached node and written nodes do not depend on what the store held. */
  lemma {:induction false} HashWrites(H: Bytes -> Bytes, n: Node, a: Store, b: Store, mode: Mode, force: bool)
    ensures Hash(H, n, a, mode, force).item == Hash(H, n, b, mode, force).item
    ensures Hash(H, n, a, mode, force).cached == Hash(H, n, b, mode, force).cached
    ensures NoneMissed(a, b, Hash(H, n, a, mode, force).db, Hash(H, n, b, mode, force).db)
    decreases n, 1
  {
    hide UseCached, CanUnload, HashAll, Encode;
    if n.Short? && !UseCached(n.flag, mode) {
      HashWrites(H, n.val, a, b, mode, false);
    } else if n.Full? && !UseCached(n.flag, mode) {
      HashAllWrites(H, n.children, a, b, mode);
    }
  }

  lemma {:induction false} HashAllWrites(H: Bytes -> Bytes, cs: seq<Node>, a: Store, b: Store, mode: Mode)
    ensures HashAll(H, cs, a, mode).items == HashAll(H, cs, b, mode).items
    ensures HashAll(H, cs, a, mode).cached == HashAll(H, cs, b, mode).cached
    ensures NoneMissed(a, b, HashAll(H, cs, a, mode).db, HashAll(H, cs, b, mode).db)
    decreases cs
  {
    hide Hash;
    if cs != [] {
      HashAllWrites(H, cs[..|cs| - 1], a, b, mode);
      HashWrites(H, cs[|cs| - 1], HashAll(H, cs[..|cs| - 1], a, mode).db, HashAll(H, cs[..|cs| - 1], b, mode).db, mode, false);
    }
  }

  /** Hashing only adds to the store, and only when committing. */
  lemma {:induction false} HashGrows(H: Bytes -> Bytes, n: Node, db: Store, mode: Mode, force: bool)
    ensures Extends(db, Hash(H, n, db, mode, force).db)
    ensures !mode.persist ==> Hash(H, n, db, mode, force).db == db
    decreases n, 1
  {
    hide UseCached, CanUnload, HashAll;
    if n.Short? && !UseCached(n.flag, mode) {
      HashGrows(H, n.val, db, mode, false);
    } else if n.Full? && !UseCached(n.flag, mode) {
      HashAllGrows(H, n.children, db, mode);
    }
  }

  lemma {:induction false} HashAllGrows(H: Bytes -> Bytes, cs: seq<Node>, db: Store, mode: Mode)
    ensures Extends(db, HashAll(H, cs, db, mode).db)
    ensures !mode.persist ==> HashAll(H, cs, db, mode).db == db
    decreases cs
  {
    hide Hash;
    if cs != [] {
      var front := HashAll(H, cs[..|cs| - 1], db, mode);
      HashAllGrows(H, cs[..|cs| - 1], db, mode);
      HashGrows(H, cs[|cs| - 1], front.db, mode, false);
    }
  }

  /** Hashing a root over a store that may lack nodes: `full` is a store that does not. */
  lemma {:induction false} RootHashed(H: Bytes -> Bytes, db: Store, full: Store, n: Node, t: Tree, mode: Mode, S: set<Bytes>)
    requires HashLen(H) && (t.Ext? || t.Branch?) && Rep(H, full, n, t, true) && Extends(db, full)
    requires mode.persist ==> ContentAddressed(H, full, S) && Covers(S, H, t) && InjectiveOn(H, S)
    ensures var r, r' := Hash(H, n, db, mode, true), Hash(H, n, full, mode, true);
            && r.item == Str(H(Blob(H, t)))
            && Rep(H, r'.db, r.cached, t, true) && Extends(r.db, r'.db)
            && Extends(db, r.db) && Extends(full, r'.db)
            && (!mode.persist ==> r.db == db && r'.db == full)
            && (mode.persist ==> ContentAddressed(H, r'.db, S) && Stored(H, r'.db, t))
  {
    hide Rep, Hash, ContentAddressed, Covers, InjectiveOn, Stored, RefStored, Blob, Extends;
    HashRep(H, full, n, t, mode, true, S);
    HashMatches(H, db, full, n, t, mode, true, S);
    HashGrows(H, n, db, mode, true);
    RefIsHash(H, t, true);
  }
}
