/** The trie object (trie/trie.go): a root node over a node store, refining a map from keys to values.

    The store may lack nodes.  Every operation then either acts exactly as on the map or reports a
    missing node and leaves the trie as it was.  Hash and Commit never change the map, the root hash
    is a function of the map alone, and under a collision-free hash it determines the map. */
module TrieObject {
  import opened Common
  import opened RlpSpec
  import opened HexPrefix
  import opened PatriciaTree
  import opened NodeCodec
  import opened TrieStore
  import opened TrieOps
  import opened Hasher
  import opened Generations

  // ---------------------------------------------------------------- stores that lack nodes

  /** With fewer nodes an operation gives the same result or reports a missing node. */
  ghost predicate SameOrMissing<T>(db: Store, r: Result<T, TrieError>, full: Result<T, TrieError>)
  {
    r == full || (r.Err? && r.error.MissingNode? && r.error.hash !in db)
  }

  lemma {:induction false} InsertAgrees(db: Store, full: Store, n: Node, k: Bytes, x: Node, gen: nat)
    requires Extends(db, full)
    ensures SameOrMissing(db, Insert(db, n, k, x, gen), Insert(full, n, k, x, gen))
    decreases |k|, if n.HashRef? then 1 else 0
  {
    hide DecodeNode, SplitNode, CommonPrefix;
    if k != [] {
      match n
      case Nil =>
      case Value(_) =>
      case Short(p, v, _) =>
        var m := |CommonPrefix(k, p)|;
        if p != [] && m == |p| { InsertAgrees(db, full, v, k[m..], x, gen); }
      case Full(cs, _) =>
        if k[0] < |cs| { InsertAgrees(db, full, cs[k[0]], k[1..], x, gen); }
      case HashRef(h) =>
        if h in db && Resolve(db, h, gen).Ok? { InsertAgrees(db, full, Resolve(db, h, gen).value, k, x, gen); }
    }
  }

  lemma {:induction false} DeleteAgrees(db: Store, full: Store, n: Node, k: Bytes, gen: nat)
    requires Extends(db, full)
    ensures SameOrMissing(db, Delete(db, n, k, gen), Delete(full, n, k, gen))
    decreases |k|, if n.HashRef? then 1 else 0
  {
    hide DecodeNode, CommonPrefix, ReduceNode;
    match n
    case Nil =>
    case Value(_) =>
    case Short(p, v, _) =>
      var m := |CommonPrefix(k, p)|;
      if p != [] && m == |p| && m < |k| { DeleteAgrees(db, full, v, k[m..], gen); }
    case Full(cs, _) =>
      if k != [] && k[0] < |cs| && |cs| == 17 {
        DeleteAgrees(db, full, cs[k[0]], k[1..], gen);
        var r := Delete(db, cs[k[0]], k[1..], gen);
        if r.Ok? { ReduceAgrees(db, full, cs[k[0] := r.value.1], gen); }
      }
    case HashRef(h) =>
      if h in db && Resolve(db, h, gen).Ok? { DeleteAgrees(db, full, Resolve(db, h, gen).value, k, gen); }
  }

  lemma {:induction false} ReduceAgrees(db: Store, full: Store, cs: seq<Node>, gen: nat)
    requires Extends(db, full) && |cs| == 17
    ensures SameOrMissing(db, ReduceNode(db, cs, gen), ReduceNode(full, cs, gen))
  {
    hide DecodeNode, LoneChild;
  }

  lemma {:induction false} TryGetAgrees(db: Store, full: Store, n: Node, k: Bytes, gen: nat)
    requires Extends(db, full)
    ensures SameOrMissing(db, TryGet(db, n, k, gen), TryGet(full, n, k, gen))
    decreases |k|, if n.HashRef? then 1 else 0
  {
    hide DecodeNode;
    match n
    case Nil =>
    case Value(_) =>
    case Short(p, v, _) =>
      if p <= k && p != [] { TryGetAgrees(db, full, v, k[|p|..], gen); }
    case Full(cs, _) =>
      if k != [] && k[0] < |cs| { TryGetAgrees(db, full, cs[k[0]], k[1..], gen); }
    case HashRef(h) =>
      if h in db && Resolve(db, h, gen).Ok? { TryGetAgrees(db, full, Resolve(db, h, gen).value, k, gen); }
  }

  // ---------------------------------------------------------------- root hashes

  /** The hash of the encoding of the empty string stands for the empty trie. */
  ghost function RootHash(H: Bytes -> Bytes, t: Tree): Bytes
  {
    if t.Empty? then H([0x80]) else H(Blob(H, t))
  }

  /** References that decode alike refer to the same tree, unless two encodings collide. */
  lemma {:induction false} RefBinding(H: Bytes -> Bytes, s: Tree, t: Tree, S: set<Bytes>)
    requires HashLen(H) && InjectiveOn(H, S) && Covers(S, H, s) && Covers(S, H, t) && Fits(H, s) && Fits(H, t)
    requires (Canon(s) || s.Leaf?) && (Canon(t) || t.Leaf?)
    requires LoadedRef(H, s, 0) == LoadedRef(H, t, 0)
    ensures s == t
    decreases s, 2
  {
    hide Canon, Covers, Fits, InjectiveOn, Blob;
    if s.Ext? || s.Branch? || t.Ext? || t.Branch? {
      SameShape(H, s, t);
      assert Blob(H, s) in S && Blob(H, t) in S by { BlobCovered(S, H, s); BlobCovered(S, H, t); }
      if |Blob(H, s)| >= HASH_LEN {
        assert Blob(H, s) == Blob(H, t) by { Injective(H, S, Blob(H, s), Blob(H, t)); }
        BlobBinding(H, s, t, S);
      } else {
        LoadedBinding(H, s, t, None, S);
      }
    }
  }

  lemma {:induction false} Injective(H: Bytes -> Bytes, S: set<Bytes>, x: Bytes, y: Bytes)
    requires InjectiveOn(H, S) && x in S && y in S && H(x) == H(y)
    ensures x == y
  {
  }

  lemma {:induction false} BlobCovered(S: set<Bytes>, H: Bytes -> Bytes, t: Tree)
    requires Covers(S, H, t) && (t.Ext? || t.Branch?)
    ensures Blob(H, t) in S
  {
  }

  lemma {:induction false} SameShape(H: Bytes -> Bytes, s: Tree, t: Tree)
    requires LoadedRef(H, s, 0) == LoadedRef(H, t, 0) && (s.Ext? || s.Branch? || t.Ext? || t.Branch?)
    ensures (s.Ext? || s.Branch?) && (t.Ext? || t.Branch?)
    ensures |Blob(H, s)| >= HASH_LEN <==> |Blob(H, t)| >= HASH_LEN
    ensures |Blob(H, s)| >= HASH_LEN ==> H(Blob(H, s)) == H(Blob(H, t))
    ensures |Blob(H, s)| < HASH_LEN ==> Loaded(H, s, None, 0) == Loaded(H, t, None, 0)
  {
    hide Blob;
    SimpleRef(H, s, 0);
    SimpleRef(H, t, 0);
  }

  /** Equal encodings belong to equal trees. */
  lemma {:induction false} BlobBinding(H: Bytes -> Bytes, s: Tree, t: Tree, S: set<Bytes>)
    requires HashLen(H) && InjectiveOn(H, S) && Covers(S, H, s) && Covers(S, H, t) && Fits(H, s) && Fits(H, t)
    requires Canon(s) && Canon(t) && !s.Empty? && !t.Empty? && Blob(H, s) == Blob(H, t)
    ensures s == t
    decreases s, 1
  {
    hide Covers, Fits, InjectiveOn, Blob, DecodeNode, Loaded;
    NodeRoundTrip(H, s, None, 0, []);
    NodeRoundTrip(H, t, None, 0, []);
    LoadedBinding(H, s, t, None, S);
  }

  lemma {:induction false} LoadedBinding(H: Bytes -> Bytes, s: Tree, t: Tree, hash: Option<Bytes>, S: set<Bytes>)
    requires HashLen(H) && InjectiveOn(H, S) && Covers(S, H, s) && Covers(S, H, t) && Fits(H, s) && Fits(H, t)
    requires Canon(s) && Canon(t) && !s.Empty? && !t.Empty? && Loaded(H, s, hash, 0) == Loaded(H, t, hash, 0)
    ensures s == t
    decreases s, 0
  {
    hide InjectiveOn, Blob, LoadedRef, LoadedRefs;
    if s.Ext? {
      RefBinding(H, s.child, t.child, S);
    } else {
      forall i | 0 <= i < |s.children| ensures s.children[i] == t.children[i] {
        assert LoadedRefs(H, s.children, 0)[i] == LoadedRefs(H, t.children, 0)[i];
        RefBinding(H, s.children[i], t.children[i], S);
      }
      assert s.children == t.children;
    }
  }

  /** Under a hash without collisions the root hash determines the map. */
  lemma {:induction false} RootBinding(H: Bytes -> Bytes, s: Tree, m: map<Bytes, Bytes>, t: Tree, m': map<Bytes, Bytes>, S: set<Bytes>)
    requires HashLen(H) && InjectiveOn(H, S) && [0x80] in S && Covers(S, H, s) && Covers(S, H, t) && Fits(H, s) && Fits(H, t)
    requires Models(s, m) && Models(t, m') && RootHash(H, s) == RootHash(H, t)
    ensures s == t && m == m'
  {
    hide Blob, Covers, Fits, InjectiveOn, Canon;
    if s.Empty? != t.Empty? {
      var u := if s.Empty? then t else s;
      NotLeaf(u);
      BlobCovered(S, H, u);
      Injective(H, S, [0x80], Blob(H, u));
      NotEmptyBlob(H, u);
    } else if !s.Empty? {
      NotLeaf(s);
      NotLeaf(t);
      BlobCovered(S, H, s);
      BlobCovered(S, H, t);
      Injective(H, S, Blob(H, s), Blob(H, t));
      BlobBinding(H, s, t, S);
    }
    SameMap(s, m, m');
  }

  lemma {:induction false} NotEmptyBlob(H: Bytes -> Bytes, t: Tree)
    requires t.Ext? || t.Branch?
    requires Fits(H, t)
    ensures Blob(H, t) != [0x80]
  {
    assert Body(H, t).List?;
    assert Blob(H, t) == Encode(Body(H, t));
    EncodeShape(Body(H, t));
  }

  lemma {:induction false} SameMap(t: Tree, m: map<Bytes, Bytes>, m': map<Bytes, Bytes>)
    requires Models(t, m) && Models(t, m')
    ensures m == m'
  {
    forall key ensures Lookup(m, key) == Lookup(m', key) {
      assert Get(t, KeyHex(key)) == Lookup(m, key);
    }
    assert forall key :: key in m <==> Lookup(m, key).Some?;
    assert forall key :: key in m' <==> Lookup(m', key).Some?;
  }

  // ---------------------------------------------------------------- the object

  function ZeroHash(): Bytes { seq(32, _ => 0) }

  class Trie {
    const H: Bytes -> Bytes
    const limit: nat

    /** Nodes readable from the trie's database. */
    var db: Store
    var root: Node
    var gen: nat

    /** The tree and the map the trie denotes, and a store holding every unloaded node. */
    ghost var tree: Tree
    ghost var contents: map<Bytes, Bytes>
    ghost var full: Store

    ghost predicate Valid()
      reads this
    {
      HashLen(H) && Models(tree, contents) && Fits(H, tree) && Extends(db, full) && Rep(H, full, root, tree, true) && gen < 65536
    }

    /** The node part of `New`: an empty trie, or the resolved root of a stored one. */
    constructor (H: Bytes -> Bytes, limit: nat, db: Store, root: Node, ghost t: Tree, ghost m: map<Bytes, Bytes>, ghost full: Store)
      requires HashLen(H) && Models(t, m) && Fits(H, t) && Extends(db, full) && Rep(H, full, root, t, true)
      ensures Valid() && contents == m && tree == t && this.db == db && this.H == H && this.full == full && this.root == root && gen == 0
    {
      this.H, this.limit, this.db, this.root, this.gen := H, limit, db, root, 0;
      tree, contents, this.full := t, m, full;
    }

    /** `TryGet`: the map's value, or a missing node. */
    method TryGet(key: Bytes) returns (r: Result<Option<Bytes>, TrieError>)
      requires Valid()
      modifies this`root
      ensures Valid()
      ensures r.Ok? ==> r.value == Lookup(contents, key)
      ensures r.Err? ==> r.error.MissingNode? && r.error.hash !in db && root == old(root)
      ensures db == full ==> r.Ok?
      ensures old(Tended(root, gen)) ==> Tended(root, gen) && (root != old(root) ==> Stamped(root, KeyHex(key), gen))
    {
      hide Rep, Fits, Canon, Get, FullKey, KeyHex, Tended, Stamped;
      var k := KeyHex(key);
      if Tended(root, gen) {
        TryGetTended(db, root, k, gen);
      }
      FullKeyHex(key);
      TryGetRep(H, full, root, tree, k, gen, true);
      TryGetAgrees(db, full, root, k, gen);
      var v := TrieOps.TryGet(db, root, k, gen);
      if v.Err? {
        return Err(v.error);
      }
      if v.value.2 {
        root := v.value.1;
      }
      r := Ok(v.value.0);
    }

    /** `TryUpdate`: an empty value deletes; on a missing node nothing changes. */
    method TryUpdate(key: Bytes, value: Bytes) returns (err: Option<TrieError>)
      requires Valid() && Fits(H, Apply(tree, Update(key, value)))
      modifies this`root, this`tree, this`contents
      ensures Valid()
      ensures err.None? ==> contents == if value == [] then old(contents) - {key} else old(contents)[key := value]
      ensures err.Some? ==> err.value.MissingNode? && err.value.hash !in db
                            && contents == old(contents) && root == old(root)
      ensures db == full ==> err.None?
      ensures old(Tended(root, gen)) ==> Tended(root, gen)
      ensures contents != old(contents) ==> Stamped(root, KeyHex(key), gen) && (IsLoaded(root) ==> root.flag.dirty)
    {
      hide Rep, Fits, Canon, Get, FullKey, KeyHex, Models, Tended, Stamped;
      var k := KeyHex(key);
      FullKeyHex(key);
      ModelCanon(tree, contents);
      ApplyModels(tree, contents, Update(key, value));
      var n;
      if |value| != 0 {
        InsertRep(H, full, root, tree, k, value, gen, true);
        InsertAgrees(db, full, root, k, Value(value), gen);
        n := Insert(db, root, k, Value(value), gen);
        if Tended(root, gen) { InsertTended(db, root, k, Value(value), gen); }
        if n.Ok? && n.value.0 { InsertStamps(db, root, k, Value(value), gen); }
      } else {
        DeleteRep(H, full, root, tree, k, gen, true);
        DeleteAgrees(db, full, root, k, gen);
        n := Delete(db, root, k, gen);
        if Tended(root, gen) { DeleteTended(db, root, k, gen); }
        if n.Ok? && n.value.0 { DeleteStamps(db, root, k, gen); }
      }
      if n.Err? {
        return Some(n.error);
      }
      if !n.value.0 { SameMap(tree, contents, if value == [] then contents - {key} else contents[key := value]); }
      root := n.value.1;
      tree := Apply(tree, Update(key, value));
      contents := if value == [] then contents - {key} else contents[key := value];
      err := None;
    }

    /** `TryDelete`. */
    method TryDelete(key: Bytes) returns (err: Option<TrieError>)
      requires Valid() && Fits(H, Apply(tree, Update(key, [])))
      modifies this`root, this`tree, this`contents
      ensures Valid()
      ensures err.None? ==> contents == old(contents) - {key}
      ensures err.Some? ==> err.value.MissingNode? && err.value.hash !in db
                            && contents == old(contents) && root == old(root)
      ensures db == full ==> err.None?
      ensures old(Tended(root, gen)) ==> Tended(root, gen)
      ensures contents != old(contents) ==> Stamped(root, KeyHex(key), gen) && (IsLoaded(root) ==> root.flag.dirty)
    {
      hide Tended, Stamped;
      err := TryUpdate(key, []);
    }

    /** `Hash`: the root hash of the map; caches hashes and changes nothing else. */
    method Hash() returns (h: Bytes)
      requires Valid()
      modifies this`root, this`db, this`full
      ensures Valid() && h == RootHash(H, tree) && db == old(db) && full == old(full)
      ensures old(Tended(root, gen)) ==> Tended(root, gen)
    {
      hide Rep, Fits, Models, Canon, Blob, HashLen, Tended;
      h := HashRoot(false, {});
    }

    /** `hashRoot`, with and without writing to the database. */
    method HashRoot(persist: bool, ghost S: set<Bytes>) returns (h: Bytes)
      requires Valid()
      requires persist ==> ContentAddressed(H, full, S) && Covers(S, H, tree) && InjectiveOn(H, S)
      modifies this`root, this`db, this`full
      ensures Valid() && h == RootHash(H, tree)
      ensures !persist ==> db == old(db) && full == old(full)
      ensures Extends(old(db), db) && Extends(old(full), full) && (old(db) == old(full) ==> db == full)
      ensures persist ==> ContentAddressed(H, full, S) && (!tree.Empty? ==> Stored(H, full, tree))
      ensures NoneMissed(old(db), old(full), db, full)
      ensures old(Tended(root, gen)) ==> Tended(root, gen) && (persist ==> Clean(root))
      ensures persist ==> forall path :: old(LoadedAt(root, path)) ==> (LoadedAt(root, path) <==> Spared(old(root), path, gen, limit))
    {
      hide LoadedAt, Spared, Clean, Tended;
      hide Rep, Fits, Models, Blob, HashLen, Covers, ContentAddressed, InjectiveOn, Stored, Extends, Canon, Hasher.Hash;
      ModelCanon(tree, contents);
      NotLeaf(tree);
      SimpleNode(H, full, root, tree, true);
      NilKept(root, gen, limit);
      if root.Nil? {
        ExtendsSelf(db);
        ExtendsSelf(full);
        return H([0x80]);
      }
      var mode := Mode(gen, limit, persist);
      RootHashed(H, db, full, root, tree, mode, S);
      RootKept(H, root, db, mode);
      HashWrites(H, root, db, full, mode, true);
      full := Hasher.Hash(H, root, full, mode, true).db;
      var r := Hasher.Hash(H, root, db, mode, true);
      root, db := r.cached, r.db;
      h := r.item.bytes;
    }

    /**
     * `Commit`: afterwards the whole trie can be read back under its root hash, from the database itself but for the
     * nodes that were missing in it before. What stays in memory is clean, and a loaded node stays exactly if no clean
     * node on the way down to it has reached the limit.
     */
    method Commit(ghost S: set<Bytes>) returns (h: Bytes)
      requires Valid() && ContentAddressed(H, full, S) && Covers(S, H, tree) && InjectiveOn(H, S)
      modifies this`root, this`db, this`full, this`gen
      ensures Valid() && h == RootHash(H, tree) && gen == (old(gen) + 1) % 0x1_0000
      ensures Extends(old(db), db) && Extends(old(full), full)
      ensures ContentAddressed(H, full, S) && (!tree.Empty? ==> Stored(H, full, tree))
      ensures NoneMissed(old(db), old(full), db, full) && (old(db) == old(full) ==> db == full)
      ensures forall path :: old(LoadedAt(root, path)) ==> (LoadedAt(root, path) <==> Spared(old(root), path, old(gen), limit))
      ensures old(Tended(root, gen)) ==> Clean(root) && (AgesFit(root, old(gen)) ==> Tended(root, gen))
    {
      hide Rep, Fits, Models, Canon, Blob, HashLen, Covers, ContentAddressed, InjectiveOn, Stored, LoadedAt, Spared, Clean, Tended, AgesFit;
      h := HashRoot(true, S);
      if Tended(root, gen) && AgesFit(root, gen) {
        NextTended(root, gen);
      }
      gen := (gen + 1) % 0x1_0000;
    }
  }

  lemma {:induction false} RootKept(H: Bytes -> Bytes, n: Node, db: Store, mode: Mode)
    ensures var c := Hasher.Hash(H, n, db, mode, true).cached;
            && (Tended(n, mode.gen) ==> Tended(c, mode.gen) && (mode.persist ==> Clean(c)))
            && (mode.persist ==> forall path :: LoadedAt(n, path) ==> (LoadedAt(c, path) <==> Spared(n, path, mode.gen, mode.limit)))
  {
    hide Hasher.Hash, Tended, LoadedAt, Spared, Clean;
    if mode.persist {
      forall path | LoadedAt(n, path)
        ensures LoadedAt(Hasher.Hash(H, n, db, mode, true).cached, path) <==> Spared(n, path, mode.gen, mode.limit)
      {
        UnloadIff(H, n, db, mode.gen, mode.limit, true, path);
      }
      if Tended(n, mode.gen) {
        CommitTended(H, n, db, mode.gen, mode.limit, true);
        CommitCleans(H, n, db, mode.gen, mode.limit, true);
      }
    } else if Tended(n, mode.gen) {
      HashTended(H, n, db, mode, true, mode.gen);
    }
  }

  lemma {:induction false} NilKept(n: Node, gen: nat, limit: nat)
    ensures n.Nil? ==> Tended(n, gen) && Clean(n) && forall path :: !LoadedAt(n, path)
  {
  }

  lemma {:induction false} ModelCanon(t: Tree, m: map<Bytes, Bytes>)
    requires Models(t, m)
    ensures Canon(t)
  {
  }

  /** `New`: a trie over a stored root.  The zero hash and the hash of the empty trie are sentinels. */
  method Open(H: Bytes -> Bytes, limit: nat, root: Bytes, db: Store, ghost t: Tree, ghost m: map<Bytes, Bytes>, ghost full: Store)
    returns (r: Result<Trie, TrieError>)
    requires HashLen(H) && Models(t, m) && Fits(H, t) && Extends(db, full)
    requires t.Empty? <==> root == ZeroHash() || root == H([0x80])
    requires !t.Empty? ==> root == H(Blob(H, t)) && Stored(H, full, t)
    ensures r.Ok? ==> fresh(r.value) && r.value.Valid() && r.value.contents == m && r.value.db == db && r.value.H == H
    ensures r.Ok? ==> Tended(r.value.root, 0) && Clean(r.value.root)
    ensures r.Err? ==> r.error == MissingNode(root) && root !in db && !t.Empty?
  {
    hide Fits, Models, Canon, Blob, HashLen, Stored, DecodeNode;
    ModelCanon(t, m);
    if root != ZeroHash() && root != H([0x80]) {
      ResolveRep(H, full, root, t, 0, true);
      var n := Resolve(db, root, 0);
      ResolveUniform(db, root, 0);
      if n.Ok? {
        UniformTended(n.value, 0);
        TendedClean(n.value, 0);
      }
      if n.Err? {
        return Err(n.error);
      }
      var trie := new Trie(H, limit, db, n.value, t, m, full);
      r := Ok(trie);
    } else {
      var trie := new Trie(H, limit, db, Nil, t, m, full);
      r := Ok(trie);
    }
  }

  /** Two tries with the same contents have the same root hash, whatever updates led to them, whatever
      is loaded, cached or committed in either. */
  lemma {:induction false} SameContentsSameRoot(a: Trie, b: Trie)
    requires a.Valid() && b.Valid() && a.H == b.H && a.contents == b.contents
    ensures RootHash(a.H, a.tree) == RootHash(b.H, b.tree)
  {
    ModelUnique(a.tree, b.tree, a.contents);
  }
}
