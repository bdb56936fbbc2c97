/** Merkle proofs (trie/proof.go).

    A proof is a store of the encoded nodes on the path of a key.  Verification of the output of `Prove`
    returns what the trie holds at the key, present or absent; and whatever a content-addressed store
    makes the verifier return, for a hash without collisions, is what the trie with that root holds. */
module MerkleProof {
  import opened Common
  import opened RlpSpec
  import opened RlpRaw
  import opened HexPrefix
  import opened PatriciaTree
  import opened NodeCodec
  import opened TrieStore
  import opened TrieOps
  import opened Hasher
  import opened TrieObject

  // ---------------------------------------------------------------- verifying

  datatype ProofError = ProofNodeMissing(hash: Bytes) | BadProofNode | ProofPanic

  /** `get`: walk a decoded node until a value, nothing or a hash; fails where the source panics. */
  function Walk(n: Node, k: Bytes): (r: Result<(Bytes, Node), ProofError>)
    ensures r.Ok? ==> r.value.1.Nil? || r.value.1.Value? || r.value.1.HashRef?
    decreases n
  {
    match n
    case Nil => Ok((k, Nil))
    case Value(_) => Ok(([], n))
    case HashRef(_) => Ok((k, n))
    case Short(p, v, _) => if p <= k then Walk(v, k[|p|..]) else Ok(([], Nil))
    case Full(cs, _) => if k != [] && k[0] < |cs| then Walk(cs[k[0]], k[1..]) else Err(ProofPanic)
  }

  /** The loop of `get`. */
  method WalkLoop(n: Node, k: Bytes) returns (r: Result<(Bytes, Node), ProofError>)
    ensures r == Walk(n, k)
  {
    var tn, key := n, k;
    while true
      invariant Walk(tn, key) == Walk(n, k)
      decreases tn
    {
      match tn
      case Nil => return Ok((key, Nil));
      case Value(_) => return Ok(([], tn));
      case HashRef(_) => return Ok((key, tn));
      case Short(p, v, _) =>
        if !(p <= key) {
          return Ok(([], Nil));
        }
        tn, key := v, key[|p|..];
      case Full(cs, _) =>
        if key == [] || key[0] >= |cs| {
          return Err(ProofPanic);
        }
        tn, key := cs[key[0]], key[1..];
    }
  }

  /** The verdict after at most `n` proof nodes; none if the verifier is still going. */
  function VerifyN(proof: Store, h: Bytes, k: Bytes, n: nat): Option<Result<Option<Bytes>, ProofError>>
    decreases n
  {
    if n == 0 then None
    else if h !in proof then Some(Err(ProofNodeMissing(h)))
    else
      var d := DecodeNode(Some(h), proof[h], 0);
      if d.Err? then Some(Err(BadProofNode)) else
        var w := Walk(d.value, k);
        if w.Err? then Some(Err(w.error))
        else if w.value.1.Nil? then Some(Ok(None))
        else if w.value.1.Value? then Some(Ok(Some(w.value.1.bytes)))
        else VerifyN(proof, w.value.1.hash, w.value.0, n - 1)
  }

  /** A verdict does not depend on the bound. */
  lemma {:induction false} VerdictUnique(proof: Store, h: Bytes, k: Bytes, n: nat, m: nat)
    requires VerifyN(proof, h, k, n).Some? && VerifyN(proof, h, k, m).Some?
    ensures VerifyN(proof, h, k, n) == VerifyN(proof, h, k, m)
    decreases n
  {
    hide DecodeNode, Walk;
    if h in proof && DecodeNode(Some(h), proof[h], 0).Ok? {
      var w := Walk(DecodeNode(Some(h), proof[h], 0).value, k);
      if w.Ok? && w.value.1.HashRef? {
        VerdictUnique(proof, w.value.1.hash, w.value.0, n - 1, m - 1);
      }
    }
  }

  /** How many references the verifier follows before its verdict. */
  ghost function Hops(proof: Store, h: Bytes, k: Bytes, n: nat): nat
    decreases n
  {
    if n == 0 || h !in proof || DecodeNode(Some(h), proof[h], 0).Err? then 0 else
      var w := Walk(DecodeNode(Some(h), proof[h], 0).value, k);
      if w.Ok? && w.value.1.HashRef? then 1 + Hops(proof, w.value.1.hash, w.value.0, n - 1) else 0
  }

  /** `VerifyProof`: gives its verdict, and how many nodes it took, wherever the bounded form gives one: it runs on only in
      a store with a hash cycle. */
  method VerifyProof(rootHash: Bytes, key: Bytes, proof: Store, ghost bound: nat)
    returns (r: Result<Option<Bytes>, ProofError>, nodes: nat)
    requires VerifyN(proof, rootHash, KeyHex(key), bound).Some?
    ensures VerifyN(proof, rootHash, KeyHex(key), bound) == Some(r)
    ensures nodes == Hops(proof, rootHash, KeyHex(key), bound) + if r.Ok? && r.value.Some? then 1 else 0
  {
    hide DecodeNode;
    var k, wantHash := KeyHex(key), rootHash;
    ghost var left: nat := bound;
    nodes := 0;
    while true
      invariant 0 <= left <= bound && VerifyN(proof, wantHash, k, left) == VerifyN(proof, rootHash, KeyHex(key), bound)
      invariant nodes + Hops(proof, wantHash, k, left) == Hops(proof, rootHash, KeyHex(key), bound)
      decreases left
    {
      if wantHash !in proof {
        return Err(ProofNodeMissing(wantHash)), nodes;
      }
      var d := DecodeNode(Some(wantHash), proof[wantHash], 0);
      if d.Err? {
        return Err(BadProofNode), nodes;
      }
      var w := WalkLoop(d.value, k);
      if w.Err? {
        return Err(w.error), nodes;
      }
      match w.value.1
      case Nil =>
        return Ok(None), nodes;
      case Value(v) =>
        return Ok(Some(v)), nodes + 1;
      case HashRef(h) =>
        k, wantHash, left, nodes := w.value.0, h, left - 1, nodes + 1;
    }
  }

  // ---------------------------------------------------------------- one proof node

  /** The nodes on the path of a key, from the root down. */
  function Path(t: Tree, k: Bytes): seq<Tree>
  {
    if k == [] then [] else
    match t
    case Empty => []
    case Leaf(_) => []
    case Ext(p, c) => [t] + (if p <= k then Path(c, k[|p|..]) else [])
    case Branch(cs) => [t] + (if k[0] < |cs| then Path(cs[k[0]], k[1..]) else [])
  }

  /** How many nodes of a path are stored by hash. */
  ghost function BigCount(H: Bytes -> Bytes, path: seq<Tree>): nat {
    if path == [] then 0 else (if |Blob(H, path[0])| >= HASH_LEN then 1 else 0) + BigCount(H, path[1..])
  }

  /** The same for the part of a key's path below the node `t` itself. */
  ghost function BigBelow(H: Bytes -> Bytes, t: Tree, k: Bytes): nat {
    var path := Path(t, k);
    if path == [] then 0 else BigCount(H, path[1..])
  }

  lemma {:induction false} BigNone(H: Bytes -> Bytes)
    ensures BigCount(H, []) == 0
  {
  }

  lemma {:induction false} BigCons(H: Bytes -> Bytes, t: Tree, rest: seq<Tree>)
    ensures BigCount(H, [t] + rest) == (if |Blob(H, t)| >= HASH_LEN then 1 else 0) + BigCount(H, rest)
    ensures ([t] + rest)[1..] == rest
  {
    assert ([t] + rest)[1..] == rest;
  }

  /** Where walking the stored form of `t` leads: to the answer, or by hash to a smaller tree that
      holds the answer under the rest of the key. */
  ghost predicate LeadsTo(H: Bytes -> Bytes, t: Tree, k: Bytes, w: Result<(Bytes, Node), ProofError>, c: Tree)
  {
    && w.Ok?
    && (w.value.1.Nil? ==> Get(t, k) == None)
    && (w.value.1.Value? ==> Get(t, k) == Some(w.value.1.bytes))
    && BigBelow(H, t, k) == (if w.value.1.HashRef? then BigCount(H, Path(c, w.value.0)) else 0)
    && (w.value.1.HashRef? ==>
          && (c.Ext? || c.Branch?) && Canon(c) && w.value.1.hash == H(Blob(H, c))
          && |Blob(H, c)| >= HASH_LEN && Within(Path(c, w.value.0), Path(t, k))
          && FullKey(w.value.0) && Get(t, k) == Get(c, w.value.0) && |w.value.0| < |k|)
  }

  ghost predicate Within(a: seq<Tree>, b: seq<Tree>)
  {
    forall x :: x in a ==> x in b
  }

  lemma {:induction false} WithinCons(a: seq<Tree>, t: Tree, b: seq<Tree>)
    requires Within(a, b)
    ensures Within(a, [t] + b)
  {
  }

  lemma {:induction false} WalkTree(H: Bytes -> Bytes, t: Tree, hash: Option<Bytes>, k: Bytes, S: set<Bytes>) returns (c: Tree)
    requires Canon(t) && FullKey(k) && Fits(H, t) && Covers(S, H, t)
    ensures LeadsTo(H, t, k, Walk(Loaded(H, t, hash, 0), k), c)
    ensures Walk(Loaded(H, t, hash, 0), k).value.1.HashRef? ==> Fits(H, c) && Covers(S, H, c)
    ensures c == t || c < t
    decreases t, 1
  {
    hide Blob, Canon, Covers, Fits;
    NotLeaf(t);
    if t.Empty? {
      c := t;
    } else if t.Ext? {
      c := WalkExt(H, t, hash, k, S);
    } else {
      c := WalkBranch(H, t, hash, k, S);
    }
  }

  lemma {:induction false} WalkExt(H: Bytes -> Bytes, t: Tree, hash: Option<Bytes>, k: Bytes, S: set<Bytes>) returns (c: Tree)
    requires t.Ext? && Canon(t) && FullKey(k) && Fits(H, t) && Covers(S, H, t)
    ensures LeadsTo(H, t, k, Walk(Loaded(H, t, hash, 0), k), c)
    ensures Walk(Loaded(H, t, hash, 0), k).value.1.HashRef? ==> Fits(H, c) && Covers(S, H, c)
    ensures c == t || c < t
    decreases t, 0
  {
    hide Blob, Canon, Covers, Fits, LoadedRef, Within, BigCount;
    c := t;
    SubtreeOfExt(H, t, S);
    var p, d := t.key, t.child;
    BigCons(H, t, if p <= k then Path(d, k[|p|..]) else []);
    BigNone(H);
    if p <= k {
      TermPrefix(p, k);
      if HasTerm(p) {
        SimpleRef(H, d, 0);
        assert k[|p|..] == [];
        assert Walk(Loaded(H, t, hash, 0), k) == Walk(Value(d.value), []);
        assert Get(t, k) == Get(d, []);
      } else {
        FullKeyTail(k, |p|);
        c := WalkRef(H, d, k[|p|..], k, S);
        var w := Walk(LoadedRef(H, d, 0), k[|p|..]);
        if w.value.1.HashRef? { WithinCons(Path(c, w.value.0), t, Path(d, k[|p|..])); }
      }
    }
  }

  lemma {:induction false} WalkBranch(H: Bytes -> Bytes, t: Tree, hash: Option<Bytes>, k: Bytes, S: set<Bytes>) returns (c: Tree)
    requires t.Branch? && Canon(t) && FullKey(k) && Fits(H, t) && Covers(S, H, t)
    ensures LeadsTo(H, t, k, Walk(Loaded(H, t, hash, 0), k), c)
    ensures Walk(Loaded(H, t, hash, 0), k).value.1.HashRef? ==> Fits(H, c) && Covers(S, H, c)
    ensures c == t || c < t
    decreases t, 0
  {
    hide Blob, Canon, Covers, Fits, LoadedRef, LoadedRefs, Within, BigCount;
    c := t;
    var cs := t.children;
    FullKeyTail(k, 0);
    SubtreeOfBranch(H, t, k[0], S);
    BigCons(H, t, Path(cs[k[0]], k[1..]));
    BigNone(H);
    if k[0] == TERM {
      SimpleRef(H, cs[16], 0);
      assert k[1..] == [];
      assert Walk(Loaded(H, t, hash, 0), k) == Walk(LoadedRef(H, cs[16], 0), []);
      assert Get(t, k) == Get(cs[16], []);
    } else {
      FullKeyTail(k, 1);
      c := WalkRef(H, cs[k[0]], k[1..], k, S);
      var w := Walk(LoadedRef(H, cs[k[0]], 0), k[1..]);
      if w.value.1.HashRef? { WithinCons(Path(c, w.value.0), t, Path(cs[k[0]], k[1..])); }
    }
  }

  lemma {:induction false} SubtreeOfExt(H: Bytes -> Bytes, t: Tree, S: set<Bytes>)
    requires t.Ext? && Canon(t) && Fits(H, t) && Covers(S, H, t)
    ensures t.key != [] && ValidHex(t.key) && Fits(H, t.child) && Covers(S, H, t.child)
    ensures if HasTerm(t.key) then t.child.Leaf? else t.child.Branch? && Canon(t.child)
  {
  }

  lemma {:induction false} SubtreeOfBranch(H: Bytes -> Bytes, t: Tree, i: nat, S: set<Bytes>)
    requires t.Branch? && Canon(t) && Fits(H, t) && Covers(S, H, t) && i < 17
    ensures |t.children| == 17 && Fits(H, t.children[i]) && Covers(S, H, t.children[i])
    ensures if i == 16 then t.children[i].Empty? || t.children[i].Leaf? else Canon(t.children[i])
  {
  }

  /** Walking into a child: further if it is embedded, stopping at its hash otherwise. */
  lemma {:induction false} WalkRef(H: Bytes -> Bytes, t: Tree, k: Bytes, whole: Bytes, S: set<Bytes>) returns (c: Tree)
    requires Canon(t) && FullKey(k) && Fits(H, t) && Covers(S, H, t) && |k| < |whole|
    ensures var w := Walk(LoadedRef(H, t, 0), k);
            && w.Ok?
            && (w.value.1.Nil? ==> Get(t, k) == None)
            && (w.value.1.Value? ==> Get(t, k) == Some(w.value.1.bytes))
            && BigCount(H, Path(t, k)) == (if w.value.1.HashRef? then BigCount(H, Path(c, w.value.0)) else 0)
            && (w.value.1.HashRef? ==>
                  && (c.Ext? || c.Branch?) && Canon(c) && w.value.1.hash == H(Blob(H, c)) && Fits(H, c) && Covers(S, H, c)
                  && |Blob(H, c)| >= HASH_LEN && Within(Path(c, w.value.0), Path(t, k))
                  && FullKey(w.value.0) && Get(t, k) == Get(c, w.value.0) && |w.value.0| < |whole|)
    ensures c == t || c < t
    decreases t, 2
  {
    hide Blob, Canon, Covers, Fits;
    if t.Empty? || |Blob(H, t)| < HASH_LEN {
      NotLeaf(t);
      c := WalkTree(H, t, None, k, S);
    } else {
      NotLeaf(t);
      c := t;
    }
  }

  // ---------------------------------------------------------------- soundness

  /** Whatever a content-addressed store leads the verifier to: it is still going, it lacks a node, or
      it returns what the tree holds. */
  lemma {:induction false} ProofSound(H: Bytes -> Bytes, t: Tree, k: Bytes, proof: Store, S: set<Bytes>, n: nat)
    requires HashLen(H) && InjectiveOn(H, S) && ContentAddressed(H, proof, S)
    requires (t.Ext? || t.Branch?) && Canon(t) && Fits(H, t) && Covers(S, H, t) && FullKey(k)
    ensures var r := VerifyN(proof, H(Blob(H, t)), k, n);
            r == None || (r.value.Err? && r.value.error.ProofNodeMissing?) || r == Some(Ok(Get(t, k)))
    decreases n
  {
    hide Blob, Canon, Covers, Fits, InjectiveOn, FullKey, DecodeNode, Walk, Get;
    var h := H(Blob(H, t));
    if n > 0 && h in proof {
      StoredNode(H, t, proof, S);
      var c := WalkTree(H, t, Some(h), k, S);
      var w := Walk(Loaded(H, t, Some(h), 0), k);
      if w.value.1.HashRef? {
        ProofSound(H, c, w.value.0, proof, S, n - 1);
      }
    }
  }

  /** The entry under a node's hash is that node's encoding, and decodes to its loaded form. */
  lemma {:induction false} StoredNode(H: Bytes -> Bytes, t: Tree, proof: Store, S: set<Bytes>)
    requires HashLen(H) && InjectiveOn(H, S) && ContentAddressed(H, proof, S) && H(Blob(H, t)) in proof
    requires (t.Ext? || t.Branch?) && Canon(t) && Fits(H, t) && Covers(S, H, t)
    ensures proof[H(Blob(H, t))] == Blob(H, t)
    ensures var h := H(Blob(H, t)); DecodeNode(Some(h), proof[h], 0) == Ok(Loaded(H, t, Some(h), 0))
  {
    hide Canon, Covers, Fits, InjectiveOn, DecodeNode, Blob, Loaded;
    var h := H(Blob(H, t));
    BlobCovered(S, H, t);
    Injective(H, S, proof[h], Blob(H, t));
    NodeRoundTrip(H, t, Some(h), 0, []);
    assert Blob(H, t) + [] == Blob(H, t);
  }

  /** No content-addressed store makes the verifier return anything for the root hash of the empty trie. */
  lemma {:induction false} EmptyProof(H: Bytes -> Bytes, k: Bytes, proof: Store, S: set<Bytes>, n: nat)
    requires InjectiveOn(H, S) && ContentAddressed(H, proof, S) && [0x80] in S
    ensures var r := VerifyN(proof, H([0x80]), k, n); r == None || r.value.Err?
  {
  }

  // ---------------------------------------------------------------- proving

  /** Which nodes of a path become proof elements: the root and those stored by hash. */
  predicate Element(H: Bytes -> Bytes, path: seq<Tree>, i: nat)
    requires i < |path|
  {
    i == 0 || |Blob(H, path[i])| >= HASH_LEN
  }

  /** The elements of a path added to a proof, the first `level` of them skipped. */
  function AddProof(H: Bytes -> Bytes, proof: Store, path: seq<Tree>, level: nat): (Store, nat)
  {
    if path == [] then (proof, level) else
      var i := |path| - 1;
      var (p, l) := AddProof(H, proof, path[..i], level);
      if !Element(H, path, i) then (p, l)
      else if l > 0 then (p, l - 1)
      else (p[H(Blob(H, path[i])) := Blob(H, path[i])], 0)
  }

  ghost predicate PathCovered(S: set<Bytes>, H: Bytes -> Bytes, path: seq<Tree>)
  {
    forall i :: 0 <= i < |path| ==> Blob(H, path[i]) in S
  }

  /** With nothing skipped, every element is found under its hash. */
  lemma {:induction false} AllAdded(H: Bytes -> Bytes, proof: Store, path: seq<Tree>, S: set<Bytes>, j: nat)
    requires InjectiveOn(H, S) && PathCovered(S, H, path) && j < |path| && Element(H, path, j)
    ensures var p := AddProof(H, proof, path, 0).0;
            H(Blob(H, path[j])) in p && p[H(Blob(H, path[j]))] == Blob(H, path[j])
  {
    hide Blob;
    var i := |path| - 1;
    NothingSkipped(H, proof, path[..i]);
    if j < i {
      assert path[..i][j] == path[j];
      AllAdded(H, proof, path[..i], S, j);
    }
  }

  lemma {:induction false} NothingSkipped(H: Bytes -> Bytes, proof: Store, path: seq<Tree>)
    ensures AddProof(H, proof, path, 0).1 == 0
  {
    hide Blob;
    if path != [] { NothingSkipped(H, proof, path[..|path| - 1]); }
  }

  /** The proof holds the root and every node of the path that is stored by hash. */
  ghost predicate HasPath(H: Bytes -> Bytes, proof: Store, t: Tree, k: Bytes)
  {
    && InStore(H, proof, t)
    && (forall x :: x in Path(t, k) && |Blob(H, x)| >= HASH_LEN ==> InStore(H, proof, x))
  }

  /** A store with the nodes of the path leads the verifier to the tree's answer, through the nodes stored by hash. */
  lemma {:induction false} PathVerifies(H: Bytes -> Bytes, t: Tree, k: Bytes, proof: Store, n: nat)
    requires HashLen(H) && (t.Ext? || t.Branch?) && Canon(t) && Fits(H, t) && FullKey(k)
    requires HasPath(H, proof, t, k) && n >= |k|
    ensures VerifyN(proof, H(Blob(H, t)), k, n) == Some(Ok(Get(t, k))) && Hops(proof, H(Blob(H, t)), k, n) == BigBelow(H, t, k)
    decreases n
  {
    hide Blob, Canon, Covers, Fits, DecodeNode, Walk, Get, Path, Loaded, BigCount, BigBelow;
    var h := H(Blob(H, t));
    NodeRoundTrip(H, t, Some(h), 0, []);
    assert Blob(H, t) + [] == Blob(H, t);
    var S := CoverOf(H, t);
    var c := WalkTree(H, t, Some(h), k, S);
    var w := Walk(Loaded(H, t, Some(h), 0), k);
    if w.value.1.HashRef? {
      PathStarts(H, c, w.value.0);
      PathVerifies(H, c, w.value.0, proof, n - 1);
    }
  }

  lemma {:induction false} PathStarts(H: Bytes -> Bytes, t: Tree, k: Bytes)
    requires (t.Ext? || t.Branch?) && k != []
    ensures t in Path(t, k)
    ensures BigCount(H, Path(t, k)) == (if |Blob(H, t)| >= HASH_LEN then 1 else 0) + BigBelow(H, t, k)
  {
  }

  /** Some finite set of encodings covers a tree. */
  lemma {:induction false} CoverOf(H: Bytes -> Bytes, t: Tree) returns (S: set<Bytes>)
    ensures Covers(S, H, t)
    decreases t
  {
    hide Blob;
    match t
    case Empty => S := {};
    case Leaf(_) => S := {};
    case Ext(_, c) =>
      var R := CoverOf(H, c);
      S := R + {Blob(H, t)};
      CoverMore(H, c, R, S);
    case Branch(cs) =>
      var R := CoverAll(H, cs);
      S := R + {Blob(H, t)};
      forall i | 0 <= i < |cs| ensures Covers(S, H, cs[i]) { CoverMore(H, cs[i], R, S); }
  }

  lemma {:induction false} CoverAll(H: Bytes -> Bytes, cs: seq<Tree>) returns (S: set<Bytes>)
    ensures forall i :: 0 <= i < |cs| ==> Covers(S, H, cs[i])
    decreases cs
  {
    hide Covers;
    if cs == [] {
      S := {};
    } else {
      var n := |cs| - 1;
      var R := CoverAll(H, cs[..n]);
      var L := CoverOf(H, cs[n]);
      S := R + L;
      forall i | 0 <= i < |cs| ensures Covers(S, H, cs[i]) {
        if i < n {
          assert cs[..n][i] == cs[i];
          CoverMore(H, cs[i], R, S);
        } else {
          CoverMore(H, cs[i], L, S);
        }
      }
    }
  }

  lemma {:induction false} CoverMore(H: Bytes -> Bytes, t: Tree, R: set<Bytes>, S: set<Bytes>)
    requires Covers(R, H, t) && R <= S
    ensures Covers(S, H, t)
  {
    hide Blob;
    match t
    case Empty =>
    case Leaf(_) =>
    case Ext(_, c) => CoverMore(H, c, R, S);
    case Branch(cs) =>
      forall i | 0 <= i < |cs| ensures Covers(S, H, cs[i]) { CoverMore(H, cs[i], R, S); }
  }

  /** The proof built at level zero, into whatever store, verifies to what the tree holds. */
  lemma {:induction false} ProofComplete(H: Bytes -> Bytes, t: Tree, k: Bytes, proof: Store, S: set<Bytes>)
    requires HashLen(H) && InjectiveOn(H, S) && Covers(S, H, t)
    requires (t.Ext? || t.Branch?) && Canon(t) && Fits(H, t) && FullKey(k)
    ensures VerifyN(AddProof(H, proof, Path(t, k), 0).0, H(Blob(H, t)), k, |k|) == Some(Ok(Get(t, k)))
    ensures Hops(AddProof(H, proof, Path(t, k), 0).0, H(Blob(H, t)), k, |k|) == BigBelow(H, t, k)
  {
    hide Blob, Canon, Covers, Fits, FullKey, InjectiveOn, AddProof, VerifyN, Hops, BigBelow, Get;
    var path := Path(t, k);
    var p := AddProof(H, proof, path, 0).0;
    PathIn(H, t, k, S);
    assert k != [] by { KeyNonempty(k); }
    assert path[0] == t;
    forall i | 0 <= i < |path| && Element(H, path, i) ensures InStore(H, p, path[i]) {
      AllAdded(H, proof, path, S, i);
    }
    PathVerifies(H, t, k, p, |k|);
  }

  lemma {:induction false} KeyNonempty(k: Bytes)
    requires FullKey(k)
    ensures k != []
  {
  }

  lemma {:induction false} PathIn(H: Bytes -> Bytes, t: Tree, k: Bytes, S: set<Bytes>)
    requires Covers(S, H, t)
    ensures PathCovered(S, H, Path(t, k))
    decreases t
  {
    hide Blob;
    if k != [] {
      match t
      case Empty =>
      case Leaf(_) =>
      case Ext(p, c) => if p <= k { PathIn(H, c, k[|p|..], S); }
      case Branch(cs) => if k[0] < |cs| { PathIn(H, cs[k[0]], k[1..], S); }
    }
  }

  // ---------------------------------------------------------------- building a proof

  /** `hashChildren` without a database: the collapsed form of a node. */
  function CollapseNode(H: Bytes -> Bytes, n: Node): Item
    requires n.Short? || n.Full?
  {
    var mode := Mode(0, 0, false);
    if n.Short? then List([Str(Compact(n.key)), Hasher.Hash(H, n.val, map[], mode, false).item])
    else List(HashAll(H, n.children, map[], mode).items)
  }

  /** The hash of a collapsed node: cached if it has one and is not embedded. */
  function ElementHash(H: Bytes -> Bytes, n: Node, enc: Bytes): Bytes
    requires n.Short? || n.Full?
  {
    if |enc| >= HASH_LEN && n.flag.hash.Some? then n.flag.hash.value else H(enc)
  }

  lemma {:induction false} CollapseIsBody(H: Bytes -> Bytes, full: Store, n: Node, t: Tree, top: bool)
    requires HashLen(H) && (n.Short? || n.Full?) && Rep(H, full, n, t, top)
    ensures Encode(CollapseNode(H, n)) == Blob(H, t) && ElementHash(H, n, Blob(H, t)) == H(Blob(H, t))
  {
    hide Hasher.Hash, HashAll, Blob, Encode;
    var mode := Mode(0, 0, false);
    assert Blob(H, t) == Encode(Body(H, t)) by { BlobIs(H, t); }
    if n.Short? {
      HashRep(H, full, n.val, t.child, mode, false, {});
      HashMatches(H, map[], full, n.val, t.child, mode, false, {});
    } else {
      HashAllRep(H, full, n.children, t.children, mode, {});
      AllMatch(H, map[], full, n.children, t.children, mode, {});
    }
  }

  lemma {:induction false} BlobIs(H: Bytes -> Bytes, t: Tree)
    ensures Blob(H, t) == Encode(Body(H, t))
  {
  }

  /** Nodes collected along a path. */
  ghost predicate PathRep(H: Bytes -> Bytes, full: Store, nodes: seq<Node>, path: seq<Tree>)
  {
    && |nodes| == |path|
    && forall i :: 0 <= i < |nodes| ==> (nodes[i].Short? || nodes[i].Full?) && Rep(H, full, nodes[i], path[i], i == 0)
  }

  /** The walk of `Prove` at some point: `cur` is where it stands, with the rest `k` of the key. */
  ghost predicate Walking(H: Bytes -> Bytes, full: Store, n: Node, cur: Tree, k: Bytes, nodes: seq<Node>, path: seq<Tree>)
  {
    && PathRep(H, full, nodes, path) && Rep(H, full, n, cur, path == []) && Fits(H, cur)
    && (k == [] || cur.Empty? || (FullKey(k) && Canon(cur)))
  }

  /** One step of the walk over a loaded node. */
  lemma {:induction false} WalkStep(H: Bytes -> Bytes, full: Store, n: Node, cur: Tree, k: Bytes, nodes: seq<Node>, path: seq<Tree>)
    requires Walking(H, full, n, cur, k, nodes, path) && k != [] && (n.Short? || n.Full?)
    ensures n.Short? && n.key <= k ==>
              && cur.Ext? && n.key != [] && Walking(H, full, n.val, cur.child, k[|n.key|..], nodes + [n], path + [cur])
              && Path(cur, k) == [cur] + Path(cur.child, k[|n.key|..])
    ensures n.Short? && !(n.key <= k) ==>
              Walking(H, full, Nil, Empty, k, nodes + [n], path + [cur]) && Path(cur, k) == [cur] + Path(Empty, k)
    ensures n.Full? ==>
              && cur.Branch? && k[0] < |n.children| && k[0] < |cur.children|
              && Walking(H, full, n.children[k[0]], cur.children[k[0]], k[1..], nodes + [n], path + [cur])
              && Path(cur, k) == [cur] + Path(cur.children[k[0]], k[1..])
  {
    hide Blob, Stored, FlagOk, PathRep;
    NextRep(H, full, nodes, path, n, cur);
    FullKeyTail(k, 0);
    if n.Short? {
      if n.key <= k {
        TermPrefix(n.key, k);
        if !HasTerm(n.key) { FullKeyTail(k, |n.key|); }
      } else {
        assert Path(Empty, k) == [];
        FitsEmpty(H);
      }
    } else if k[0] != TERM {
      FullKeyTail(k, 1);
    }
  }

  lemma {:induction false} FitsEmpty(H: Bytes -> Bytes)
    ensures Fits(H, Empty)
  {
  }

  lemma {:induction false} NextRep(H: Bytes -> Bytes, full: Store, nodes: seq<Node>, path: seq<Tree>, n: Node, cur: Tree)
    requires PathRep(H, full, nodes, path) && Rep(H, full, n, cur, path == []) && (n.Short? || n.Full?)
    ensures PathRep(H, full, nodes + [n], path + [cur])
  {
  }

  /** First loop of `Prove`: the nodes on the path of the key, loading what is not in memory. */
  method CollectPath(H: Bytes -> Bytes, db: Store, root: Node, gen: nat, key: Bytes, ghost t: Tree, ghost full: Store)
    returns (err: Option<TrieError>, nodes: seq<Node>)
    requires HashLen(H) && Canon(t) && Fits(H, t) && Extends(db, full) && Rep(H, full, root, t, true)
    ensures err.None? ==> PathRep(H, full, nodes, Path(t, KeyHex(key)))
    ensures err.Some? ==> err.value.MissingNode? && err.value.hash !in db && db != full
  {
    hide Rep, Canon, Fits, KeyHex, HashLen, DecodeNode, FullKey, PathRep;
    var k, tn := KeyHex(key), root;
    nodes := [];
    ghost var cur, path := t, [];
    FullKeyHex(key);
    PathRepNone(H, full);
    while |k| > 0 && !tn.Nil?
      invariant Walking(H, full, tn, cur, k, nodes, path)
      invariant path + Path(cur, k) == Path(t, KeyHex(key))
      decreases |k|, if tn.HashRef? then 2 else if tn.Nil? then 0 else 1
    {
      match tn
      case Short(p, v, _) =>
        WalkStep(H, full, tn, cur, k, nodes, path);
        nodes := nodes + [tn];
        if !(p <= k) {
          Assoc(path, [cur], Path(Empty, k));
          path := path + [cur];
          tn, cur := Nil, Empty;
        } else {
          Assoc(path, [cur], Path(cur.child, k[|p|..]));
          path := path + [cur];
          tn, k := v, k[|p|..];
          cur := cur.child;
        }
      case Full(cs, _) =>
        WalkStep(H, full, tn, cur, k, nodes, path);
        nodes := nodes + [tn];
        Assoc(path, [cur], Path(cur.children[k[0]], k[1..]));
        path := path + [cur];
        cur := cur.children[k[0]];
        tn, k := cs[k[0]], k[1..];
      case HashRef(h) =>
        WalkLoad(H, db, full, h, cur, gen, k, nodes, path);
        var n := Resolve(db, h, gen);
        if n.Err? {
          return Some(n.error), nodes;
        }
        tn := n.value;
      case Value(_) =>
        WalkNotValue(H, full, tn, cur, k, nodes, path);
        assert false;
    }
    WalkEnds(H, full, tn, cur, k, path == []);
    assert path + [] == path;
    err := None;
  }

  lemma {:induction false} PathRepNone(H: Bytes -> Bytes, full: Store)
    ensures PathRep(H, full, [], [])
  {
  }

  lemma {:induction false} WalkLoad(H: Bytes -> Bytes, db: Store, full: Store, h: Bytes, cur: Tree, gen: nat, k: Bytes,
                                    nodes: seq<Node>, path: seq<Tree>)
    requires HashLen(H) && Extends(db, full) && Walking(H, full, HashRef(h), cur, k, nodes, path) && k != []
    ensures var n := Resolve(db, h, gen);
            && (n.Ok? ==> !n.value.HashRef? && Walking(H, full, n.value, cur, k, nodes, path))
            && (n.Err? ==> n.error.MissingNode? && n.error.hash !in db && db != full)
  {
    hide PathRep, Fits, Blob, DecodeNode;
    SimpleNode(H, full, HashRef(h), cur, path == []);
    ResolveRep(H, full, h, cur, gen, path == []);
  }

  lemma {:induction false} WalkNotValue(H: Bytes -> Bytes, full: Store, n: Node, cur: Tree, k: Bytes, nodes: seq<Node>, path: seq<Tree>)
    requires Walking(H, full, n, cur, k, nodes, path) && k != []
    ensures !n.Value?
  {
  }

  /** Second loop of `Prove`: the collected nodes that are proof elements, from `fromLevel` on. */
  method WriteElements(H: Bytes -> Bytes, nodes: seq<Node>, fromLevel: nat, proofDb: Store, ghost path: seq<Tree>, ghost full: Store)
    returns (proof: Store)
    requires HashLen(H) && PathRep(H, full, nodes, path)
    ensures proof == AddProof(H, proofDb, path, fromLevel).0
  {
    hide Rep, HashLen, AddProof, Blob, Encode, CollapseNode, ElementHash;
    var level, i := fromLevel, 0;
    proof := proofDb;
    AddNone(H, proofDb, fromLevel);
    assert path[..0] == [];
    while i < |nodes|
      invariant 0 <= i <= |nodes| && PathRep(H, full, nodes, path)
      invariant (proof, level) == AddProof(H, proofDb, path[..i], fromLevel)
    {
      CollapseIsBody(H, full, nodes[i], path[i], i == 0);
      AddNext(H, proofDb, path, i, fromLevel);
      var enc := Encode(CollapseNode(H, nodes[i]));
      if |enc| >= HASH_LEN || i == 0 {
        if level > 0 {
          level := level - 1;
        } else {
          proof := proof[ElementHash(H, nodes[i], enc) := enc];
        }
      }
      i := i + 1;
    }
    assert path[..i] == path;
  }

  /** `Prove`: collect the nodes on the path, then write those that are proof elements. */
  method Prove(H: Bytes -> Bytes, db: Store, root: Node, gen: nat, key: Bytes, fromLevel: nat, proofDb: Store,
               ghost t: Tree, ghost full: Store)
    returns (err: Option<TrieError>, proof: Store)
    requires HashLen(H) && Canon(t) && Fits(H, t) && Extends(db, full) && Rep(H, full, root, t, true)
    ensures err.None? ==> proof == AddProof(H, proofDb, Path(t, KeyHex(key)), fromLevel).0
    ensures err.Some? ==> err.value.MissingNode? && err.value.hash !in db && proof == proofDb
    ensures db == full ==> err.None?
  {
    hide *;
    var e, nodes := CollectPath(H, db, root, gen, key, t, full);
    if e.Some? {
      return e, proofDb;
    }
    proof := WriteElements(H, nodes, fromLevel, proofDb, Path(t, KeyHex(key)), full);
    err := None;
  }

  /** A proof made at level zero and then verified: the verdict is the lookup, after all nodes of the path that are stored by hash. */
  method ProveAndVerify(H: Bytes -> Bytes, db: Store, root: Node, rootHash: Bytes, gen: nat, key: Bytes, proofDb: Store,
                        ghost t: Tree, ghost full: Store, ghost S: set<Bytes>)
    returns (err: Option<TrieError>, r: Result<Option<Bytes>, ProofError>, nodes: nat)
    requires HashLen(H) && Canon(t) && Fits(H, t) && Extends(db, full) && Rep(H, full, root, t, true)
    requires !t.Empty? && rootHash == H(Blob(H, t)) && InjectiveOn(H, S) && Covers(S, H, t)
    ensures err.None? ==> r == Ok(Get(t, KeyHex(key)))
    ensures err.None? ==> nodes == BigBelow(H, t, KeyHex(key)) + if Get(t, KeyHex(key)).Some? then 1 else 0
    ensures db == full ==> err.None?
  {
    hide *;
    r, nodes := Ok(None), 0;
    var e, proof := Prove(H, db, root, gen, key, 0, proofDb, t, full);
    if e.Some? {
      return e, r, nodes;
    }
    NotLeaf(t);
    FullKeyHex(key);
    ProofComplete(H, t, KeyHex(key), proofDb, S);
    r, nodes := VerifyProof(rootHash, key, proof, |KeyHex(key)|);
    err := None;
  }

  lemma {:induction false} WalkEnds(H: Bytes -> Bytes, full: Store, n: Node, cur: Tree, k: Bytes, top: bool)
    requires Rep(H, full, n, cur, top) && (k == [] || n.Nil?)
    ensures Path(cur, k) == []
  {
  }

  lemma {:induction false} AddNone(H: Bytes -> Bytes, proof: Store, level: nat)
    ensures AddProof(H, proof, [], level) == (proof, level)
  {
  }

  lemma {:induction false} AddNext(H: Bytes -> Bytes, proof: Store, path: seq<Tree>, i: nat, level: nat)
    requires i < |path|
    ensures var (p, l) := AddProof(H, proof, path[..i], level);
            var b := Blob(H, path[i]);
            AddProof(H, proof, path[..i + 1], level)
              == if !(i == 0 || |b| >= HASH_LEN) then (p, l) else if l > 0 then (p, l - 1) else (p[H(b) := b], 0)
  {
    hide Blob;
    assert path[..i + 1][..i] == path[..i];
  }
}
