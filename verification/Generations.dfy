/** Which nodes of a trie stay in memory (trie/trie.go, trie/hasher.go, trie/node.go).

    Nodes are stamped with the generation in which they were made or loaded, and every commit starts a new
    one.  A commit unloads a clean node once its stamp is old enough, but only if it gets there: it does not look
    below a clean node that it keeps. */
module Generations {
  import opened Common
  import opened RlpSpec
  import opened RlpRaw
  import opened HexPrefix
  import opened PatriciaTree
  import opened NodeCodec
  import opened TrieStore
  import opened TrieOps
  import opened Hasher

  ghost predicate IsLoaded(n: Node) {
    n.Short? || n.Full?
  }

  /** How many commits ago a node was stamped, as 16 bits tell it. */
  ghost function Age(f: Flag, gen: nat): nat {
    (gen - f.gen) % 65536
  }

  /** A clean node with a hash: a commit does not look below it. */
  ghost predicate Settled(n: Node) {
    IsLoaded(n) && n.flag.hash.Some? && !n.flag.dirty
  }

  ghost function NodeAt(n: Node, path: seq<nat>): Option<Node> {
    if path == [] then Some(n) else
      match n
      case Short(_, v, _) => if path[0] == 0 then NodeAt(v, path[1..]) else None
      case Full(cs, _) => if path[0] < |cs| then NodeAt(cs[path[0]], path[1..]) else None
      case _ => None
  }

  ghost predicate LoadedAt(n: Node, path: seq<nat>) {
    NodeAt(n, path).Some? && IsLoaded(NodeAt(n, path).value)
  }

  /** Down to the node at `path`, a commit meets no settled node of age `limit` or more. */
  ghost predicate Spared(n: Node, path: seq<nat>, gen: nat, limit: nat) {
    if Settled(n) then Age(n.flag, gen) < limit
    else if path == [] then true
    else
      match n
      case Short(_, v, _) => path[0] == 0 && Spared(v, path[1..], gen, limit)
      case Full(cs, _) => path[0] < |cs| && Spared(cs[path[0]], path[1..], gen, limit)
      case _ => true
  }

  // ---------------------------------------------------------------- one commit

  /** What committing makes of a child does not depend on the store. */
  lemma {:induction false} HashChild(H: Bytes -> Bytes, cs: seq<Node>, db: Store, mode: Mode, i: nat)
    requires i < |cs|
    ensures |HashAll(H, cs, db, mode).cached| == |cs| && HashAll(H, cs, db, mode).cached[i] == Hash(H, cs[i], db, mode, false).cached
  {
    hide Hash;
    var n := |cs| - 1;
    HashAllSize(H, cs[..n], db, mode);
    if i < n {
      HashChild(H, cs[..n], db, mode, i);
    } else {
      HashWrites(H, cs[n], HashAll(H, cs[..n], db, mode).db, db, mode, false);
    }
  }

  lemma {:induction false} HashAllSize(H: Bytes -> Bytes, cs: seq<Node>, db: Store, mode: Mode)
    ensures |HashAll(H, cs, db, mode).cached| == |cs|
  {
    hide Hash;
    if cs != [] {
      HashAllSize(H, cs[..|cs| - 1], db, mode);
    }
  }

  /** What a commit makes of one node. */
  lemma {:induction false} Committed(H: Bytes -> Bytes, n: Node, db: Store, gen: nat, limit: nat, force: bool)
    ensures var c := Hash(H, n, db, Mode(gen, limit, true), force).cached;
            && (!IsLoaded(n) ==> c == n)
            && (Settled(n) ==> c == if (gen - n.flag.gen) % 65536 >= limit then HashRef(n.flag.hash.value) else n)
            && (IsLoaded(n) && !Settled(n) ==> IsLoaded(c) && c.flag.gen == n.flag.gen && !c.flag.dirty)
            && (n.Short? && !Settled(n) ==>
                  c.Short? && c.key == n.key && c.val == Hash(H, n.val, db, Mode(gen, limit, true), false).cached)
            && (n.Full? && !Settled(n) ==>
                  c.Full? && |c.children| == |n.children|
                  && forall i :: 0 <= i < |n.children| ==> c.children[i] == Hash(H, n.children[i], db, Mode(gen, limit, true), false).cached)
  {
    hide HashAll, Encode;
    var mode := Mode(gen, limit, true);
    if n.Full? && !Settled(n) {
      HashAllSize(H, n.children, db, mode);
      forall i | 0 <= i < |n.children|
        ensures HashAll(H, n.children, db, mode).cached[i] == Hash(H, n.children[i], db, mode, false).cached
      {
        HashChild(H, n.children, db, mode, i);
      }
    }
  }

  /** A commit keeps a loaded node, stamp and all, if and only if it meets no old settled node down to it. */
  lemma {:induction false} UnloadIff(H: Bytes -> Bytes, n: Node, db: Store, gen: nat, limit: nat, force: bool, path: seq<nat>)
    requires LoadedAt(n, path)
    ensures var c := Hash(H, n, db, Mode(gen, limit, true), force).cached;
            && (LoadedAt(c, path) <==> Spared(n, path, gen, limit))
            && (LoadedAt(c, path) ==> NodeAt(c, path).value.flag.gen == NodeAt(n, path).value.flag.gen)
    decreases |path|
  {
    hide Hash;
    Committed(H, n, db, gen, limit, force);
    if !Settled(n) && path != [] {
      if n.Short? {
        UnloadIff(H, n.val, db, gen, limit, false, path[1..]);
      } else if n.Full? {
        UnloadIff(H, n.children[path[0]], db, gen, limit, false, path[1..]);
      }
    }
  }

  // ---------------------------------------------------------------- what every operation keeps

  /** Below a node none is younger, and below a clean node all are clean. */
  ghost predicate Tended(n: Node, gen: nat) {
    match n
    case Short(_, v, f) => Tended(v, gen) && Under(v, f, gen)
    case Full(cs, f) => forall i :: 0 <= i < |cs| ==> Tended(cs[i], gen) && Under(cs[i], f, gen)
    case _ => true
  }

  ghost predicate Under(c: Node, f: Flag, gen: nat) {
    IsLoaded(c) ==> Age(c.flag, gen) >= Age(f, gen) && (!f.dirty ==> !c.flag.dirty)
  }

  ghost predicate Clean(n: Node) {
    match n
    case Short(_, v, f) => !f.dirty && Clean(v)
    case Full(cs, f) => !f.dirty && forall i :: 0 <= i < |cs| ==> Clean(cs[i])
    case _ => true
  }

  lemma {:induction false} TendedClean(n: Node, gen: nat)
    requires Tended(n, gen) && (IsLoaded(n) ==> !n.flag.dirty)
    ensures Clean(n)
  {
    match n
    case Short(_, v, _) => TendedClean(v, gen);
    case Full(cs, _) =>
      forall i | 0 <= i < |cs| ensures Clean(cs[i]) { TendedClean(cs[i], gen); }
    case _ =>
  }

  /** After a commit nothing in memory is dirty. */
  lemma {:induction false} CommitCleans(H: Bytes -> Bytes, n: Node, db: Store, gen: nat, limit: nat, force: bool)
    requires Tended(n, gen)
    ensures Clean(Hash(H, n, db, Mode(gen, limit, true), force).cached)
    decreases n
  {
    hide Hash, Age;
    Committed(H, n, db, gen, limit, force);
    if Settled(n) {
      TendedClean(n, gen);
    } else if n.Short? {
      CommitCleans(H, n.val, db, gen, limit, false);
    } else if n.Full? {
      forall i | 0 <= i < |n.children| ensures Clean(Hash(H, n.children[i], db, Mode(gen, limit, true), false).cached) {
        CommitCleans(H, n.children[i], db, gen, limit, false);
      }
    }
  }

  lemma {:induction false} CommitTended(H: Bytes -> Bytes, n: Node, db: Store, gen: nat, limit: nat, force: bool)
    requires Tended(n, gen)
    ensures Tended(Hash(H, n, db, Mode(gen, limit, true), force).cached, gen)
    decreases n
  {
    hide Hash;
    Committed(H, n, db, gen, limit, force);
    if !Settled(n) {
      if n.Short? {
        KeptStamp(H, n.val, db, gen, limit);
        CommitTended(H, n.val, db, gen, limit, false);
      } else if n.Full? {
        forall i | 0 <= i < |n.children|
          ensures var c := Hash(H, n.children[i], db, Mode(gen, limit, true), false).cached;
                  Tended(c, gen) && (IsLoaded(c) ==> IsLoaded(n.children[i]) && c.flag.gen == n.children[i].flag.gen && !c.flag.dirty)
        {
          KeptStamp(H, n.children[i], db, gen, limit);
          CommitTended(H, n.children[i], db, gen, limit, false);
        }
      }
    }
  }

  lemma {:induction false} KeptStamp(H: Bytes -> Bytes, n: Node, db: Store, gen: nat, limit: nat)
    ensures var c := Hash(H, n, db, Mode(gen, limit, true), false).cached;
            IsLoaded(c) ==> IsLoaded(n) && c.flag.gen == n.flag.gen && !c.flag.dirty
  {
    hide Hash;
    Committed(H, n, db, gen, limit, false);
  }

  /** What hashing without a database makes of one node: stamp and dirtiness stay. */
  lemma {:induction false} JustHashed(H: Bytes -> Bytes, n: Node, db: Store, mode: Mode, force: bool)
    requires !mode.persist
    ensures var c := Hash(H, n, db, mode, force).cached;
            && (!IsLoaded(n) || n.flag.hash.Some? ==> c == n)
            && (IsLoaded(n) && n.flag.hash.None? ==> IsLoaded(c) && c.flag.gen == n.flag.gen && c.flag.dirty == n.flag.dirty)
            && (n.Short? && n.flag.hash.None? ==> c.Short? && c.val == Hash(H, n.val, db, mode, false).cached)
            && (n.Full? && n.flag.hash.None? ==>
                  c.Full? && |c.children| == |n.children|
                  && forall i :: 0 <= i < |n.children| ==> c.children[i] == Hash(H, n.children[i], db, mode, false).cached)
  {
    hide HashAll, Encode;
    if n.Full? && n.flag.hash.None? {
      HashAllSize(H, n.children, db, mode);
      forall i | 0 <= i < |n.children|
        ensures HashAll(H, n.children, db, mode).cached[i] == Hash(H, n.children[i], db, mode, false).cached
      {
        HashChild(H, n.children, db, mode, i);
      }
    }
  }

  lemma {:induction false} HashTended(H: Bytes -> Bytes, n: Node, db: Store, mode: Mode, force: bool, gen: nat)
    requires Tended(n, gen) && !mode.persist
    ensures var c := Hash(H, n, db, mode, force).cached;
            && Tended(c, gen) && (IsLoaded(c) <==> IsLoaded(n))
            && (IsLoaded(n) ==> c.flag.gen == n.flag.gen && c.flag.dirty == n.flag.dirty)
    decreases n
  {
    hide Hash;
    JustHashed(H, n, db, mode, force);
    if n.Short? {
      HashTended(H, n.val, db, mode, false, gen);
    } else if n.Full? {
      forall i | 0 <= i < |n.children|
        ensures var c, d := Hash(H, n.children[i], db, mode, false).cached, n.children[i];
                Tended(c, gen) && (IsLoaded(c) <==> IsLoaded(d)) && (IsLoaded(d) ==> c.flag.gen == d.flag.gen && c.flag.dirty == d.flag.dirty)
      {
        HashTended(H, n.children[i], db, mode, false, gen);
      }
    }
  }

  /** The next generation: every node is one older, unless its stamp is the one about to come round again. */
  lemma {:induction false} NextTended(n: Node, gen: nat)
    requires Tended(n, gen) && gen < 65536 && AgesFit(n, gen)
    ensures Tended(n, (gen + 1) % 65536)
  {
    hide Age;
    match n
    case Short(_, v, f) =>
      NextTended(v, gen);
      NextAge(f, gen);
      if IsLoaded(v) { NextAge(v.flag, gen); }
    case Full(cs, f) =>
      NextAge(f, gen);
      forall i | 0 <= i < |cs|
        ensures Tended(cs[i], (gen + 1) % 65536)
        ensures IsLoaded(cs[i]) ==> Age(cs[i].flag, (gen + 1) % 65536) == Age(cs[i].flag, gen) + 1
      {
        NextTended(cs[i], gen);
        if IsLoaded(cs[i]) { NextAge(cs[i].flag, gen); }
      }
    case _ =>
  }

  lemma {:induction false} NextAge(f: Flag, gen: nat)
    requires gen < 65536 && Age(f, gen) < 65535
    ensures Age(f, (gen + 1) % 65536) == Age(f, gen) + 1
  {
  }

  /** No node in memory was stamped 65535 generations ago. */
  ghost predicate AgesFit(n: Node, gen: nat) {
    match n
    case Short(_, v, f) => Age(f, gen) < 65535 && AgesFit(v, gen)
    case Full(cs, f) => Age(f, gen) < 65535 && forall i :: 0 <= i < |cs| ==> AgesFit(cs[i], gen)
    case _ => true
  }

  /** A node younger than the limit stays in memory. */
  lemma {:induction false} YoungStays(n: Node, path: seq<nat>, gen: nat, limit: nat)
    requires Tended(n, gen) && LoadedAt(n, path) && Age(NodeAt(n, path).value.flag, gen) < limit
    ensures Spared(n, path, gen, limit) && (IsLoaded(n) ==> Age(n.flag, gen) <= Age(NodeAt(n, path).value.flag, gen))
    decreases |path|
  {
    hide Age;
    if path != [] {
      if n.Short? {
        YoungStays(n.val, path[1..], gen, limit);
      } else if n.Full? {
        YoungStays(n.children[path[0]], path[1..], gen, limit);
      }
    }
  }

  /** An old clean node goes at a commit that gets to it: one that finds nothing settled above it. */
  lemma {:induction false} OldGoes(n: Node, path: seq<nat>, gen: nat, limit: nat)
    requires LoadedAt(n, path) && Settled(NodeAt(n, path).value) && Age(NodeAt(n, path).value.flag, gen) >= limit
    requires forall i :: 0 <= i < |path| && NodeAt(n, path[..i]).Some? ==> !Settled(NodeAt(n, path[..i]).value)
    ensures !Spared(n, path, gen, limit)
    decreases |path|
  {
    hide Age;
    if path != [] {
      assert path[..0] == [] && NodeAt(n, path[..0]) == Some(n);
      var c := if n.Short? then n.val else n.children[path[0]];
      forall i | 0 <= i < |path| - 1 && NodeAt(c, path[1..][..i]).Some?
        ensures !Settled(NodeAt(c, path[1..][..i]).value)
      {
        assert path[..i + 1][1..] == path[1..][..i];
        assert NodeAt(n, path[..i + 1]) == NodeAt(c, path[1..][..i]);
      }
      OldGoes(c, path[1..], gen, limit);
    }
  }

  /** Below a clean node that is kept, nodes of any age are kept: here one of 100 generations under one of none. */
  lemma {:induction false} Shielded(limit: nat) returns (n: Node)
    requires 0 < limit <= 100
    ensures Tended(n, 100) && LoadedAt(n, [0]) && Settled(NodeAt(n, [0]).value) && Age(NodeAt(n, [0]).value.flag, 100) >= limit
    ensures Spared(n, [0], 100, limit)
  {
    var below := Full([Nil], Flag(Some([1]), 0, false));
    n := Short([1], below, Flag(Some([2]), 100, false));
    assert NodeAt(n, [0]) == NodeAt(below, [0][1..]) == Some(below);
  }

  // ---------------------------------------------------------------- stamping

  /** The nodes met along the key are stamped with `gen`. */
  ghost predicate Stamped(n: Node, k: Bytes, gen: nat)
    decreases n
  {
    match n
    case Short(p, v, f) => f.gen == gen && (p <= k ==> Stamped(v, k[|p|..], gen))
    case Full(cs, f) => f.gen == gen && (k != [] && k[0] < |cs| ==> Stamped(cs[k[0]], k[1..], gen))
    case _ => true
  }

  /** All nodes are clean and stamped with `gen`. */
  ghost predicate Uniform(n: Node, gen: nat) {
    match n
    case Short(_, v, f) => f.gen == gen && !f.dirty && Uniform(v, gen)
    case Full(cs, f) => f.gen == gen && !f.dirty && forall i :: 0 <= i < |cs| ==> Uniform(cs[i], gen)
    case _ => true
  }

  lemma {:induction false} UniformTended(n: Node, gen: nat)
    requires Uniform(n, gen)
    ensures Tended(n, gen) && (IsLoaded(n) ==> n.flag.gen == gen && !n.flag.dirty)
  {
    match n
    case Short(_, v, _) => UniformTended(v, gen);
    case Full(cs, _) =>
      forall i | 0 <= i < |cs| ensures Tended(cs[i], gen) && (IsLoaded(cs[i]) ==> cs[i].flag.gen == gen && !cs[i].flag.dirty) {
        UniformTended(cs[i], gen);
      }
    case _ =>
  }

  lemma {:induction false} UniformStamped(n: Node, k: Bytes, gen: nat)
    requires Uniform(n, gen)
    ensures Stamped(n, k, gen)
    decreases n
  {
    match n
    case Short(p, v, _) => if p <= k { UniformStamped(v, k[|p|..], gen); }
    case Full(cs, _) => if k != [] && k[0] < |cs| { UniformStamped(cs[k[0]], k[1..], gen); }
    case _ =>
  }

  lemma {:induction false} DecodeNodeUniform(hash: Option<Bytes>, buf: Bytes, gen: nat)
    ensures var r := DecodeNode(hash, buf, gen); r.Ok? ==> Uniform(r.value, gen)
    decreases |buf|, 2
  {
    hide SplitList, Count;
    if buf != [] && SplitList(buf).Ok? {
      SplitShorter(buf);
      var elems := SplitList(buf).value.content;
      DecodeShortUniform(hash, elems, gen);
      DecodeFullUniform(hash, elems, gen);
    }
  }

  lemma {:induction false} SplitShorter(buf: Bytes)
    requires SplitList(buf).Ok?
    ensures |SplitList(buf).value.content| < |buf|
  {
  }

  lemma {:induction false} DecodeShortUniform(hash: Option<Bytes>, elems: Bytes, gen: nat)
    ensures var r := DecodeShort(hash, elems, gen); r.Ok? ==> Uniform(r.value, gen)
    decreases |elems|, 1
  {
    hide CompactToHex, DecodeRef;
    var k := SplitString(elems);
    if k.Ok? {
      DecodeRefUniform(k.value.rest, gen);
    }
  }

  lemma {:induction false} DecodeFullUniform(hash: Option<Bytes>, elems: Bytes, gen: nat)
    ensures var r := DecodeFull(hash, elems, gen); r.Ok? ==> Uniform(r.value, gen)
    decreases |elems|, 1
  {
    hide DecodeRefs, SplitString;
    DecodeRefsUniform(elems, 16, gen);
  }

  lemma {:induction false} DecodeRefsUniform(elems: Bytes, n: nat, gen: nat)
    ensures var r := DecodeRefs(elems, n, gen); r.Ok? ==> forall i :: 0 <= i < n ==> Uniform(r.value.0[i], gen)
    decreases |elems|, 0, n
  {
    hide DecodeRef;
    if n > 0 {
      DecodeRefsUniform(elems, n - 1, gen);
      var front := DecodeRefs(elems, n - 1, gen);
      if front.Ok? {
        DecodeRefUniform(front.value.1, gen);
      }
    }
  }

  lemma {:induction false} DecodeRefUniform(buf: Bytes, gen: nat)
    ensures var r := DecodeRef(buf, gen); r.Ok? ==> Uniform(r.value.0, gen)
    decreases |buf|, 0, 0
  {
    hide DecodeShort, DecodeFull, Count;
    var p := Split(buf);
    if p.Ok? && p.value.kind == KList {
      DecodeShortUniform(None, p.value.content, gen);
      DecodeFullUniform(None, p.value.content, gen);
    }
  }

  /** What is loaded is clean and stamped. */
  lemma {:induction false} ResolveUniform(db: Store, h: Bytes, gen: nat)
    ensures var r := Resolve(db, h, gen); r.Ok? ==> Uniform(r.value, gen)
  {
    hide DecodeNode;
    if h in db {
      DecodeNodeUniform(Some(h), db[h], gen);
    }
  }

  // ---------------------------------------------------------------- the three operations

  lemma {:induction false} FreshUnder(c: Node, gen: nat)
    ensures Under(c, NewFlag(gen), gen)
  {
  }

  lemma {:induction false} HangTended(rest: Bytes, x: Node, gen: nat)
    requires Tended(x, gen)
    ensures Tended(HangNode(rest, x, gen), gen)
  {
    FreshUnder(x, gen);
  }

  lemma {:induction false} SplitTended(p: Bytes, v: Node, k: Bytes, x: Node, m: nat, gen: nat)
    requires m < |p| && m < |k| && p[m] < 17 && k[m] < 17 && Tended(v, gen) && x.Value?
    ensures Tended(SplitNode(p, v, k, x, m, gen), gen)
  {
    hide Under;
    HangTended(p[m + 1..], v, gen);
    HangTended(k[m + 1..], x, gen);
    var cs := NoNodes()[p[m] := HangNode(p[m + 1..], v, gen)][k[m] := HangNode(k[m + 1..], x, gen)];
    assert forall i :: 0 <= i < |cs| ==> Tended(cs[i], gen);
    forall i | 0 <= i < |cs| ensures Under(cs[i], NewFlag(gen), gen) { FreshUnder(cs[i], gen); }
    FreshUnder(Full(cs, NewFlag(gen)), gen);
  }

  lemma {:induction false} InsertTended(db: Store, n: Node, k: Bytes, x: Node, gen: nat)
    requires Tended(n, gen) && x.Value?
    ensures var r := Insert(db, n, k, x, gen); r.Ok? ==> Tended(r.value.1, gen)
    decreases |k|, if n.HashRef? then 1 else 0
  {
    hide Resolve, SplitNode, CommonPrefix, Under;
    if k != [] {
      match n
      case Nil => FreshUnder(x, gen);
      case Value(_) =>
      case Short(p, v, _) =>
        var m := |CommonPrefix(k, p)|;
        if p != [] && m == |p| {
          InsertTended(db, v, k[m..], x, gen);
          var r := Insert(db, v, k[m..], x, gen);
          if r.Ok? { FreshUnder(r.value.1, gen); }
        } else if m < |p| && m < |k| && p[m] < 17 && k[m] < 17 {
          SplitTended(p, v, k, x, m, gen);
        }
      case Full(cs, _) =>
        if k[0] < |cs| {
          InsertTended(db, cs[k[0]], k[1..], x, gen);
          forall c ensures Under(c, NewFlag(gen), gen) { FreshUnder(c, gen); }
        }
      case HashRef(h) =>
        ResolveUniform(db, h, gen);
        if Resolve(db, h, gen).Ok? {
          UniformTended(Resolve(db, h, gen).value, gen);
          InsertTended(db, Resolve(db, h, gen).value, k, x, gen);
        }
    }
  }

  lemma {:induction false} ReduceTended(db: Store, cs: seq<Node>, gen: nat)
    requires |cs| == 17 && forall i :: 0 <= i < 17 ==> Tended(cs[i], gen)
    ensures var r := ReduceNode(db, cs, gen); r.Ok? ==> Tended(r.value.1, gen)
  {
    hide Resolve, LoneChild, Under;
    forall c ensures Under(c, NewFlag(gen), gen) { FreshUnder(c, gen); }
    var pos := LoneChild(cs);
    if 0 <= pos && cs[pos].HashRef? {
      ResolveUniform(db, cs[pos].hash, gen);
      if Resolve(db, cs[pos].hash, gen).Ok? {
        UniformTended(Resolve(db, cs[pos].hash, gen).value, gen);
      }
    }
  }

  lemma {:induction false} DeleteTended(db: Store, n: Node, k: Bytes, gen: nat)
    requires Tended(n, gen)
    ensures var r := Delete(db, n, k, gen); r.Ok? ==> Tended(r.value.1, gen)
    decreases |k|, if n.HashRef? then 1 else 0
  {
    hide Resolve, CommonPrefix, ReduceNode, Under;
    match n
    case Nil =>
    case Value(_) =>
    case Short(p, v, _) =>
      var m := |CommonPrefix(k, p)|;
      if m == |p| && m < |k| && p != [] {
        DeleteTended(db, v, k[m..], gen);
        forall c ensures Under(c, NewFlag(gen), gen) { FreshUnder(c, gen); }
      }
    case Full(cs, _) =>
      if k != [] && k[0] < |cs| && |cs| == 17 {
        DeleteTended(db, cs[k[0]], k[1..], gen);
        var r := Delete(db, cs[k[0]], k[1..], gen);
        if r.Ok? { ReduceTended(db, cs[k[0] := r.value.1], gen); }
      }
    case HashRef(h) =>
      ResolveUniform(db, h, gen);
      if Resolve(db, h, gen).Ok? {
        UniformTended(Resolve(db, h, gen).value, gen);
        DeleteTended(db, Resolve(db, h, gen).value, k, gen);
      }
  }

  /** A lookup restamps what it loads and all above it, and changes nothing else of the flags. */
  lemma {:induction false} TryGetTended(db: Store, n: Node, k: Bytes, gen: nat)
    requires Tended(n, gen)
    ensures var r := TryGet(db, n, k, gen);
            r.Ok? ==>
              && Tended(r.value.1, gen) && (!r.value.2 ==> r.value.1 == n) && (r.value.2 ==> Stamped(r.value.1, k, gen) && IsLoaded(r.value.1))
              && (IsLoaded(n) ==> IsLoaded(r.value.1) && r.value.1.flag == n.flag.(gen := r.value.1.flag.gen))
              && (n.HashRef? ==> !r.value.1.flag.dirty)
    decreases |k|, if n.HashRef? then 1 else 0
  {
    hide Resolve;
    match n
    case Nil =>
    case Value(_) =>
    case Short(p, v, f) =>
      if p <= k && p != [] { TryGetTended(db, v, k[|p|..], gen); }
    case Full(cs, f) =>
      if k != [] && k[0] < |cs| { TryGetTended(db, cs[k[0]], k[1..], gen); }
    case HashRef(h) =>
      ResolveUniform(db, h, gen);
      if Resolve(db, h, gen).Ok? {
        var m := Resolve(db, h, gen).value;
        UniformTended(m, gen);
        UniformStamped(m, k, gen);
        TryGetTended(db, m, k, gen);
      }
  }

  /** A second lookup of the same key loads nothing. */
  lemma {:induction false} LookupTwice(db: Store, n: Node, k: Bytes, gen: nat, later: nat)
    requires TryGet(db, n, k, gen).Ok?
    ensures var m := TryGet(db, n, k, gen).value.1; TryGet(db, m, k, later).Ok? && !TryGet(db, m, k, later).value.2
    decreases |k|, if n.HashRef? then 1 else 0
  {
    hide Resolve;
    match n
    case Nil =>
    case Value(_) =>
    case Short(p, v, f) =>
      if p <= k { LookupTwice(db, v, k[|p|..], gen, later); }
    case Full(cs, f) =>
      LookupTwice(db, cs[k[0]], k[1..], gen, later);
    case HashRef(h) =>
      LookupTwice(db, Resolve(db, h, gen).value, k, gen, later);
  }

  /** An insertion that changes something stamps every node along the key, and makes them dirty from the top. */
  lemma {:induction false} InsertStamps(db: Store, n: Node, k: Bytes, x: Node, gen: nat)
    requires x.Value? && Insert(db, n, k, x, gen).Ok? && Insert(db, n, k, x, gen).value.0
    ensures var m := Insert(db, n, k, x, gen).value.1; Stamped(m, k, gen) && (IsLoaded(m) ==> m.flag.dirty)
    decreases |k|, if n.HashRef? then 1 else 0
  {
    hide Resolve, SplitNode, CommonPrefix;
    if k != [] {
      match n
      case Nil => assert k[|k|..] == [];
      case Value(_) =>
      case Short(p, v, _) =>
        var m := |CommonPrefix(k, p)|;
        if m == |p| {
          InsertStamps(db, v, k[m..], x, gen);
        } else {
          SplitStamps(p, v, k, x, m, gen);
        }
      case Full(cs, _) => InsertStamps(db, cs[k[0]], k[1..], x, gen);
      case HashRef(h) => InsertStamps(db, Resolve(db, h, gen).value, k, x, gen);
    }
  }

  lemma {:induction false} SplitStamps(p: Bytes, v: Node, k: Bytes, x: Node, m: nat, gen: nat)
    requires m < |p| && m < |k| && p[m] < 17 && k[m] < 17 && x.Value?
    ensures var n := SplitNode(p, v, k, x, m, gen); Stamped(n, k, gen) && n.flag.dirty
  {
    var cs := NoNodes()[p[m] := HangNode(p[m + 1..], v, gen)][k[m] := HangNode(k[m + 1..], x, gen)];
    assert k[m..][0] == k[m] && k[m..][1..] == k[m + 1..];
    assert Stamped(HangNode(k[m + 1..], x, gen), k[m + 1..], gen);
    assert Stamped(Full(cs, NewFlag(gen)), k[m..], gen);
  }

  /** So does a deletion that changes something. */
  lemma {:induction false} DeleteStamps(db: Store, n: Node, k: Bytes, gen: nat)
    requires Delete(db, n, k, gen).Ok? && Delete(db, n, k, gen).value.0
    ensures var m := Delete(db, n, k, gen).value.1; Stamped(m, k, gen) && (IsLoaded(m) ==> m.flag.dirty)
    decreases |k|, if n.HashRef? then 1 else 0
  {
    hide Resolve, CommonPrefix, ReduceNode;
    match n
    case Nil =>
    case Value(_) =>
    case Short(p, v, _) =>
      var m := |CommonPrefix(k, p)|;
      if m < |k| {
        DeleteStamps(db, v, k[m..], gen);
        JoinStamps(p, Delete(db, v, k[m..], gen).value.1, k, gen);
      }
    case Full(cs, _) =>
      DeleteStamps(db, cs[k[0]], k[1..], gen);
      ReduceStamps(db, cs[k[0] := Delete(db, cs[k[0]], k[1..], gen).value.1], k, gen);
    case HashRef(h) => DeleteStamps(db, Resolve(db, h, gen).value, k, gen);
  }

  /** A short node in front of a stamped one, merged or not. */
  lemma {:induction false} JoinStamps(p: Bytes, c: Node, k: Bytes, gen: nat)
    requires p <= k ==> Stamped(c, k[|p|..], gen)
    ensures Stamped(Short(p, c, NewFlag(gen)), k, gen)
    ensures c.Short? ==> Stamped(Short(p + c.key, c.val, NewFlag(gen)), k, gen)
  {
    if c.Short? && p + c.key <= k {
      assert p <= k && c.key <= k[|p|..] && k[|p|..][|c.key|..] == k[|p + c.key|..];
    }
  }

  lemma {:induction false} ReduceStamps(db: Store, cs: seq<Node>, k: Bytes, gen: nat)
    requires |cs| == 17 && k != [] && k[0] < 17 && Stamped(cs[k[0]], k[1..], gen) && ReduceNode(db, cs, gen).Ok?
    ensures var m := ReduceNode(db, cs, gen).value.1; Stamped(m, k, gen) && IsLoaded(m) && m.flag.dirty
  {
    hide Resolve, LoneChild;
    var pos := LoneChild(cs);
    if 0 <= pos {
      var q: Bytes := [pos];
      assert q <= k ==> pos == k[0];
      JoinStamps(q, cs[pos], k, gen);
      if pos < 16 && cs[pos].HashRef? {
        ResolveUniform(db, cs[pos].hash, gen);
        UniformStamped(Resolve(db, cs[pos].hash, gen).value, k[1..], gen);
        JoinStamps(q, Resolve(db, cs[pos].hash, gen).value, k, gen);
      }
    }
  }

  // ---------------------------------------------------------------- looking a key up and committing, again and again

  /** A lookup and a commit: the root afterwards, and whether the lookup loaded anything. */
  ghost function Round(H: Bytes -> Bytes, db: Store, n: Node, k: Bytes, gen: nat, limit: nat): (Node, bool) {
    var r := TryGet(db, n, k, gen);
    if r.Err? then (n, false)
    else (Hash(H, if r.value.2 then r.value.1 else n, db, Mode(gen, limit, true), true).cached, r.value.2)
  }

  /** The root after `i` rounds; the generation advances with each commit, in 16 bits. */
  ghost function Rounds(H: Bytes -> Bytes, db: Store, n: Node, k: Bytes, gen: nat, limit: nat, i: nat): Node {
    if i == 0 then n else Round(H, db, Rounds(H, db, n, k, gen, limit, i - 1), k, (gen + i - 1) % 65536, limit).0
  }

  /** How long ago the last loading round was, after `i` rounds. */
  ghost function Since(i: nat, limit: nat): nat {
    i % (limit + 1)
  }

  /** The generation of the last loading round. */
  ghost function LoadGen(gen: nat, i: nat, limit: nat): nat {
    (gen + i - Since(i, limit)) % 65536
  }

  /** The root before round `i`: unloaded, or as the last loading round left it. */
  ghost predicate RootIs(db: Store, h: Bytes, k: Bytes, n: Node, j: nat, g: nat) {
    TryGet(db, HashRef(h), k, g).Ok? && n == if j == 0 then HashRef(h) else TryGet(db, HashRef(h), k, g).value.1
  }

  lemma {:induction false} RootAfter(H: Bytes -> Bytes, db: Store, h: Bytes, t: Tree, k: Bytes, gen: nat, limit: nat, i: nat)
    requires HashLen(H) && Canon(t) && Fits(H, t) && FullKey(k) && Rep(H, db, HashRef(h), t, true) && 0 < limit < 65536
    ensures RootIs(db, h, k, Rounds(H, db, HashRef(h), k, gen, limit, i), Since(i, limit), LoadGen(gen, i, limit))
  {
    hide Rep, Canon, Fits, FullKey, TryGet, Hash, Get, HashLen, Since, LoadGen, Round;
    TryGetRep(H, db, HashRef(h), t, k, LoadGen(gen, i, limit), true);
    if i == 0 {
      assert Since(0, limit) == 0 by { SinceZero(limit); }
    } else {
      RootAfter(H, db, h, t, k, gen, limit, i - 1);
      SinceNext(i - 1, limit);
      LoadGenNext(gen, i - 1, limit);
      RootStep(H, db, h, k, Rounds(H, db, HashRef(h), k, gen, limit, i - 1), Since(i - 1, limit), LoadGen(gen, i - 1, limit),
               (gen + i - 1) % 65536, limit);
    }
  }

  lemma {:induction false} SinceZero(limit: nat)
    ensures Since(0, limit) == 0
  {
  }

  lemma {:induction false} LoadGenNext(gen: nat, i: nat, limit: nat)
    requires 0 < limit < 65536
    ensures Since(i, limit) < limit ==> LoadGen(gen, i + 1, limit) == LoadGen(gen, i, limit)
    ensures ((gen + i) % 65536 - LoadGen(gen, i, limit)) % 65536 == Since(i, limit)
    ensures Since(i, limit) == 0 ==> LoadGen(gen, i, limit) == (gen + i) % 65536
  {
    SinceNext(i, limit);
    hide Since;
    AgeSince(gen, i, Since(i, limit));
  }

  lemma {:induction false} RootStep(H: Bytes -> Bytes, db: Store, h: Bytes, k: Bytes, n: Node, j: nat, g: nat, now: nat, limit: nat)
    requires RootIs(db, h, k, n, j, g) && j <= limit && limit > 0 && (now - g) % 65536 == j && (j == 0 ==> g == now)
    ensures var m := Round(H, db, n, k, now, limit);
            && (m.1 <==> j == 0)
            && m.0 == if j == limit then HashRef(h) else TryGet(db, HashRef(h), k, g).value.1
  {
    hide TryGet, Hash, Round;
    if j == 0 {
      FirstRound(H, db, h, k, g, limit);
    } else {
      LaterRound(H, db, h, k, g, now, limit);
    }
  }

  lemma {:induction false} SinceNext(i: nat, limit: nat)
    requires limit > 0
    ensures Since(i, limit) <= limit && Since(i + 1, limit) == if Since(i, limit) == limit then 0 else Since(i, limit) + 1
  {
    ModNext(i / (limit + 1), limit + 1, i % (limit + 1));
  }

  lemma {:induction false} ModNext(q: nat, m: nat, r: nat)
    requires r < m
    ensures (q * m + r + 1) % m == if r == m - 1 then 0 else r + 1
  {
    if r == m - 1 {
      assert q * m + r + 1 == (q + 1) * m + 0;
      ModIs(q + 1, m, 0);
    } else {
      ModIs(q, m, r + 1);
    }
  }

  lemma {:induction false} Multiple(d: int, m: nat)
    ensures (d >= 1 ==> d * m >= m) && (d <= -1 ==> d * m <= 0 - m)
  {
    assert d >= 1 ==> (d - 1) * m >= 0;
    assert d <= -1 ==> (d + 1) * m <= 0;
  }

  lemma {:induction false} ModIs(q: nat, m: nat, r: nat)
    requires r < m
    ensures (q * m + r) % m == r
  {
    var x := q * m + r;
    var d := x / m - q;
    Multiple(d, m);
    assert x == (x / m) * m + x % m;
    assert d * m == r - x % m;
  }

  lemma {:induction false} AgeSince(gen: nat, i: nat, j: nat)
    requires j < 65536
    ensures ((gen + i) % 65536 - (gen + i - j) % 65536) % 65536 == j
  {
  }

  /** Loading: the root gets its hash and the current stamp, and the commit keeps it. */
  lemma {:induction false} FirstRound(H: Bytes -> Bytes, db: Store, h: Bytes, k: Bytes, g: nat, limit: nat)
    requires TryGet(db, HashRef(h), k, g).Ok? && limit > 0
    ensures Round(H, db, HashRef(h), k, g, limit) == (TryGet(db, HashRef(h), k, g).value.1, true)
  {
    hide TryGet, Hash;
    var m := TryGet(db, HashRef(h), k, g).value.1;
    LoadedRoot(db, h, k, g);
    Committed(H, m, db, g, limit, true);
  }

  /** Afterwards: nothing is loaded, and the commit drops the root exactly if it has reached the limit. */
  lemma {:induction false} LaterRound(H: Bytes -> Bytes, db: Store, h: Bytes, k: Bytes, g: nat, later: nat, limit: nat)
    requires TryGet(db, HashRef(h), k, g).Ok?
    ensures var m := TryGet(db, HashRef(h), k, g).value.1;
            Round(H, db, m, k, later, limit) == (if (later - g) % 65536 >= limit then HashRef(h) else m, false)
  {
    hide TryGet, Hash;
    var m := TryGet(db, HashRef(h), k, g).value.1;
    LoadedRoot(db, h, k, g);
    LookupTwice(db, HashRef(h), k, g, later);
    Committed(H, m, db, later, limit, true);
  }

  lemma {:induction false} LoadedRoot(db: Store, h: Bytes, k: Bytes, g: nat)
    requires TryGet(db, HashRef(h), k, g).Ok?
    ensures var r := TryGet(db, HashRef(h), k, g).value; r.2 && IsLoaded(r.1) && r.1.flag == Flag(Some(h), g, false)
  {
    TryGetTended(db, HashRef(h), k, g);
    var m := Resolve(db, h, g).value;
    ResolveUniform(db, h, g);
    UniformTended(m, g);
    TryGetTended(db, m, k, g);
    ResolveHash(db, h, g);
    hide TryGet, Resolve;
  }

  lemma {:induction false} ResolveHash(db: Store, h: Bytes, g: nat)
    requires Resolve(db, h, g).Ok?
    ensures Resolve(db, h, g).value.flag == Flag(Some(h), g, false)
  {
    hide SplitList, Count, DecodeRef, DecodeRefs;
  }

  /** Looking one key up before every commit loads its path in the first round and then in every round of number
      `limit + 1`, and in no other: with a limit of 5, twice in twelve rounds. */
  lemma {:induction false} LoadsEvery(H: Bytes -> Bytes, db: Store, h: Bytes, t: Tree, k: Bytes, gen: nat, limit: nat, i: nat)
    requires HashLen(H) && Canon(t) && Fits(H, t) && FullKey(k) && Rep(H, db, HashRef(h), t, true) && 0 < limit < 65536
    ensures Round(H, db, Rounds(H, db, HashRef(h), k, gen, limit, i), k, (gen + i) % 65536, limit).1 <==> i % (limit + 1) == 0
  {
    hide Rep, Canon, Fits, FullKey, TryGet, Hash, HashLen, Round, Rounds, LoadGen;
    RootAfter(H, db, h, t, k, gen, limit, i);
    SinceNext(i, limit);
    LoadGenNext(gen, i, limit);
    RootStep(H, db, h, k, Rounds(H, db, HashRef(h), k, gen, limit, i), Since(i, limit), LoadGen(gen, i, limit), (gen + i) % 65536, limit);
  }
}
