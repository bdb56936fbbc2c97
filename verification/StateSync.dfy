/**
 * The download scheduler that rebuilds a state trie node by node (trie/sync.go), with the leaf
 * callback of the state (core/state/sync.go).
 *
 * A hash stands for fixed contents; the data handed in for a hash is what the hash stands for.
 */
module StateSync {
  import opened Common
  import opened HashSeqs

  datatype Leaf = BadLeaf | Account(root: Hash, code: Hash)

  /** Decoded data: a node has direct hash children, at most one value, and a depth step; anything else is a blob. */
  datatype Content = Blob(bytes: Bytes) | Node(kids: seq<Hash>, leaf: Option<Leaf>, step: nat)

  /** How a hash is asked for: as code, as a storage trie node, or as a state trie node with the leaf callback. */
  datatype Kind = Raw | Plain | Watched

  /** A request as the source makes it: a hash and the way to read it. */
  datatype Demand = Demand(hash: Hash, kind: Kind)

  /** What the hashes stand for, the two hashes of nothing, and the state root to fetch. */
  datatype World = World(content: Hash -> Content, emptyRoot: Hash, emptyState: Hash, root: Hash)

  /** For each hash the way it was stored in, or the first way it was asked for. */
  type Ways = map<Hash, Kind>

  datatype Request = Request(kind: Kind, depth: nat, data: Option<Content>, deps: int, parents: seq<Hash>)

  type Requests = map<Hash, Request>

  /** What a leaf adds: its storage trie and its code, unless empty. */
  ghost function Added(w: World, l: Leaf): seq<Hash> {
    if l.BadLeaf? then [] else
      (if l.root == w.emptyRoot then [] else [l.root]) + (if l.code == w.emptyState then [] else [l.code])
  }

  /** What the leaf callback adds on a node. */
  ghost function Extra(w: World, h: Hash, kind: Kind): seq<Hash> {
    var c := w.content(h);
    if kind.Watched? && c.Node? && c.leaf.Some? then Added(w, c.leaf.value) else []
  }

  /** All that has to be present below a hash, read in one way, before it may be stored. */
  ghost function Deps(w: World, h: Hash, kind: Kind): seq<Hash> {
    if kind.Raw? || w.content(h).Blob? then [] else w.content(h).kids + Extra(w, h, kind)
  }

  /** What a stored hash needs, read the way it was stored in. */
  ghost function WayDeps(w: World, ways: Ways, h: Hash): seq<Hash> {
    if h in ways then Deps(w, h, ways[h]) else []
  }

  /** Processing `p` asks for `d`: children are read like their parent, storage tries plainly, code raw. */
  ghost predicate Asks(w: World, p: Demand, d: Demand) {
    var c := w.content(p.hash);
    && !p.kind.Raw? && c.Node?
    && (|| (d.hash in c.kids && d.kind == p.kind)
        || (p.kind.Watched? && c.leaf.Some? && c.leaf.value.Account? && AskedByLeaf(w, c.leaf.value, d)))
  }

  ghost predicate AskedByLeaf(w: World, l: Leaf, d: Demand)
    requires l.Account?
  {
    || (d == Demand(l.root, Plain) && l.root != w.emptyRoot)
    || (d == Demand(l.code, Raw) && l.code != w.emptyState)
  }

  /** A chain of requests from the root down: tries, their storage tries and their code. */
  ghost predicate DepPath(w: World, path: seq<Demand>) {
    path != [] && path[0] == Demand(w.root, Watched) && forall i :: 0 < i < |path| ==> Asks(w, path[i - 1], path[i])
  }

  /** The state under the root holds `d`. */
  ghost predicate Under(w: World, d: Demand) {
    exists path :: DepPath(w, path) && path[|path| - 1] == d
  }

  /** A chain in which every hash is read the first way it was asked for. */
  ghost predicate FirstPath(w: World, ways: Ways, path: seq<Demand>) {
    DepPath(w, path) && forall i :: 0 <= i < |path| ==> path[i].hash in ways && ways[path[i].hash] == path[i].kind
  }

  ghost predicate First(w: World, ways: Ways, d: Demand) {
    exists path :: FirstPath(w, ways, path) && path[|path| - 1] == d
  }

  /** Whatever was not there before has been asked for along a chain of first ways. */
  ghost predicate WaysOk(w: World, had: Ways, ways: Ways) {
    forall h :: h in ways ==> h in had || First(w, ways, Demand(h, ways[h]))
  }

  lemma {:induction false} AsksDeps(w: World, p: Demand, d: Demand)
    requires Asks(w, p, d)
    ensures d.hash in Deps(w, p.hash, p.kind)
  {
  }

  /** Whatever a hash needs it asks for, in some way. */
  lemma {:induction false} DepsAsked(w: World, p: Demand, x: Hash) returns (kind: Kind)
    requires x in Deps(w, p.hash, p.kind)
    ensures Asks(w, p, Demand(x, kind))
  {
    var c := w.content(p.hash);
    kind := if x in c.kids then p.kind else if x == c.leaf.value.root && x != w.emptyRoot then Plain else Raw;
  }

  lemma {:induction false} UnderNext(w: World, p: Demand, d: Demand)
    requires Under(w, p) && Asks(w, p, d)
    ensures Under(w, d)
  {
    var path :| DepPath(w, path) && path[|path| - 1] == p;
    assert DepPath(w, path + [d]);
  }

  lemma {:induction false} UnderRoot(w: World)
    ensures Under(w, Demand(w.root, Watched))
  {
    var path := [Demand(w.root, Watched)];
    assert DepPath(w, path) && path[|path| - 1] == path[0];
  }

  lemma {:induction false} FirstUnder(w: World, ways: Ways, d: Demand)
    requires First(w, ways, d)
    ensures Under(w, d)
  {
  }

  lemma {:induction false} FirstKept(w: World, ways: Ways, h: Hash, kind: Kind, d: Demand)
    requires First(w, ways, d) && h !in ways
    ensures First(w, ways[h := kind], d)
  {
    var path :| FirstPath(w, ways, path) && path[|path| - 1] == d;
    assert FirstPath(w, ways[h := kind], path);
  }

  /** The root, or what a request asked for in its first way needs, is asked for in its own first way. */
  lemma {:induction false} FirstNext(w: World, ways: Ways, p: Demand, d: Demand)
    requires First(w, ways, p) && Asks(w, p, d) && d.hash !in ways
    ensures First(w, ways[d.hash := d.kind], d)
  {
    var path :| FirstPath(w, ways, path) && path[|path| - 1] == p;
    assert FirstPath(w, ways[d.hash := d.kind], path + [d]);
  }

  lemma {:induction false} FirstRoot(w: World, ways: Ways)
    ensures First(w, ways[w.root := Watched], Demand(w.root, Watched))
  {
    var path := [Demand(w.root, Watched)];
    assert FirstPath(w, ways[w.root := Watched], path) && path[|path| - 1] == path[0];
  }

  /** A hash is asked for: by the sync itself if it is the root, else by a request in its first way. */
  ghost predicate Justified(w: World, ways: Ways, ps: seq<Hash>, d: Demand) {
    && (ps == [] ==> d == Demand(w.root, Watched))
    && forall p :: p in ps ==> p in ways && First(w, ways, Demand(p, ways[p])) && Asks(w, Demand(p, ways[p]), d)
  }

  lemma {:induction false} JustifiedUnder(w: World, ways: Ways, ps: seq<Hash>, d: Demand)
    requires Justified(w, ways, ps, d)
    ensures Under(w, d)
  {
    hide First, Under, Asks;
    if ps == [] {
      UnderRoot(w);
    } else {
      var p := ps[0];
      assert p in ps;
      FirstUnder(w, ways, Demand(p, ways[p]));
      UnderNext(w, Demand(p, ways[p]), d);
    }
  }

  lemma {:induction false} WaysNext(w: World, had: Ways, ways: Ways, ps: seq<Hash>, d: Demand)
    requires WaysOk(w, had, ways) && Justified(w, ways, ps, d) && d.hash !in ways
    ensures WaysOk(w, had, ways[d.hash := d.kind])
  {
    hide First, Asks;
    var b := ways[d.hash := d.kind];
    assert First(w, b, d) by {
      if ps == [] {
        FirstRoot(w, ways);
      } else {
        assert ps[0] in ps;
        FirstNext(w, ways, Demand(ps[0], ways[ps[0]]), d);
      }
    }
    forall h | h in b
      ensures h in had || First(w, b, Demand(h, b[h]))
    {
      if h != d.hash && h !in had {
        FirstKept(w, ways, d.hash, d.kind, Demand(h, ways[h]));
      }
    }
  }

  // ---------------------------------------------------------------- counting links

  /** All links from pending requests to the requests waiting for them. */
  ghost function AllParents(requests: Requests, keys: seq<Hash>): multiset<Hash> {
    if keys == [] then multiset{} else
      AllParents(requests, keys[..|keys| - 1]) + ParentsOf(requests, keys[|keys| - 1])
  }

  ghost function ParentsOf(requests: Requests, h: Hash): multiset<Hash> {
    if h in requests then multiset(requests[h].parents) else multiset{}
  }

  ghost predicate SameParents(a: Requests, b: Requests, keys: seq<Hash>) {
    forall h :: h in keys ==> h in a && h in b && a[h].parents == b[h].parents
  }

  lemma {:induction false} ParentsFrame(a: Requests, b: Requests, keys: seq<Hash>)
    requires SameParents(a, b, keys)
    ensures AllParents(a, keys) == AllParents(b, keys)
  {
    if keys != [] {
      ParentsFrame(a, b, keys[..|keys| - 1]);
      assert keys[|keys| - 1] in keys;
    }
  }

  lemma {:induction false} ParentsConcat(r: Requests, a: seq<Hash>, b: seq<Hash>)
    ensures AllParents(r, a + b) == AllParents(r, a) + AllParents(r, b)
  {
    hide ParentsOf;
    if b == [] {
      assert a + b == a;
    } else {
      var i := b[..|b| - 1];
      ParentsConcat(r, a, i);
      assert (a + b)[..|a + b| - 1] == a + i;
    }
  }

  lemma {:induction false} ParentsOne(r: Requests, h: Hash)
    ensures AllParents(r, [h]) == ParentsOf(r, h)
  {
  }

  lemma {:induction false} ParentsWithout(r: Requests, keys: seq<Hash>, h: Hash)
    requires h in keys
    ensures AllParents(r, keys) == AllParents(r, Without(keys, h)) + ParentsOf(r, h)
  {
    hide AllParents, ParentsOf;
    var i := IndexOf(keys, h);
    assert keys == keys[..i] + ([h] + keys[i + 1..]);
    ParentsConcat(r, keys[..i], [h] + keys[i + 1..]);
    ParentsConcat(r, [h], keys[i + 1..]);
    ParentsConcat(r, keys[..i], keys[i + 1..]);
    ParentsOne(r, h);
  }

  /** A linked request has a pending child. */
  lemma {:induction false} Linker(r: Requests, keys: seq<Hash>, p: Hash) returns (c: Hash)
    requires p in AllParents(r, keys)
    ensures c in keys && c in r && p in r[c].parents
  {
    if p in ParentsOf(r, keys[|keys| - 1]) {
      c := keys[|keys| - 1];
      assert p in multiset(r[c].parents);
    } else {
      c := Linker(r, keys[..|keys| - 1], p);
    }
  }

  lemma {:induction false} LinkCounts(r: Requests, keys: seq<Hash>, c: Hash, p: Hash)
    requires c in keys && c in r && p in r[c].parents
    ensures p in AllParents(r, keys)
  {
    ParentsWithout(r, keys, c);
    assert p in multiset(r[c].parents);
  }

  // ---------------------------------------------------------------- invariants

  /** `keys` lists the pending requests. */
  ghost predicate KeysOk(requests: Requests, keys: seq<Hash>) {
    Distinct(keys) && forall h :: h in requests <==> h in keys
  }

  /** A request counts its pending child links exactly; `debt` are links counted but not yet, or no longer, recorded. */
  ghost predicate DepsExact(requests: Requests, keys: seq<Hash>, debt: multiset<Hash>) {
    forall p :: p in requests ==> requests[p].deps == AllParents(requests, keys)[p] + debt[p]
  }

  /** The request has been processed and is waiting for what it depends on. */
  ghost predicate Processed(requests: Requests, stuck: set<Hash>, p: Hash) {
    p in requests && requests[p].data.Some? && p !in stuck
  }

  /** Links lead to processed requests. */
  ghost predicate LinksOk(requests: Requests, stuck: set<Hash>, debt: multiset<Hash>) {
    && (forall c, p :: c in requests && p in requests[c].parents ==> Processed(requests, stuck, p))
    && (forall p :: p in debt ==> Processed(requests, stuck, p))
  }

  /** A request waits only for what it needs. */
  ghost predicate LinksTrue(w: World, requests: Requests) {
    forall c, p :: c in requests && p in requests[c].parents && p in requests ==> c in Deps(w, p, requests[p].kind)
  }

  /** `d` is stored, or asked for on behalf of `p`. */
  ghost predicate Covered(requests: Requests, store: set<Hash>, p: Hash, d: Hash) {
    d in store || (d in requests && p in requests[d].parents)
  }

  /** Whatever a processed request needs is stored or asked for on its behalf (`busy` ones are just being processed). */
  ghost predicate Complete(w: World, requests: Requests, store: set<Hash>, stuck: set<Hash>, busy: set<Hash>) {
    forall p, d :: Processed(requests, stuck, p) && p !in busy && d in Deps(w, p, requests[p].kind) ==> Covered(requests, store, p, d)
  }

  /** A processed request waits for something (`ready` ones are about to be stored). */
  ghost predicate Waiting(requests: Requests, stuck: set<Hash>, ready: set<Hash>) {
    forall p :: Processed(requests, stuck, p) && p !in ready ==> requests[p].deps > 0
  }

  /**
   * A pending request is not stored and is made in the first way of its hash. There is one exception: a hash that is
   * stored, but does not decode, is asked for again as a storage trie, and then nothing it is given will do.
   */
  ghost predicate RequestsOk(w: World, ways: Ways, requests: Requests, store: set<Hash>) {
    forall h :: h in requests ==>
      && RequestOk(w, h, requests[h]) && Under(w, Demand(h, requests[h].kind))
      && (if h in store then Hopeless(w, h, requests[h].kind) else h in ways && requests[h].kind == ways[h])
  }

  ghost predicate RequestOk(w: World, h: Hash, r: Request) {
    r.data.Some? ==> r.data.value == w.content(h) && !Hopeless(w, h, r.kind)
  }

  /** Asked for as a node, but not a node. */
  ghost predicate Hopeless(w: World, h: Hash, kind: Kind) {
    !kind.Raw? && w.content(h).Blob?
  }

  /** A request whose account failed to decode keeps its data and is never stored. */
  ghost predicate StuckOk(requests: Requests, stuck: set<Hash>) {
    forall h :: h in stuck ==> h in requests && requests[h].data.Some?
  }

  ghost predicate InvOn(w: World, ways: Ways, requests: Requests, keys: seq<Hash>, store: set<Hash>, stuck: set<Hash>,
                        debt: multiset<Hash>, busy: set<Hash>, ready: set<Hash>)
  {
    && KeysOk(requests, keys) && DepsExact(requests, keys, debt) && LinksOk(requests, stuck, debt)
    && Complete(w, requests, store, stuck, busy) && Waiting(requests, stuck, ready) && StuckOk(requests, stuck)
    && Sound(w, ways, requests, store)
  }

  /** What requests ask for and whom they serve, whatever the counts. */
  ghost predicate Sound(w: World, ways: Ways, requests: Requests, store: set<Hash>) {
    RequestsOk(w, ways, requests, store) && LinksTrue(w, requests) && ways.Keys == requests.Keys + store
  }

  lemma {:induction false} SoundUpdate(w: World, ways: Ways, a: Requests, b: Requests, store: set<Hash>, h: Hash)
    requires Sound(w, ways, a, store) && h in a && h in b && b == a[h := b[h]] && b[h].kind == a[h].kind && RequestOk(w, h, b[h])
    requires forall p :: p in b[h].parents ==> p in a[h].parents || (p in a && h in Deps(w, p, a[p].kind))
    ensures Sound(w, ways, b, store)
  {
    hide Deps, Under, Hopeless, RequestOk;
  }

  lemma {:induction false} SoundKept(w: World, ways: Ways, a: Requests, store: set<Hash>, h: Hash)
    requires Sound(w, ways, a, store) && h in a
    ensures RequestOk(w, h, a[h]) && (h in store ==> a[h].data.None? && Hopeless(w, h, a[h].kind)) && (h !in store ==> h in ways && a[h].kind == ways[h])
  {
    hide Under;
  }

  lemma {:induction false} SoundNew(w: World, ways: Ways, a: Requests, store: set<Hash>, d: Demand, r: Request)
    requires Sound(w, ways, a, store) && d.hash !in a && (d.hash in store ==> Hopeless(w, d.hash, d.kind)) && Under(w, d)
    requires forall p :: p in r.parents ==> p in a && d.hash in Deps(w, p, a[p].kind)
    requires forall c :: c in a ==> d.hash !in a[c].parents
    requires r.kind == d.kind && r.data.None?
    ensures Sound(w, Noted(ways, d), a[d.hash := r], store)
  {
    hide Deps, Under, Hopeless;
  }

  lemma {:induction false} SoundStore(w: World, ways: Ways, a: Requests, store: set<Hash>, h: Hash)
    requires Sound(w, ways, a, store) && h in a
    ensures Sound(w, ways, a - {h}, store + {h})
  {
    hide Deps, Under, Hopeless, RequestOk;
  }

  // ---------------------------------------------------------------- scheduling

  /** A link to a request that is already pending. */
  lemma {:induction false} ScheduleOld(w: World, ways: Ways, requests: Requests, keys: seq<Hash>, store: set<Hash>, stuck: set<Hash>,
                                       debt: multiset<Hash>, busy: set<Hash>, ready: set<Hash>, h: Hash, ps: seq<Hash>)
    requires InvOn(w, ways, requests, keys, store, stuck, debt + multiset(ps), busy, ready) && h in requests
    requires forall p :: p in ps ==> p in requests && h in Deps(w, p, requests[p].kind)
    ensures var b := requests[h := requests[h].(parents := requests[h].parents + ps)];
            && InvOn(w, ways, b, keys, store, stuck, debt, busy, ready)
            && Grown(requests, b) && forall p :: p in ps ==> Covered(b, store, p, h)
  {
    hide Deps, AllParents, Complete, LinksOk, Sound;
    var b := requests[h := requests[h].(parents := requests[h].parents + ps)];
    assert AllParents(b, keys) == AllParents(requests, keys) + multiset(ps) by {
      AddParents(requests, keys, h, ps);
    }
    ScheduleLinks(requests, b, stuck, debt, h, ps);
    CompleteMore(w, requests, b, store, stuck, busy, ready);
    SoundKept(w, ways, requests, store, h);
    SoundUpdate(w, ways, requests, b, store, h);
  }

  lemma {:induction false} ScheduleLinks(requests: Requests, b: Requests, stuck: set<Hash>, debt: multiset<Hash>, h: Hash, ps: seq<Hash>)
    requires LinksOk(requests, stuck, debt + multiset(ps)) && h in b && b == requests[h := b[h]]
    requires forall p :: p in b[h].parents ==> p in ps || (h in requests && p in requests[h].parents)
    requires h in requests ==> b[h].data == requests[h].data
    ensures LinksOk(b, stuck, debt)
    ensures forall p :: p in debt + multiset(ps) ==> p in requests
  {
    forall p | p in ps
      ensures Processed(requests, stuck, p)
    {
      assert p in debt + multiset(ps);
    }
    forall p | p in debt
      ensures Processed(requests, stuck, p)
    {
      assert p in debt + multiset(ps);
    }
    forall c, p | c in b && p in b[c].parents
      ensures Processed(b, stuck, p)
    {
      assert (c in requests && p in requests[c].parents) || p in ps;
      assert Processed(requests, stuck, p);
    }
  }

  /** Requests keep what they have; links are added, and fresh requests. */
  ghost predicate Grown(a: Requests, b: Requests) {
    && (forall h :: h in a ==> h in b && GrownRequest(a[h], b[h]))
    && (forall h :: h in b && h !in a ==> b[h].data.None?)
  }

  ghost predicate GrownRequest(r: Request, q: Request) {
    && q.kind == r.kind && q.depth == r.depth && q.data == r.data && q.deps == r.deps
    && r.parents <= q.parents
  }

  /** As above, whatever the counts. */
  ghost predicate Extended(a: Requests, b: Requests) {
    && (forall h :: h in a ==> h in b && ExtendedRequest(a[h], b[h]))
    && (forall h :: h in b && h !in a ==> b[h].data.None?)
  }

  ghost predicate ExtendedRequest(r: Request, q: Request) {
    q.kind == r.kind && q.depth == r.depth && q.data == r.data && r.parents <= q.parents
  }

  lemma {:induction false} ExtendedCovers(a: Requests, b: Requests, store: set<Hash>, p: Hash, d: Hash)
    requires Extended(a, b) && Covered(a, store, p, d)
    ensures Covered(b, store, p, d)
  {
  }

  lemma {:induction false} ExtendedTrans(a: Requests, b: Requests, c: Requests)
    requires Extended(a, b) && Extended(b, c)
    ensures Extended(a, c)
  {
  }

  lemma {:induction false} ExtendedSelf(a: Requests)
    ensures Extended(a, a)
  {
  }

  /** Counting and then scheduling. */
  lemma {:induction false} ExtendedBy(a: Requests, p: Hash, n: int, b: Requests)
    requires p in a && Grown(a[p := a[p].(deps := n)], b)
    ensures Extended(a, b) && b[p].deps == n
  {
  }

  lemma {:induction false} GrownExtends(a: Requests, b: Requests)
    requires Grown(a, b)
    ensures Extended(a, b) && forall h :: h in a ==> h in b && b[h].deps == a[h].deps
  {
  }

  lemma {:induction false} GrownTrans(a: Requests, b: Requests, c: Requests)
    requires Grown(a, b) && Grown(b, c)
    ensures Grown(a, c)
  {
  }

  /** More links and fresh requests leave what processed requests need covered. */
  lemma {:induction false} CompleteMore(w: World, a: Requests, b: Requests, store: set<Hash>, stuck: set<Hash>,
                                        busy: set<Hash>, ready: set<Hash>)
    requires Complete(w, a, store, stuck, busy) && Waiting(a, stuck, ready)
    requires Grown(a, b)
    ensures Complete(w, b, store, stuck, busy) && Waiting(b, stuck, ready)
  {
  }

  lemma {:induction false} AddParents(requests: Requests, keys: seq<Hash>, h: Hash, ps: seq<Hash>)
    requires KeysOk(requests, keys) && h in requests
    ensures AllParents(requests[h := requests[h].(parents := requests[h].parents + ps)], keys) == AllParents(requests, keys) + multiset(ps)
  {
    hide AllParents, Without;
    var b := requests[h := requests[h].(parents := requests[h].parents + ps)];
    WithoutMembers(keys, h);
    ParentsWithout(requests, keys, h);
    ParentsWithout(b, keys, h);
    ParentsFrame(requests, b, Without(keys, h));
  }

  /** A fresh request. */
  lemma {:induction false} ScheduleNew(w: World, ways: Ways, requests: Requests, keys: seq<Hash>, store: set<Hash>, stuck: set<Hash>,
                                       debt: multiset<Hash>, busy: set<Hash>, ready: set<Hash>, d: Demand, ps: seq<Hash>, depth: nat)
    requires InvOn(w, ways, requests, keys, store, stuck, debt + multiset(ps), busy, ready)
    requires d.hash !in requests && (d.hash in store ==> Hopeless(w, d.hash, d.kind)) && Under(w, d)
    requires forall p :: p in ps ==> p in requests && d.hash in Deps(w, p, requests[p].kind)
    ensures var b := requests[d.hash := Request(d.kind, depth, None, 0, ps)];
            && InvOn(w, Noted(ways, d), b, keys + [d.hash], store, stuck, debt, busy, ready)
            && Grown(requests, b) && forall p :: p in ps ==> Covered(b, store, p, d.hash)
  {
    hide Deps, AllParents, Complete, LinksOk, Waiting, DepsExact, KeysOk, StuckOk, Sound, Under, Hopeless;
    var h := d.hash;
    var b := requests[h := Request(d.kind, depth, None, 0, ps)];
    ScheduleLinks(requests, b, stuck, debt, h, ps);
    NewDeps(requests, keys, stuck, debt, h, b, ps);
    NewKeys(requests, keys, h, b[h]);
    CompleteMore(w, requests, b, store, stuck, busy, ready);
    NewStuck(requests, stuck, h, b[h]);
    NotAParent(requests, stuck, debt + multiset(ps), h);
    SoundNew(w, ways, requests, store, d, b[h]);
  }

  /** The first way of asking for a hash is kept. */
  ghost function Noted(ways: Ways, d: Demand): Ways {
    if d.hash in ways then ways else ways[d.hash := d.kind]
  }

  lemma {:induction false} NewStuck(requests: Requests, stuck: set<Hash>, h: Hash, r: Request)
    requires StuckOk(requests, stuck) && h !in requests
    ensures StuckOk(requests[h := r], stuck)
  {
  }

  lemma {:induction false} NotAParent(requests: Requests, stuck: set<Hash>, debt: multiset<Hash>, h: Hash)
    requires LinksOk(requests, stuck, debt) && h !in requests
    ensures forall c :: c in requests ==> h !in requests[c].parents
  {
    forall c | c in requests
      ensures h !in requests[c].parents
    {
      assert h in requests[c].parents ==> Processed(requests, stuck, h);
    }
  }

  lemma {:induction false} NewKeys(requests: Requests, keys: seq<Hash>, h: Hash, r: Request)
    requires KeysOk(requests, keys) && h !in requests
    ensures KeysOk(requests[h := r], keys + [h])
  {
  }

  lemma {:induction false} NewDeps(requests: Requests, keys: seq<Hash>, stuck: set<Hash>, debt: multiset<Hash>, h: Hash, b: Requests, ps: seq<Hash>)
    requires KeysOk(requests, keys) && DepsExact(requests, keys, debt + multiset(ps)) && LinksOk(requests, stuck, debt + multiset(ps))
    requires h !in requests && h in b && b == requests[h := b[h]] && b[h].parents == ps && b[h].deps == 0
    ensures DepsExact(b, keys + [h], debt)
  {
    hide AllParents, LinksOk;
    ParentsConcat(b, keys, [h]);
    ParentsOne(b, h);
    ParentsFrame(requests, b, keys);
    NotLinked(requests, keys, stuck, debt + multiset(ps), h);
  }

  /** Nobody waits for a request that does not exist or has no data. */
  lemma {:induction false} NotLinked(requests: Requests, keys: seq<Hash>, stuck: set<Hash>, debt: multiset<Hash>, h: Hash)
    requires LinksOk(requests, stuck, debt) && !Processed(requests, stuck, h)
    ensures h !in AllParents(requests, keys) && h !in debt
  {
    hide AllParents;
    if h in AllParents(requests, keys) {
      var c := Linker(requests, keys, h);
    }
  }

  // ---------------------------------------------------------------- processing

  /** Data arrives: from now on the request has to be covered. */
  lemma {:induction false} SetData(w: World, ways: Ways, requests: Requests, keys: seq<Hash>, store: set<Hash>, stuck: set<Hash>, h: Hash)
    requires InvOn(w, ways, requests, keys, store, stuck, multiset{}, {}, {})
    requires h in requests && requests[h].data.None? && h !in stuck && !Hopeless(w, h, requests[h].kind)
    ensures var b := requests[h := requests[h].(data := Some(w.content(h)))];
            && InvOn(w, ways, b, keys, store, stuck, multiset{}, {h}, {h}) && b[h].deps == 0 && h !in AllParents(b, keys)
            && InvOn(w, ways, b, keys, store, stuck + {h}, multiset{}, {}, {})
  {
    hide Deps, AllParents, Sound, LinksOk;
    var b := requests[h := requests[h].(data := Some(w.content(h)))];
    NotLinked(requests, keys, stuck, multiset{}, h);
    ParentsFrame(requests, b, keys);
    SetDataLinks(requests, b, keys, stuck, h);
    SoundUpdate(w, ways, requests, b, store, h);
  }

  lemma {:induction false} SetDataLinks(requests: Requests, b: Requests, keys: seq<Hash>, stuck: set<Hash>, h: Hash)
    requires KeysOk(requests, keys) && LinksOk(requests, stuck, multiset{}) && h in requests && h in b
    requires b == requests[h := b[h]] && b[h].parents == requests[h].parents && b[h].data.Some? && h !in stuck
    requires h !in AllParents(requests, keys)
    ensures LinksOk(b, stuck, multiset{}) && LinksOk(b, stuck + {h}, multiset{})
  {
    hide AllParents;
    forall c, p | c in b && p in b[c].parents
      ensures Processed(b, stuck, p) && Processed(b, stuck + {h}, p)
    {
      assert Processed(requests, stuck, p);
      LinkCounts(requests, keys, c, p);
    }
  }

  /** A link is counted before it is recorded. */
  lemma {:induction false} CountLinks(w: World, ways: Ways, requests: Requests, keys: seq<Hash>, store: set<Hash>, stuck: set<Hash>,
                                      debt: multiset<Hash>, busy: set<Hash>, ready: set<Hash>, p: Hash, n: nat)
    requires InvOn(w, ways, requests, keys, store, stuck, debt, busy, ready) && Processed(requests, stuck, p)
    ensures InvOn(w, ways, requests[p := requests[p].(deps := requests[p].deps + n)], keys, store, stuck, debt + multiset{}[p := n], busy, ready)
  {
    hide Deps, AllParents, Sound;
    var b := requests[p := requests[p].(deps := requests[p].deps + n)];
    ParentsFrame(requests, b, keys);
    SoundKept(w, ways, requests, store, p);
    SoundUpdate(w, ways, requests, b, store, p);
    assert LinksOk(b, stuck, debt + multiset{}[p := n]) by {
      forall q | q in debt + multiset{}[p := n]
        ensures Processed(b, stuck, q)
      {
        assert q in debt || q == p;
      }
      assert forall q :: Processed(requests, stuck, q) ==> Processed(b, stuck, q);
    }
  }

  /** Everything a request needs is covered: it now waits, or is ready. */
  lemma {:induction false} NowCovered(w: World, ways: Ways, requests: Requests, keys: seq<Hash>, store: set<Hash>, stuck: set<Hash>,
                                      debt: multiset<Hash>, h: Hash, ready: set<Hash>)
    requires InvOn(w, ways, requests, keys, store, stuck, debt, {h}, {h})
    requires h in requests && forall d :: d in Deps(w, h, requests[h].kind) ==> Covered(requests, store, h, d)
    requires ready <= {h} && (requests[h].deps <= 0 ==> h in ready)
    ensures InvOn(w, ways, requests, keys, store, stuck, debt, {}, ready)
  {
  }

  // ---------------------------------------------------------------- storing

  /** A request nothing is pending for has all it needs in the store. */
  lemma {:induction false} ReadyIsStored(w: World, ways: Ways, requests: Requests, keys: seq<Hash>, store: set<Hash>, stuck: set<Hash>,
                                         debt: multiset<Hash>, ready: set<Hash>, h: Hash)
    requires InvOn(w, ways, requests, keys, store, stuck, debt, {}, ready) && Processed(requests, stuck, h) && requests[h].deps == 0
    ensures forall d :: d in Deps(w, h, requests[h].kind) ==> d in store
    ensures h !in AllParents(requests, keys) && h !in debt
  {
    hide Deps, AllParents;
    forall d | d in Deps(w, h, requests[h].kind)
      ensures d in store
    {
      if d !in store {
        LinkCounts(requests, keys, d, h);
      }
    }
  }

  lemma {:induction false} ReadyFacts(w: World, ways: Ways, requests: Requests, keys: seq<Hash>, store: set<Hash>, stuck: set<Hash>,
                                      debt: multiset<Hash>, h: Hash)
    requires InvOn(w, ways, requests, keys, store, stuck, debt, {}, {h}) && Processed(requests, stuck, h) && requests[h].deps == 0
    ensures forall d :: d in WayDeps(w, ways, h) ==> d in store
    ensures h !in store && requests[h].data == Some(w.content(h)) && h in ways && !Hopeless(w, h, ways[h])
    ensures h in keys
  {
    ReadyIsStored(w, ways, requests, keys, store, stuck, debt, {h}, h);
    hide Deps, AllParents, Sound;
    SoundKept(w, ways, requests, store, h);
  }

  /** A request moves to the store: its links become debt. */
  lemma {:induction false} StoreRequest(w: World, ways: Ways, requests: Requests, keys: seq<Hash>, store: set<Hash>, stuck: set<Hash>,
                                        debt: multiset<Hash>, h: Hash)
    requires InvOn(w, ways, requests, keys, store, stuck, debt, {}, {h}) && Processed(requests, stuck, h) && requests[h].deps == 0
    ensures InvOn(w, ways, requests - {h}, Without(keys, h), store + {h}, stuck, debt + multiset(requests[h].parents), {}, {})
  {
    hide Deps, AllParents, Without, Sound;
    var b, k := requests - {h}, Without(keys, h);
    SoundStore(w, ways, requests, store, h);
    ReadyIsStored(w, ways, requests, keys, store, stuck, debt, {h}, h);
    WithoutMembers(keys, h);
    ParentsWithout(requests, keys, h);
    ParentsFrame(requests, b, k);
    StoreLinks(requests, keys, stuck, debt, h);
    assert Complete(w, b, store + {h}, stuck, {});
  }

  lemma {:induction false} StoreLinks(requests: Requests, keys: seq<Hash>, stuck: set<Hash>, debt: multiset<Hash>, h: Hash)
    requires KeysOk(requests, keys) && LinksOk(requests, stuck, debt) && h in requests
    requires h !in AllParents(requests, keys) && h !in debt
    ensures LinksOk(requests - {h}, stuck, debt + multiset(requests[h].parents))
  {
    hide AllParents;
    var b := requests - {h};
    forall c, p | c in requests && p in requests[c].parents
      ensures Processed(b, stuck, p)
    {
      assert Processed(requests, stuck, p);
      LinkCounts(requests, keys, c, p);
    }
    forall p | p in debt + multiset(requests[h].parents)
      ensures Processed(b, stuck, p)
    {
      assert p in debt || p in requests[h].parents;
    }
  }

  /** A stored child is counted off. */
  lemma {:induction false} CountOff(w: World, ways: Ways, requests: Requests, keys: seq<Hash>, store: set<Hash>, stuck: set<Hash>,
                                    debt: multiset<Hash>, p: Hash)
    requires InvOn(w, ways, requests, keys, store, stuck, debt + multiset{p}, {}, {})
    ensures Processed(requests, stuck, p)
    ensures var b := requests[p := requests[p].(deps := requests[p].deps - 1)];
            && InvOn(w, ways, b, keys, store, stuck, debt, {}, if b[p].deps == 0 then {p} else {})
            && Processed(b, stuck, p)
  {
    hide Deps, AllParents, Sound;
    assert p in debt + multiset{p};
    var b := requests[p := requests[p].(deps := requests[p].deps - 1)];
    ParentsFrame(requests, b, keys);
    SoundKept(w, ways, requests, store, p);
    SoundUpdate(w, ways, requests, b, store, p);
    assert LinksOk(b, stuck, debt) by {
      assert forall q :: q in debt ==> q in debt + multiset{p};
      assert forall q :: Processed(requests, stuck, q) ==> Processed(b, stuck, q);
    }
  }

  // ---------------------------------------------------------------- the store and the queue

  /** Every stored hash comes after all it needs, read the way it was stored in. */
  ghost predicate Closed(w: World, ways: Ways, db: set<Hash>, order: seq<Hash>) {
    && (forall h, d :: h in db && d in WayDeps(w, ways, h) ==> d in db)
    && (forall i, d :: 0 <= i < |order| && d in WayDeps(w, ways, order[i]) ==> d in db || d in order[..i])
  }

  ghost predicate Faithful(w: World, m: map<Hash, Content>) {
    forall h :: h in m ==> m[h] == w.content(h)
  }

  ghost predicate StoreOkOn(w: World, ways: Ways, db: map<Hash, Content>, batch: map<Hash, Content>, order: seq<Hash>) {
    && Faithful(w, db) && Faithful(w, batch) && Closed(w, ways, db.Keys, order)
    && Distinct(order) && batch.Keys == Members(order)
  }

  lemma {:induction false} StoreNext(w: World, ways: Ways, db: map<Hash, Content>, batch: map<Hash, Content>, order: seq<Hash>, h: Hash)
    requires StoreOkOn(w, ways, db, batch, order) && h !in batch
    requires forall d :: d in WayDeps(w, ways, h) ==> d in db.Keys + batch.Keys
    ensures StoreOkOn(w, ways, db, batch[h := w.content(h)], order + [h])
    ensures db.Keys + batch[h := w.content(h)].Keys == db.Keys + batch.Keys + {h}
  {
    hide WayDeps;
    var o := order + [h];
    forall i, d | 0 <= i < |o| && d in WayDeps(w, ways, o[i])
      ensures d in db || d in o[..i]
    {
      if i < |order| {
        assert o[..i] == order[..i];
      } else {
        assert o[..i] == order;
      }
    }
  }

  /** A way noted for a hash that is not stored leaves the store closed. */
  lemma {:induction false} StoreNoted(w: World, ways: Ways, db: map<Hash, Content>, batch: map<Hash, Content>, order: seq<Hash>, d: Demand)
    requires StoreOkOn(w, ways, db, batch, order) && db.Keys + batch.Keys <= ways.Keys
    ensures StoreOkOn(w, Noted(ways, d), db, batch, order)
  {
    hide Deps, Faithful, Distinct;
    assert forall i :: 0 <= i < |order| ==> order[i] in Members(order);
    assert forall h :: h in ways ==> WayDeps(w, Noted(ways, d), h) == WayDeps(w, ways, h);
  }

  datatype QueueItem = QueueItem(hash: Hash, prio: nat)

  ghost function Names(queue: seq<QueueItem>): seq<Hash> {
    seq(|queue|, i requires 0 <= i < |queue| => queue[i].hash)
  }

  /** Hashes occur once, except those that are asked for again though stored. */
  ghost predicate Once(s: seq<Hash>, requests: Requests, store: set<Hash>) {
    forall i, j :: 0 <= i < j < |s| && s[i] == s[j] ==> s[i] in requests && s[i] in store
  }

  /** Every hash ever scheduled sits in the queue or has been handed out; it is pending or stored. */
  ghost predicate AskedOk(requests: Requests, store: set<Hash>, given: seq<Hash>, queue: seq<QueueItem>) {
    && Once(given + Names(queue), requests, store)
    && (forall h :: h in given + Names(queue) ==> h in requests || h in store)
    && (forall h :: h in requests ==> h in given + Names(queue))
  }

  lemma {:induction false} AskedNext(a: Requests, b: Requests, store: set<Hash>, given: seq<Hash>, queue: seq<QueueItem>, q: QueueItem)
    requires AskedOk(a, store, given, queue) && q.hash !in a && b.Keys == a.Keys + {q.hash}
    ensures AskedOk(b, store, given, queue + [q])
  {
    assert given + Names(queue + [q]) == (given + Names(queue)) + [q.hash];
  }

  lemma {:induction false} AskedSame(a: Requests, b: Requests, s: set<Hash>, t: set<Hash>, given: seq<Hash>, queue: seq<QueueItem>)
    requires AskedOk(a, s, given, queue) && b.Keys <= a.Keys && s <= t && a.Keys <= b.Keys + t && a.Keys * s <= b.Keys
    ensures AskedOk(b, t, given, queue)
  {
  }

  /** Nothing changes but the count. */
  ghost predicate SameButDeps(r: Request, q: Request) {
    q.kind == r.kind && q.depth == r.depth && q.data == r.data && q.parents == r.parents
  }

  /** Requests have only left towards the store; the others keep all but their count. */
  ghost predicate Settled(a: Requests, ao: seq<Hash>, b: Requests, bo: seq<Hash>) {
    && ao <= bo && b.Keys <= a.Keys
    && (forall x :: x in a ==> x in b || x in bo[|ao|..])
    && (forall i :: |ao| <= i < |bo| ==> bo[i] in a && a[bo[i]].data.Some?)
    && (forall x :: x in b ==> SameButDeps(a[x], b[x]))
  }

  lemma {:induction false} SettledSelf(a: Requests, o: seq<Hash>)
    ensures Settled(a, o, a, o)
  {
  }

  lemma {:induction false} SettledTrans(a: Requests, ao: seq<Hash>, b: Requests, bo: seq<Hash>, c: Requests, co: seq<Hash>)
    requires Settled(a, ao, b, bo) && Settled(b, bo, c, co)
    ensures Settled(a, ao, c, co)
  {
  }

  lemma {:induction false} SettledDeps(a: Requests, ao: seq<Hash>, b: Requests, bo: seq<Hash>, p: Hash, n: int)
    requires Settled(a, ao, b, bo) && p in b
    ensures Settled(a, ao, b[p := b[p].(deps := n)], bo)
  {
  }

  lemma {:induction false} SettledKeys(a: Requests, ao: seq<Hash>, b: Requests, bo: seq<Hash>)
    requires Settled(a, ao, b, bo)
    ensures b.Keys <= a.Keys && ao <= bo
  {
  }

  lemma {:induction false} SettledOne(a: Requests, o: seq<Hash>, h: Hash)
    requires h in a && a[h].data.Some?
    ensures Settled(a, o, a - {h}, o + [h])
  {
  }

  datatype SyncError = NotRequested | AlreadyProcessed | BadNode | BadAccount

  lemma {:induction false} GrownSelf(a: Requests)
    ensures Grown(a, a)
  {
  }

  lemma {:induction false} StillCovered(a: Requests, b: Requests, store: set<Hash>, h: Hash, ks: seq<Hash>)
    requires Grown(a, b) && forall k :: k in ks ==> Covered(a, store, h, k)
    ensures forall k :: k in ks ==> Covered(b, store, h, k)
  {
  }

  lemma {:induction false} StillProcessed(a: Requests, b: Requests, stuck: set<Hash>, h: Hash)
    requires Extended(a, b) && Processed(a, stuck, h)
    ensures Processed(b, stuck, h)
  {
  }

  /** The callback will fail on this node. */
  ghost predicate BadAccountAt(w: World, d: Demand) {
    d.kind.Watched? && w.content(d.hash).Node? && w.content(d.hash).leaf == Some(BadLeaf)
  }

  // ---------------------------------------------------------------- what one delivered item does

  /** A request made while `p` is processed: by the callback at depth 64, or for a child. */
  ghost predicate FreshRequest(w: World, p: Demand, depth: nat, x: Hash, r: Request) {
    && r.data.None? && Asks(w, p, Demand(x, r.kind))
    && w.content(p.hash).Node? && r.depth == if r.kind == p.kind then depth + w.content(p.hash).step else 64
  }

  ghost predicate FreshBy(w: World, p: Demand, depth: nat, a: Requests, b: Requests) {
    forall x :: x in b && x !in a ==> FreshRequest(w, p, depth, x, b[x])
  }

  /** The queue grew by exactly the new requests, each with its depth. */
  ghost predicate Queued(a: Requests, aq: seq<QueueItem>, b: Requests, bq: seq<QueueItem>) {
    aq <= bq && forall q :: q in bq[|aq|..] <==> q.hash in b && q.hash !in a && q.prio == b[q.hash].depth
  }

  /** At most `d` is new. */
  ghost predicate OneMore(a: Requests, aq: seq<QueueItem>, b: Requests, bq: seq<QueueItem>, d: Demand, depth: nat) {
    && a.Keys <= b.Keys <= a.Keys + {d.hash}
    && if d.hash in b && d.hash !in a
       then b[d.hash].kind == d.kind && b[d.hash].depth == depth && b[d.hash].data.None? && bq == aq + [QueueItem(d.hash, depth)]
       else bq == aq
  }

  ghost predicate MadeFor(w: World, p: Demand, depth: nat, a: Requests, aq: seq<QueueItem>, b: Requests, bq: seq<QueueItem>) {
    FreshBy(w, p, depth, a, b) && Queued(a, aq, b, bq)
  }

  lemma {:induction false} OneMade(w: World, p: Demand, depth: nat, a: Requests, aq: seq<QueueItem>, b: Requests, bq: seq<QueueItem>, d: Demand)
    requires Asks(w, p, d) && OneMore(a, aq, b, bq, d, if d.kind == p.kind then depth + Step(w, p) else 64)
    ensures MadeFor(w, p, depth, a, aq, b, bq)
  {
    hide AskedByLeaf;
    if d.hash in b && d.hash !in a {
      assert bq[|aq|..] == [QueueItem(d.hash, b[d.hash].depth)];
    } else {
      assert bq[|aq|..] == [];
    }
  }

  ghost function Step(w: World, p: Demand): nat {
    if w.content(p.hash).Node? then w.content(p.hash).step else 0
  }

  lemma {:induction false} NoneMade(w: World, p: Demand, depth: nat, a: Requests, q: seq<QueueItem>, b: Requests)
    requires b.Keys <= a.Keys
    ensures MadeFor(w, p, depth, a, q, b, q)
  {
    assert q[|q|..] == [];
  }

  lemma {:induction false} MadeTrans(w: World, p: Demand, depth: nat, a: Requests, aq: seq<QueueItem>, m: Requests, mq: seq<QueueItem>,
                                     b: Requests, bq: seq<QueueItem>)
    requires MadeFor(w, p, depth, a, aq, m, mq) && MadeFor(w, p, depth, m, mq, b, bq) && Extended(a, m) && Extended(m, b)
    ensures MadeFor(w, p, depth, a, aq, b, bq)
  {
    hide Asks;
    assert bq[|aq|..] == mq[|aq|..] + bq[|mq|..];
  }

  /** What was there keeps its way, depth and parents; only a delivered hash gets data. */
  ghost predicate KeptRequest(r: Request, q: Request, delivered: bool) {
    q.kind == r.kind && q.depth == r.depth && r.parents <= q.parents && (delivered || q.data == r.data)
  }

  /** Delivering `h` settles it: it is stored, or waits with its data. No request is lost, and only delivered ones are stored. */
  ghost predicate Progress(w: World, a: Requests, ao: seq<Hash>, b: Requests, bo: seq<Hash>, h: Hash, committed: bool) {
    && ao <= bo
    && (if committed then h in bo[|ao|..] && b.Keys <= a.Keys else bo == ao && h in b && b[h].data == Some(w.content(h)))
    && (forall x :: x in a ==> x in b || x in bo[|ao|..])
    && (forall i :: |ao| <= i < |bo| ==> bo[i] in a && (bo[i] == h || a[bo[i]].data.Some?))
    && (forall x :: x in b && x in a ==> KeptRequest(a[x], b[x], x == h))
  }

  lemma {:induction false} ProgressData(w: World, a: Requests, o: seq<Hash>, h: Hash)
    requires h in a
    ensures Progress(w, a, o, a[h := a[h].(data := Some(w.content(h)))], o, h, false)
  {
  }

  lemma {:induction false} ProgressCommit(w: World, a: Requests, ao: seq<Hash>, m: Requests, b: Requests, bo: seq<Hash>, h: Hash)
    requires h in a && m.Keys == a.Keys && (forall x :: x in a ==> KeptRequest(a[x], m[x], x == h))
    requires Settled(m, ao, b, bo) && ao + [h] <= bo
    ensures Progress(w, a, ao, b, bo, h, true)
  {
    assert bo[|ao|] == h && h in bo[|ao|..];
  }

  lemma {:induction false} ProgressWait(w: World, a: Requests, o: seq<Hash>, m: Requests, b: Requests, h: Hash)
    requires h in a && m == a[h := a[h].(data := Some(w.content(h)))] && Extended(m, b)
    ensures Progress(w, a, o, b, o, h, false)
  {
  }

  lemma {:induction false} RequestFacts(w: World, ways: Ways, requests: Requests, keys: seq<Hash>, store: set<Hash>, stuck: set<Hash>, h: Hash)
    requires InvOn(w, ways, requests, keys, store, stuck, multiset{}, {}, {}) && h in requests
    ensures requests[h].data.None? ==> h !in stuck
  {
  }

  /** A processed request is made in its first way, and what it asks for is justified. */
  lemma {:induction false} Justify(w: World, had: Ways, ways: Ways, requests: Requests, store: set<Hash>, stuck: set<Hash>, ps: seq<Hash>, d: Demand)
    requires Sound(w, ways, requests, store) && WaysOk(w, had, ways) && had.Keys <= store
    requires ps == [] ==> d == Demand(w.root, Watched)
    requires forall p :: p in ps ==> Processed(requests, stuck, p) && Asks(w, Demand(p, requests[p].kind), d)
    ensures Justified(w, ways, ps, d)
    ensures forall p :: p in ps ==> p in requests && d.hash in Deps(w, p, requests[p].kind)
  {
    hide Sound, Asks, First, Deps, RequestOk;
    forall p | p in ps
      ensures p in ways && ways[p] == requests[p].kind && p !in had && d.hash in Deps(w, p, requests[p].kind)
    {
      SoundKept(w, ways, requests, store, p);
      AsksDeps(w, Demand(p, requests[p].kind), d);
    }
  }

  lemma {:induction false} StoredCovered(requests: Requests, store: set<Hash>, h: Hash)
    ensures forall d :: d in store ==> Covered(requests, store, h, d)
  {
  }

  lemma {:induction false} DepsParts(w: World, h: Hash, kind: Kind, data: Content)
    requires data == w.content(h) && data.Node? && !kind.Raw?
    ensures forall d :: d in Deps(w, h, kind) <==> d in data.kids || d in Extra(w, h, kind)
    ensures forall k :: k in data.kids ==> Asks(w, Demand(h, kind), Demand(k, kind))
  {
  }

  lemma {:induction false} StillProcessedDeps(a: Requests, stuck: set<Hash>, h: Hash, n: int)
    requires Processed(a, stuck, h)
    ensures Processed(a[h := a[h].(deps := n)], stuck, h)
  {
  }

  lemma {:induction false} ExtraStillCovered(a: Requests, b: Requests, store: set<Hash>, w: World, h: Hash, kind: Kind)
    requires Extended(a, b) && forall d :: d in Extra(w, h, kind) ==> Covered(a, store, h, d)
    ensures forall d :: d in Extra(w, h, kind) ==> Covered(b, store, h, d)
  {
  }

  lemma {:induction false} ExtendedKeys(a: Requests, b: Requests, h: Hash)
    requires Extended(a, b) && h in a
    ensures a.Keys <= b.Keys && h in b && b[h].kind == a[h].kind && b[h].data == a[h].data && b[h].depth == a[h].depth
  {
  }

  /** A storage trie is taken as known if it is buffered, or stored and decodes. */
  ghost predicate TrieKnown(w: World, db: set<Hash>, batch: set<Hash>, root: Hash) {
    root == w.emptyRoot || root in batch || (root in db && w.content(root).Node?)
  }

  ghost predicate CodeKnown(w: World, db: set<Hash>, batch: set<Hash>, code: Hash) {
    code == w.emptyState || code in batch || code in db
  }

  ghost predicate LeafKnown(w: World, d: Demand, db: set<Hash>, batch: set<Hash>) {
    var c := w.content(d.hash);
    d.kind.Watched? && c.Node? && c.leaf.Some? && c.leaf.value.Account? ==>
      TrieKnown(w, db, batch, c.leaf.value.root) && CodeKnown(w, db, batch, c.leaf.value.code)
  }

  ghost predicate KidsKnown(w: World, d: Demand, store: set<Hash>) {
    !d.kind.Raw? && w.content(d.hash).Node? ==> forall k :: k in w.content(d.hash).kids ==> k in store
  }

  /** A storage trie that is not known is asked for. */
  ghost predicate TrieAsked(w: World, d: Demand, db: set<Hash>, batch: set<Hash>, requests: Requests) {
    var c := w.content(d.hash);
    d.kind.Watched? && c.Node? && c.leaf.Some? && c.leaf.value.Account? && !TrieKnown(w, db, batch, c.leaf.value.root) ==>
      c.leaf.value.root in requests
  }

  /** Nothing has to be asked for when `d` is processed. */
  ghost predicate AllKnown(w: World, d: Demand, db: set<Hash>, batch: set<Hash>) {
    KidsKnown(w, d, db + batch) && LeafKnown(w, d, db, batch)
  }

  lemma {:induction false} LeafCovered(w: World, d: Demand, db: set<Hash>, batch: set<Hash>, x: Hash)
    requires LeafKnown(w, d, db, batch) && x in Extra(w, d.hash, d.kind)
    ensures x in db + batch
  {
  }

  datatype SyncResult = SyncResult(hash: Hash, data: Content)

  /** What `Process` answers for one item. */
  ghost function Verdict(w: World, requests: Requests, h: Hash): Option<SyncError> {
    if h !in requests then Some(NotRequested)
    else if requests[h].data.Some? then Some(AlreadyProcessed)
    else if requests[h].kind.Raw? then None
    else if w.content(h).Blob? then Some(BadNode)
    else if BadAccountAt(w, Demand(h, requests[h].kind)) then Some(BadAccount)
    else None
  }

  lemma {:induction false} RawDeps(w: World, h: Hash)
    ensures Deps(w, h, Raw) == []
  {
  }

  lemma {:induction false} RootKept(w: World, a: Requests, ao: seq<Hash>, b: Requests, bo: seq<Hash>, h: Hash, committed: bool, root: Hash)
    requires Progress(w, a, ao, b, bo, h, committed)
    ensures root in a ==> root in b || root in bo
    ensures root in ao ==> root in bo
    ensures if committed then h in bo else h in b && b[h].data.Some?
  {
  }

  lemma {:induction false} StoreFacts(w: World, ways: Ways, db: map<Hash, Content>, batch: map<Hash, Content>, order: seq<Hash>)
    requires StoreOkOn(w, ways, db, batch, order)
    ensures batch.Keys == Members(order) && forall h :: h in batch <==> h in order
  {
  }

  // ---------------------------------------------------------------- completeness

  /** The store holds what `d` needs beyond what its hash was stored for. */
  ghost predicate GapStored(w: World, ways: Ways, store: set<Hash>, d: Demand) {
    forall x :: x in Deps(w, d.hash, d.kind) && x !in WayDeps(w, ways, d.hash) ==> x in store
  }

  /** No hash under the root needs more in one way than in another way it is asked for or was stored in. */
  ghost predicate Agree(w: World, had: Ways) {
    forall d: Demand, k :: Under(w, d) && (Under(w, Demand(d.hash, k)) || (d.hash in had && had[d.hash] == k)) ==>
      forall x :: x in Deps(w, d.hash, d.kind) ==> x in Deps(w, d.hash, k)
  }

  lemma {:induction false} StoreClosed(w: World, ways: Ways, db: map<Hash, Content>, batch: map<Hash, Content>, order: seq<Hash>, h: Hash, x: Hash)
    requires StoreOkOn(w, ways, db, batch, order) && h in db.Keys + batch.Keys && x in WayDeps(w, ways, h)
    ensures x in db.Keys + batch.Keys
  {
    hide WayDeps, Faithful, Distinct;
    if h !in db {
      var i := IndexOf(order, h);
      assert x in db || x in order[..i];
    }
  }

  /** Along any chain from a stored root everything is stored, if every gap on the way is. */
  lemma {:induction false} StoredBelow(w: World, ways: Ways, db: map<Hash, Content>, batch: map<Hash, Content>, order: seq<Hash>, path: seq<Demand>)
    requires StoreOkOn(w, ways, db, batch, order) && DepPath(w, path) && w.root in db.Keys + batch.Keys
    requires forall d: Demand :: Under(w, d) && d.hash in db.Keys + batch.Keys ==> GapStored(w, ways, db.Keys + batch.Keys, d)
    ensures path[|path| - 1].hash in db.Keys + batch.Keys
  {
    hide StoreOkOn, Asks, WayDeps;
    if |path| > 1 {
      var init := path[..|path| - 1];
      assert DepPath(w, init);
      StoredBelow(w, ways, db, batch, order, init);
      var p, d := path[|path| - 2], path[|path| - 1];
      assert Asks(w, p, d) && init[|init| - 1] == p && Under(w, p);
      AsksDeps(w, p, d);
      if d.hash in WayDeps(w, ways, p.hash) {
        StoreClosed(w, ways, db, batch, order, p.hash, d.hash);
      }
    }
  }

  /** With nothing pending, the whole state is stored if and only if no dropped way of asking left a gap. */
  lemma {:induction false} CompleteIff(w: World, ways: Ways, db: map<Hash, Content>, batch: map<Hash, Content>, order: seq<Hash>)
    requires StoreOkOn(w, ways, db, batch, order) && w.root in db.Keys + batch.Keys
    ensures (forall d: Demand :: Under(w, d) ==> d.hash in db.Keys + batch.Keys) <==>
            (forall d: Demand :: Under(w, d) && d.hash in db.Keys + batch.Keys ==> GapStored(w, ways, db.Keys + batch.Keys, d))
  {
    hide StoreOkOn, Deps, WayDeps, Asks;
    var store := db.Keys + batch.Keys;
    if forall d: Demand :: Under(w, d) ==> d.hash in store {
      forall d, x | Under(w, d) && x in Deps(w, d.hash, d.kind)
        ensures x in store
      {
        var k := DepsAsked(w, d, x);
        UnderNext(w, d, Demand(x, k));
        assert Demand(x, k).hash in store;
      }
    }
    if forall d: Demand :: Under(w, d) && d.hash in store ==> GapStored(w, ways, store, d) {
      forall d | Under(w, d)
        ensures d.hash in store
      {
        var path :| DepPath(w, path) && path[|path| - 1] == d;
        StoredBelow(w, ways, db, batch, order, path);
      }
    }
  }

  /** Where all ways agree there is no gap. */
  lemma {:induction false} NoGap(w: World, had: Ways, ways: Ways, store: set<Hash>, d: Demand)
    requires WaysOk(w, had, ways) && Agree(w, had) && (forall h :: h in had && h in ways ==> had[h] == ways[h])
    requires Under(w, d) && d.hash in ways
    ensures GapStored(w, ways, store, d)
  {
    hide Deps, Under, First;
    if d.hash !in had {
      FirstUnder(w, ways, Demand(d.hash, ways[d.hash]));
    }
    var k := ways[d.hash];
    assert Under(w, Demand(d.hash, k)) || (d.hash in had && had[d.hash] == k);
  }

  /** Nothing is stored but the root, what was there, and what a stored hash needs in its first way. */
  lemma {:induction false} StoredFor(w: World, had: Ways, ways: Ways, x: Hash) returns (p: Hash)
    requires WaysOk(w, had, ways) && x in ways && x !in had && x != w.root
    ensures p in ways && x in WayDeps(w, ways, p)
  {
    var path: seq<Demand> :| FirstPath(w, ways, path) && path[|path| - 1] == Demand(x, ways[x]);
    var q := path[|path| - 2];
    p := q.hash;
    AsksDeps(w, q, path[|path| - 1]);
  }

  /** Contents that do not contain themselves. */
  ghost predicate Ranked(w: World, rank: Hash -> nat) {
    forall h, k, d :: d in Deps(w, h, k) ==> rank(d) < rank(h)
  }

  /** No deadlock: below every pending request one is still undelivered, or its account failed to decode. */
  lemma {:induction false} Undelivered(w: World, ways: Ways, requests: Requests, keys: seq<Hash>, store: set<Hash>, stuck: set<Hash>,
                                       rank: Hash -> nat, p: Hash) returns (c: Hash)
    requires InvOn(w, ways, requests, keys, store, stuck, multiset{}, {}, {}) && Ranked(w, rank) && p in requests
    ensures c in requests && !Processed(requests, stuck, c)
    decreases rank(p)
  {
    hide AllParents, RequestsOk;
    c := p;
    if Processed(requests, stuck, p) {
      c := Linker(requests, keys, p);
      assert c in Deps(w, p, requests[p].kind);
      c := Undelivered(w, ways, requests, keys, store, stuck, rank, c);
    }
  }

  /** Handing a queued hash out. */
  lemma {:induction false} HandOut(requests: Requests, store: set<Hash>, given: seq<Hash>, queue: seq<QueueItem>, i: nat)
    requires AskedOk(requests, store, given, queue) && i < |queue|
    ensures AskedOk(requests, store, given + [queue[i].hash], queue[..i] + queue[i + 1..])
  {
    var x, q := queue[i].hash, queue[..i] + queue[i + 1..];
    var l, r := Names(queue)[..i], Names(queue)[i + 1..];
    assert Names(queue) == l + [x] + r && Names(q) == l + r;
    var s, t := given + (l + [x] + r), given + [x] + (l + r);
    SwapOnce(requests, store, given, l, x, r);
    assert forall h :: h in s <==> h in t;
  }

  /** Handed out by falling depth, and nothing deeper is left. */
  ghost predicate Deepening(items: seq<QueueItem>, queue: seq<QueueItem>) {
    && (forall i, j :: 0 <= i < j < |items| ==> items[i].prio >= items[j].prio)
    && (forall i, q :: 0 <= i < |items| && q in queue ==> items[i].prio >= q.prio)
  }

  lemma {:induction false} DeepeningNone(queue: seq<QueueItem>)
    ensures Deepening([], queue) && Names([]) == []
  {
  }

  lemma {:induction false} DeepeningNext(items: seq<QueueItem>, queue: seq<QueueItem>, i: nat)
    requires Deepening(items, queue) && i < |queue| && forall j :: 0 <= j < |queue| ==> queue[j].prio <= queue[i].prio
    ensures Deepening(items + [queue[i]], queue[..i] + queue[i + 1..])
    ensures Names(items + [queue[i]]) == Names(items) + [queue[i].hash]
    ensures multiset(queue) == multiset(queue[..i] + queue[i + 1..]) + multiset{queue[i]}
  {
    assert queue == queue[..i] + ([queue[i]] + queue[i + 1..]);
    assert forall q :: q in queue[..i] + queue[i + 1..] ==> q in queue;
  }

  lemma {:induction false} SwapOnce(requests: Requests, store: set<Hash>, g: seq<Hash>, l: seq<Hash>, x: Hash, r: seq<Hash>)
    requires Once(g + (l + [x] + r), requests, store)
    ensures Once(g + [x] + (l + r), requests, store)
  {
    var s, t := g + (l + [x] + r), g + [x] + (l + r);
    var n, m := |g|, |g| + |l|;
    forall i, j | 0 <= i < j < |t| && t[i] == t[j]
      ensures t[i] in requests && t[i] in store
    {
      var a := if i < n then i else if i == n then m else if i <= m then i - 1 else i;
      var b := if j < n then j else if j == n then m else if j <= m then j - 1 else j;
      assert t[i] == s[a] && t[j] == s[b] && a != b;
    }
  }

  /** A hash handed out twice is stored, asked for again as a node, and not a node; it was there before, or is also code. */
  lemma {:induction false} GivenOnce(w: World, had: Ways, ways: Ways, requests: Requests, store: set<Hash>, given: seq<Hash>, queue: seq<QueueItem>)
    requires AskedOk(requests, store, given, queue) && Sound(w, ways, requests, store) && Rooted(w, had, ways, store)
    ensures forall i, j :: 0 <= i < j < |given| && given[i] == given[j] ==> Reasked(w, had, requests, store, given[i])
  {
    hide Under, WaysOk, Sound;
    forall i, j | 0 <= i < j < |given| && given[i] == given[j]
      ensures Reasked(w, had, requests, store, given[i])
    {
      var s := given + Names(queue);
      assert s[i] == s[j];
      ReaskedWhy(w, had, ways, requests, store, given[i]);
    }
  }

  lemma {:induction false} ReaskedWhy(w: World, had: Ways, ways: Ways, requests: Requests, store: set<Hash>, h: Hash)
    requires Sound(w, ways, requests, store) && Rooted(w, had, ways, store) && h in requests && h in store
    ensures Reasked(w, had, requests, store, h)
  {
    hide Under, First;
    if h !in had {
      FirstUnder(w, ways, Demand(h, ways[h]));
    }
  }

  ghost predicate Reasked(w: World, had: Ways, requests: Requests, store: set<Hash>, h: Hash) {
    && h in store && h in requests && Hopeless(w, h, requests[h].kind) && Under(w, Demand(h, requests[h].kind))
    && (h in had || Under(w, Demand(h, Raw)))
  }

  lemma {:induction false} FlushNone(order: seq<Hash>)
    ensures Members(order[..0]) == {}
  {
  }

  /** Writing the next buffered item. */
  lemma {:induction false} FlushNext(w: World, ways: Ways, db: map<Hash, Content>, batch: map<Hash, Content>, order: seq<Hash>, db0: set<Hash>, n: nat)
    requires StoreOkOn(w, ways, db, batch, order) && n < |order| && db.Keys == db0 + Members(order[..n])
    ensures order[n] in batch
    ensures StoreOkOn(w, ways, db[order[n] := batch[order[n]]], batch, order)
    ensures Members(order[..n + 1]) == Members(order[..n]) + {order[n]}
  {
    hide WayDeps, Distinct;
    assert order[..n + 1] == order[..n] + [order[n]];
    assert order[n] in Members(order);
  }

  /** Any prefix of the buffer, written out, leaves the database closed. */
  lemma {:induction false} FlushClosed(w: World, ways: Ways, db: map<Hash, Content>, batch: map<Hash, Content>, order: seq<Hash>, n: nat)
    requires StoreOkOn(w, ways, db, batch, order) && n <= |order|
    ensures Closed(w, ways, db.Keys + Members(order[..n]), [])
  {
    hide WayDeps, Faithful, Distinct;
    var s := db.Keys + Members(order[..n]);
    forall h, d | h in s && d in WayDeps(w, ways, h)
      ensures d in s
    {
      if h !in db {
        var i := IndexOf(order[..n], h);
        assert order[i] == h;
        assert d in db || d in order[..i];
      }
    }
  }

  lemma {:induction false} FlushAll(w: World, ways: Ways, db: map<Hash, Content>, batch: map<Hash, Content>, order: seq<Hash>, n: nat)
    requires StoreOkOn(w, ways, db, batch, order) && n == |order| && Members(order[..n]) <= db.Keys
    ensures StoreOkOn(w, ways, db, map[], []) && batch.Keys <= db.Keys
  {
  }

  // ---------------------------------------------------------------- exploring the state, the first way winning

  ghost function NoteKids(ways: Ways, kids: seq<Hash>, kind: Kind): Ways {
    map h | h in ways.Keys + Members(kids) :: if h in ways then ways[h] else kind
  }

  ghost function NoteTrie(w: World, ways: Ways, root: Hash): Ways {
    if root == w.emptyRoot then ways else Noted(ways, Demand(root, Plain))
  }

  ghost function NoteCode(w: World, ways: Ways, code: Hash): Ways {
    if code == w.emptyState then ways else Noted(ways, Demand(code, Raw))
  }

  ghost function NoteLeaf(w: World, ways: Ways, d: Demand): Ways {
    var c := w.content(d.hash);
    if d.kind.Watched? && c.Node? && c.leaf.Some? && c.leaf.value.Account?
    then NoteCode(w, NoteTrie(w, ways, c.leaf.value.root), c.leaf.value.code) else ways
  }

  /** Visiting a hash in its first way: its account's parts and its children are met, unless met before. */
  ghost function Visit(w: World, ways: Ways, h: Hash): Ways {
    if h !in ways || ways[h].Raw? || w.content(h).Blob? then ways
    else NoteKids(NoteLeaf(w, ways, Demand(h, ways[h])), w.content(h).kids, ways[h])
  }

  /** What is met, and in which way, if the state is visited in the order `done`. */
  ghost function Explore(w: World, had: Ways, done: seq<Hash>): Ways {
    if done == [] then if w.root == w.emptyRoot then had else Noted(had, Demand(w.root, Watched))
    else Visit(w, Explore(w, had, done[..|done| - 1]), done[|done| - 1])
  }

  /** Each hash is visited once, after it was met. */
  ghost predicate Orderly(w: World, had: Ways, done: seq<Hash>) {
    forall i :: 0 <= i < |done| ==> done[i] in Explore(w, had, done[..i]) && done[i] !in had && done[i] !in done[..i]
  }

  /** All that was met is visited or was there. */
  ghost predicate Finished(w: World, had: Ways, done: seq<Hash>) {
    forall h :: h in Explore(w, had, done) ==> h in had || h in done
  }

  /** The scheduler explores: what it has not visited is still to be delivered, or failed to decode. */
  ghost predicate DoneOk(w: World, had: Ways, ways: Ways, done: seq<Hash>, requests: Requests, stuck: set<Hash>) {
    && ways == Explore(w, had, done) && Orderly(w, had, done)
    && (forall h :: h in ways && h !in had && h !in done ==> h in requests && (requests[h].data.None? || h in stuck))
    && (forall h :: h in done && h in requests ==> requests[h].data.Some? || Hopeless(w, h, requests[h].kind))
  }

  lemma {:induction false} NoteKidsNone(ways: Ways, kids: seq<Hash>, kind: Kind)
    requires forall k :: k in kids ==> k in ways
    ensures NoteKids(ways, kids, kind) == ways
  {
  }

  lemma {:induction false} NoteKidsNext(ways: Ways, kids: seq<Hash>, kind: Kind, k: Hash)
    ensures Noted(NoteKids(ways, kids, kind), Demand(k, kind)) == NoteKids(ways, kids + [k], kind)
  {
  }

  lemma {:induction false} NoteKidsSame(ways: Ways, kids: seq<Hash>, missing: seq<Hash>, kind: Kind)
    requires forall k :: k !in ways ==> (k in kids <==> k in missing)
    ensures NoteKids(ways, kids, kind) == NoteKids(ways, missing, kind)
  {
  }

  lemma {:induction false} DoneNext(w: World, had: Ways, done: seq<Hash>, h: Hash)
    requires Orderly(w, had, done) && h in Explore(w, had, done) && h !in had && h !in done
    ensures Orderly(w, had, done + [h]) && Explore(w, had, done + [h]) == Visit(w, Explore(w, had, done), h)
  {
    hide Explore;
    var d := done + [h];
    assert d[..|done|] == done;
    assert forall i :: 0 <= i < |done| ==> d[..i] == done[..i] && d[i] == done[i];
    VisitLast(w, had, done, h);
  }

  lemma {:induction false} VisitLast(w: World, had: Ways, done: seq<Hash>, h: Hash)
    ensures Explore(w, had, done + [h]) == Visit(w, Explore(w, had, done), h)
  {
    assert (done + [h])[..|done|] == done;
  }

  lemma {:induction false} VisitGrows(w: World, ways: Ways, h: Hash)
    ensures ways.Keys <= Visit(w, ways, h).Keys
  {
  }

  lemma {:induction false} OrderlyInit(w: World, had: Ways, done: seq<Hash>)
    requires Orderly(w, had, done) && done != []
    ensures Orderly(w, had, done[..|done| - 1])
  {
    hide Explore;
    var init := done[..|done| - 1];
    assert forall i :: 0 <= i < |init| ==> init[..i] == done[..i] && init[i] == done[i];
  }

  lemma {:induction false} DoneMet(w: World, had: Ways, done: seq<Hash>, h: Hash)
    requires Orderly(w, had, done) && h in done
    ensures h in Explore(w, had, done)
  {
    hide Explore, Visit;
    var init, last := done[..|done| - 1], done[|done| - 1];
    assert done == init + [last];
    VisitLast(w, had, init, last);
    VisitGrows(w, Explore(w, had, init), last);
    if h != last {
      OrderlyInit(w, had, done);
      DoneMet(w, had, init, h);
    }
  }

  lemma {:induction false} DoneStuck(w: World, had: Ways, ways: Ways, done: seq<Hash>, a: Requests, stuck: set<Hash>, h: Hash)
    requires DoneOk(w, had, ways, done, a, stuck) && h in a
    ensures DoneOk(w, had, ways, done, a[h := a[h].(data := Some(w.content(h)))], stuck + {h})
  {
    hide Explore, Orderly, Hopeless;
  }

  /** The next state after one accepted item, for the exploration. */
  ghost predicate Advanced(w: World, v: Ways, ways: Ways, a: Snapshot, b: Snapshot, db: set<Hash>, stuck: set<Hash>, h: Hash, committed: bool) {
    && h in v && h in a.requests && ways == Visit(w, v, h)
    && a.requests[h].data.None? && !Hopeless(w, h, a.requests[h].kind)
    && Progress(w, a.requests, a.order, b.requests, b.order, h, committed)
    && FreshBy(w, Demand(h, a.requests[h].kind), a.requests[h].depth, a.requests, b.requests)
    && v.Keys == a.requests.Keys + (db + Members(a.order)) && StuckOk(b.requests, stuck)
    && Sound(w, ways, b.requests, db + Members(b.order))
  }

  lemma {:induction false} AdvancedNew(w: World, v: Ways, ways: Ways, a: Snapshot, b: Snapshot, db: set<Hash>, stuck: set<Hash>, h: Hash,
                                       committed: bool, x: Hash)
    requires Advanced(w, v, ways, a, b, db, stuck, h, committed) && x in ways && x !in v
    ensures x in b.requests && b.requests[x].data.None?
  {
    hide Visit, RequestsOk, LinksTrue, Asks, Hopeless;
    assert x in b.requests;
  }

  lemma {:induction false} AdvancedOld(w: World, v: Ways, ways: Ways, a: Snapshot, b: Snapshot, db: set<Hash>, stuck: set<Hash>, h: Hash,
                                       committed: bool, x: Hash)
    requires Advanced(w, v, ways, a, b, db, stuck, h, committed)
    requires x in a.requests && x != h && (a.requests[x].data.None? || x in stuck)
    ensures x in b.requests && (b.requests[x].data.None? || x in stuck)
  {
    hide Visit, Sound, FreshBy, Hopeless;
  }

  lemma {:induction false} AdvancedDone(w: World, v: Ways, ways: Ways, a: Snapshot, b: Snapshot, db: set<Hash>, stuck: set<Hash>, h: Hash,
                                        committed: bool, x: Hash)
    requires Advanced(w, v, ways, a, b, db, stuck, h, committed) && x in b.requests && x in v
    requires x in a.requests && x != h ==> a.requests[x].data.Some? || Hopeless(w, x, a.requests[x].kind)
    ensures b.requests[x].data.Some? || Hopeless(w, x, b.requests[x].kind)
  {
    hide Visit, Sound, FreshBy, Hopeless;
    SoundKept(w, ways, b.requests, db + Members(b.order), x);
  }

  lemma {:induction false} VisitRaw(w: World, ways: Ways, h: Hash)
    requires h in ways && ways[h].Raw?
    ensures Visit(w, ways, h) == ways
  {
  }

  lemma {:induction false} MadeFresh(w: World, p: Demand, depth: nat, a: Requests, aq: seq<QueueItem>, b: Requests, bq: seq<QueueItem>)
    requires MadeFor(w, p, depth, a, aq, b, bq)
    ensures FreshBy(w, p, depth, a, b)
  {
  }

  lemma {:induction false} DoneInit(w: World, had: Ways, ways: Ways, requests: Requests)
    requires ways == if w.root == w.emptyRoot then had else Noted(had, Demand(w.root, Watched))
    requires w.root in ways && w.root !in had ==> w.root in requests
    requires forall h :: h in requests ==> h == w.root && requests[h].data.None?
    ensures DoneOk(w, had, ways, [], requests, {})
  {
  }

  /** One item processed is one hash visited. */
  lemma {:induction false} DoneStep(w: World, had: Ways, v: Ways, ways: Ways, done: seq<Hash>, a: Snapshot, b: Snapshot, db: set<Hash>,
                                    stuck: set<Hash>, h: Hash, committed: bool)
    requires DoneOk(w, had, v, done, a.requests, stuck) && h !in had && Advanced(w, v, ways, a, b, db, stuck, h, committed)
    ensures DoneOk(w, had, ways, done + [h], b.requests, stuck)
  {
    AdvancedFacts(w, v, ways, a, b, db, stuck, h, committed);
    hide Explore, Orderly, Hopeless, Advanced;
    DoneNext(w, had, done, h);
    forall x | x in ways && x !in had && x !in done + [h]
      ensures x in b.requests && (b.requests[x].data.None? || x in stuck)
    {
      if x in v {
        AdvancedOld(w, v, ways, a, b, db, stuck, h, committed, x);
      } else {
        AdvancedNew(w, v, ways, a, b, db, stuck, h, committed, x);
      }
    }
    forall x | x in done + [h] && x in b.requests
      ensures b.requests[x].data.Some? || Hopeless(w, x, b.requests[x].kind)
    {
      if x != h {
        DoneMet(w, had, done, x);
      }
      AdvancedDone(w, v, ways, a, b, db, stuck, h, committed, x);
    }
  }

  lemma {:induction false} AdvancedFacts(w: World, v: Ways, ways: Ways, a: Snapshot, b: Snapshot, db: set<Hash>, stuck: set<Hash>, h: Hash, committed: bool)
    requires Advanced(w, v, ways, a, b, db, stuck, h, committed)
    ensures h in v && h in a.requests && ways == Visit(w, v, h) && a.requests[h].data.None? && !Hopeless(w, h, a.requests[h].kind)
  {
  }

  // ---------------------------------------------------------------- the scheduler

  /** The ways noted are kept and justified, what was fetched could be read, and no trie node hashes to zero. */
  ghost predicate Rooted(w: World, had: Ways, ways: Ways, store: set<Hash>) {
    && WaysOk(w, had, ways) && had.Keys <= store && (forall h :: h in had ==> h in ways && ways[h] == had[h])
    && w.content(ZERO).Blob? && Readable(w, had, ways, store)
  }

  ghost predicate Readable(w: World, had: Ways, ways: Ways, store: set<Hash>) {
    forall h :: h in store && h !in had ==> h in ways && !Hopeless(w, h, ways[h])
  }

  lemma {:induction false} ReadableNoted(w: World, had: Ways, ways: Ways, store: set<Hash>, d: Demand)
    requires Readable(w, had, ways, store)
    ensures Readable(w, had, Noted(ways, d), store)
  {
    hide Hopeless;
  }

  lemma {:induction false} RootedMore(w: World, had: Ways, ways: Ways, store: set<Hash>, h: Hash)
    requires Rooted(w, had, ways, store) && h in ways && !Hopeless(w, h, ways[h])
    ensures Rooted(w, had, ways, store + {h})
  {
    hide WaysOk, Hopeless;
  }

  lemma {:induction false} InitialInv(w: World, had: Ways, database: map<Hash, Content>)
    requires Faithful(w, database) && had.Keys == database.Keys && Closed(w, had, database.Keys, []) && w.content(ZERO).Blob?
    ensures InvOn(w, had, map[], [], database.Keys, {}, multiset{}, {}, {}) && StoreOkOn(w, had, database, map[], [])
    ensures AskedOk(map[], database.Keys, [], []) && Rooted(w, had, had, database.Keys)
  {
    hide Closed;
  }

  lemma {:induction false} InvSound(w: World, ways: Ways, requests: Requests, keys: seq<Hash>, store: set<Hash>, stuck: set<Hash>,
                                    debt: multiset<Hash>, busy: set<Hash>, ready: set<Hash>)
    requires InvOn(w, ways, requests, keys, store, stuck, debt, busy, ready)
    ensures Sound(w, ways, requests, store) && ways.Keys == requests.Keys + store && StuckOk(requests, stuck)
  {
  }

  lemma {:induction false} FirstWay(w: World, ways: Ways, requests: Requests, keys: seq<Hash>, store: set<Hash>, stuck: set<Hash>, h: Hash)
    requires InvOn(w, ways, requests, keys, store, stuck, multiset{}, {}, {}) && h in requests && requests[h].data.None?
    requires !Hopeless(w, h, requests[h].kind)
    ensures h !in stuck && h !in store && h in ways && ways[h] == requests[h].kind
  {
    hide Sound;
    SoundKept(w, ways, requests, store, h);
  }

  lemma {:induction false} MadeByLeaf(w: World, p: Demand, depth: nat, a: Requests, aq: seq<QueueItem>, b: Requests, bq: seq<QueueItem>,
                                      leaf: Leaf, d: Demand)
    requires p.kind.Watched? && w.content(p.hash).Node? && w.content(p.hash).leaf == Some(leaf) && leaf.Account?
    requires OneMore(a, aq, b, bq, d, 64) && (b.Keys <= a.Keys || AskedByLeaf(w, leaf, d))
    ensures MadeFor(w, p, depth, a, aq, b, bq)
  {
    hide MadeFor;
    if b.Keys <= a.Keys {
      NoneMade(w, p, depth, a, aq, b);
    } else {
      OneMade(w, p, depth, a, aq, b, bq, d);
    }
  }

  lemma {:induction false} MadeCounted(w: World, p: Demand, depth: nat, a: Requests, aq: seq<QueueItem>, m: Requests, b: Requests, bq: seq<QueueItem>)
    requires MadeFor(w, p, depth, m, aq, b, bq) && m.Keys == a.Keys
    ensures MadeFor(w, p, depth, a, aq, b, bq)
  {
    hide FreshRequest;
  }

  lemma {:induction false} NoLeaf(w: World, d: Demand, db: set<Hash>, batch: set<Hash>)
    requires !(d.kind.Watched? && w.content(d.hash).Node? && w.content(d.hash).leaf.Some?)
    ensures LeafKnown(w, d, db, batch) && Extra(w, d.hash, d.kind) == [] && (forall r :: TrieAsked(w, d, db, batch, r))
    ensures forall v :: NoteLeaf(w, v, d) == v
  {
  }

  lemma {:induction false} AskedStill(w: World, d: Demand, db: set<Hash>, batch: set<Hash>, a: Requests, b: Requests)
    requires TrieAsked(w, d, db, batch, a) && a.Keys <= b.Keys
    ensures TrieAsked(w, d, db, batch, b)
  {
  }

  lemma {:induction false} RawKnown(w: World, d: Demand, db: set<Hash>, batch: set<Hash>)
    requires d.kind.Raw?
    ensures AllKnown(w, d, db, batch)
  {
  }

  /** From the delivery through the callback to the end. */
  lemma {:induction false} FinishProgress(w: World, p: Demand, depth: nat, r: Requests, rq: seq<QueueItem>, ro: seq<Hash>, a: Requests,
                                          m: Requests, mq: seq<QueueItem>, b: Requests, bq: seq<QueueItem>, bo: seq<Hash>, committed: bool)
    requires p.hash in r && a == r[p.hash := r[p.hash].(data := Some(w.content(p.hash)))] && Extended(a, m)
    requires MadeFor(w, p, depth, a, rq, m, mq)
    requires committed ==> m.Keys == a.Keys && bq == mq && Settled(m, ro, b, bo) && ro + [p.hash] <= bo
    requires !committed ==> bo == ro && Extended(m, b) && MadeFor(w, p, depth, m, mq, b, bq)
    ensures Progress(w, r, ro, b, bo, p.hash, committed) && MadeFor(w, p, depth, r, rq, b, bq)
  {
    hide MadeFor, Progress;
    MadeCounted(w, p, depth, r, rq, a, m, mq);
    if committed {
      assert forall x :: x in r ==> KeptRequest(r[x], m[x], x == p.hash);
      ProgressCommit(w, r, ro, m, b, bo, p.hash);
      SettledKeys(m, ro, b, bo);
      MadeFewer(w, p, depth, r, rq, m, mq, b);
    } else {
      ExtendedTrans(a, m, b);
      ProgressWait(w, r, ro, a, b, p.hash);
      MadeTrans(w, p, depth, a, rq, m, mq, b, bq);
      MadeCounted(w, p, depth, r, rq, a, b, bq);
    }
  }

  lemma {:induction false} MadeFewer(w: World, p: Demand, depth: nat, a: Requests, aq: seq<QueueItem>, m: Requests, mq: seq<QueueItem>, b: Requests)
    requires MadeFor(w, p, depth, a, aq, m, mq) && m.Keys <= a.Keys && b.Keys <= a.Keys
    ensures MadeFor(w, p, depth, a, aq, b, mq)
  {
  }

  /** What an item changes for the caller; the buffer holds what `order` lists. */
  datatype Snapshot = Snapshot(requests: Requests, queue: seq<QueueItem>, order: seq<Hash>)

  /** Whatever a waiting request needs is stored, or asked for on its behalf. */
  ghost predicate NeedsMet(w: World, db: set<Hash>, s: Snapshot, h: Hash) {
    h in s.requests ==> forall d :: d in Deps(w, h, s.requests[h].kind) ==> Covered(s.requests, db + Members(s.order), h, d)
  }

  /**
   * The item `h` is handled: with an error nothing changes, except that a node with a bad account keeps its data; else it
   * is processed, stored at once exactly if nothing is left to ask for, and asks for exactly what is missing.
   */
  ghost predicate Handled(w: World, db: set<Hash>, a: Snapshot, b: Snapshot, h: Hash, committed: bool) {
    match Verdict(w, a.requests, h)
    case None =>
      var d := Demand(h, a.requests[h].kind);
      && Progress(w, a.requests, a.order, b.requests, b.order, h, committed)
      && MadeFor(w, d, a.requests[h].depth, a.requests, a.queue, b.requests, b.queue)
      && (committed <==> AllKnown(w, d, db, Members(a.order))) && NeedsMet(w, db, b, h)
      && (!committed ==> TrieAsked(w, d, db, Members(a.order), b.requests))
    case Some(BadAccount) => !committed && b == a.(requests := a.requests[h := a.requests[h].(data := Some(w.content(h)))])
    case Some(_) => !committed && b == a
  }

  /** A batch of items: `trace` holds the state before each item, and the last state. */
  ghost predicate Accepted(w: World, db: set<Hash>, trace: seq<Snapshot>, results: seq<SyncResult>, n: nat) {
    && n <= |results| && n < |trace|
    && forall i :: 0 <= i < n ==>
         && Verdict(w, trace[i].requests, results[i].hash) == None
         && Handled(w, db, trace[i], trace[i + 1], results[i].hash, trace[i].order != trace[i + 1].order)
  }

  lemma {:induction false} AcceptedNext(w: World, db: set<Hash>, trace: seq<Snapshot>, results: seq<SyncResult>, n: nat, b: Snapshot, c: bool)
    requires Accepted(w, db, trace, results, n) && |trace| == n + 1 && n < |results|
    requires Verdict(w, trace[n].requests, results[n].hash) == None && Handled(w, db, trace[n], b, results[n].hash, c)
    ensures Accepted(w, db, trace + [b], results, n + 1)
    ensures trace[n].order <= b.order && (c <==> trace[n].order != b.order)
  {
    hide MadeFor, AllKnown, NeedsMet, Verdict;
  }

  lemma {:induction false} AcceptedNone(w: World, db: set<Hash>, trace: seq<Snapshot>, results: seq<SyncResult>)
    requires trace != []
    ensures Accepted(w, db, trace, results, 0)
  {
  }

  lemma {:induction false} HandledError(w: World, db: set<Hash>, a: Snapshot, b: Snapshot, h: Hash, c: bool)
    requires Handled(w, db, a, b, h, c) && Verdict(w, a.requests, h) != None
    ensures !c && b.order == a.order
  {
  }

  /** A waiting or stored request has its needs met. */
  lemma {:induction false} NeedsOf(w: World, ways: Ways, requests: Requests, keys: seq<Hash>, store: set<Hash>, stuck: set<Hash>,
                                   db: set<Hash>, s: Snapshot, h: Hash)
    requires InvOn(w, ways, requests, keys, store, stuck, multiset{}, {}, {}) && (h in requests ==> h in store || Processed(requests, stuck, h))
    requires s.requests == requests && store == db + Members(s.order)
    ensures NeedsMet(w, db, s, h)
  {
    if h in requests && h in store {
      hide Under;
      assert Hopeless(w, h, requests[h].kind);
    }
  }

  /** No hash that is asked for as a trie, but is none, is also code under the root or was there before. */
  ghost predicate NoBlobTwice(w: World, had: Ways) {
    forall d: Demand :: Under(w, d) && Hopeless(w, d.hash, d.kind) ==> d.hash !in had && !Under(w, Demand(d.hash, Raw))
  }

  lemma {:induction false} GivenDistinct(w: World, had: Ways, requests: Requests, store: set<Hash>, given: seq<Hash>)
    requires forall i, j :: 0 <= i < j < |given| && given[i] == given[j] ==> Reasked(w, had, requests, store, given[i])
    ensures NoBlobTwice(w, had) ==> Distinct(given)
  {
    hide Under, Hopeless;
    if NoBlobTwice(w, had) {
      assert forall h :: !Reasked(w, had, requests, store, h);
    }
  }

  /** Where all ways agree, the database is closed in every way it can be read under the root. */
  lemma {:induction false} ClosedEveryWay(w: World, had: Ways, ways: Ways, db: set<Hash>, d: Demand)
    requires WaysOk(w, had, ways) && Agree(w, had) && (forall h :: h in had && h in ways ==> had[h] == ways[h])
    requires Closed(w, ways, db, []) && db <= ways.Keys && Under(w, d) && d.hash in db
    ensures forall x :: x in Deps(w, d.hash, d.kind) ==> x in db
  {
    hide Deps, Under, First, WaysOk, Agree, Closed;
    NoGap(w, had, ways, {}, d);
    forall x | x in Deps(w, d.hash, d.kind)
      ensures x in db
    {
      assert x in WayDeps(w, ways, d.hash);
      ClosedAt(w, ways, db, d.hash, x);
    }
  }

  lemma {:induction false} ClosedAt(w: World, ways: Ways, db: set<Hash>, h: Hash, x: Hash)
    requires Closed(w, ways, db, []) && h in db && x in WayDeps(w, ways, h)
    ensures x in db
  {
  }

  class Sync {
    var database: map<Hash, Content>
    var batch: map<Hash, Content>
    var order: seq<Hash>
    var requests: Requests
    var queue: seq<QueueItem>
    const emptyRoot: Hash
    const emptyState: Hash
    ghost const w: World
    ghost const had: Ways
    ghost var ways: Ways
    ghost var keys: seq<Hash>
    ghost var stuck: set<Hash>
    ghost var given: seq<Hash>
    ghost var done: seq<Hash>

    ghost function Stored(): set<Hash>
      reads this
    {
      database.Keys + batch.Keys
    }

    ghost function Now(): Snapshot
      reads this
    {
      Snapshot(requests, queue, order)
    }

    ghost predicate Inv(debt: multiset<Hash>, busy: set<Hash>, ready: set<Hash>)
      reads this
    {
      && InvOn(w, ways, requests, keys, Stored(), stuck, debt, busy, ready)
      && StoreOkOn(w, ways, database, batch, order) && AskedOk(requests, Stored(), given, queue)
      && Rooted(w, had, ways, Stored()) && w.emptyRoot == emptyRoot && w.emptyState == emptyState
    }

    /** `schedule`: push a fresh request, or link to the pending one, whatever way that one is made in. */
    method Schedule(h: Hash, kind: Kind, depth: nat, ps: seq<Hash>, ghost debt: multiset<Hash>, ghost busy: set<Hash>, ghost ready: set<Hash>)
      requires Inv(debt + multiset(ps), busy, ready) && (h in Stored() ==> Hopeless(w, h, kind))
      requires ps == [] ==> Demand(h, kind) == Demand(w.root, Watched)
      requires forall p :: p in ps ==> Processed(requests, stuck, p) && Asks(w, Demand(p, requests[p].kind), Demand(h, kind))
      modifies this`requests, this`queue, this`keys, this`ways
      ensures Inv(debt, busy, ready) && Grown(old(requests), requests) && requests.Keys == old(requests.Keys) + {h}
      ensures OneMore(old(requests), old(queue), requests, queue, Demand(h, kind), depth) && ways == Noted(old(ways), Demand(h, kind))
      ensures forall p :: p in ps ==> Covered(requests, Stored(), p, h)
    {
      hide InvOn, StoreOkOn, AskedOk, Grown, Covered, WaysOk, Readable, Under, Asks, Deps, Justified;
      ghost var d := Demand(h, kind);
      InvSound(w, ways, requests, keys, Stored(), stuck, debt + multiset(ps), busy, ready);
      Justify(w, had, ways, requests, Stored(), stuck, ps, d);
      if h in requests {
        ScheduleOld(w, ways, requests, keys, Stored(), stuck, debt, busy, ready, h, ps);
        AskedSame(requests, requests[h := requests[h].(parents := requests[h].parents + ps)], Stored(), Stored(), given, queue);
        requests := requests[h := requests[h].(parents := requests[h].parents + ps)];
        return;
      }
      JustifiedUnder(w, ways, ps, d);
      var r := Request(kind, depth, None, 0, ps);
      ScheduleNew(w, ways, requests, keys, Stored(), stuck, debt, busy, ready, d, ps, depth);
      AskedNext(requests, requests[h := r], Stored(), given, queue, QueueItem(h, depth));
      StoreNoted(w, ways, database, batch, order, d);
      ReadableNoted(w, had, ways, Stored(), d);
      if h !in ways {
        WaysNext(w, had, ways, ps, d);
      }
      queue := queue + [QueueItem(h, depth)];
      requests := requests[h := r];
      keys := keys + [h];
      ways := Noted(ways, d);
    }

    /** The end of `AddSubTrie` and `AddRawEntry`: count the parent's new dependency, then schedule. */
    method Register(h: Hash, kind: Kind, depth: nat, parent: Hash, ghost busy: set<Hash>)
      requires Inv(multiset{}, busy, busy) && (h in Stored() ==> Hopeless(w, h, kind))
      requires if parent == ZERO then Demand(h, kind) == Demand(w.root, Watched)
               else Processed(requests, stuck, parent) && Asks(w, Demand(parent, requests[parent].kind), Demand(h, kind))
      modifies this`requests, this`queue, this`keys, this`ways
      ensures Inv(multiset{}, busy, busy) && Extended(old(requests), requests) && requests.Keys == old(requests.Keys) + {h}
      ensures OneMore(old(requests), old(queue), requests, queue, Demand(h, kind), depth) && ways == Noted(old(ways), Demand(h, kind))
      ensures parent != ZERO ==> Covered(requests, Stored(), parent, h) && requests[parent].deps == old(requests)[parent].deps + 1
    {
      hide InvOn, StoreOkOn, AskedOk, Rooted, Grown, Extended, Covered, Asks;
      var ps: seq<Hash> := [];
      assert multiset{} + multiset(ps) == multiset{};
      if parent != ZERO {
        CountLinks(w, ways, requests, keys, Stored(), stuck, multiset{}, busy, busy, parent, 1);
        assert multiset{} + multiset{}[parent := 1] == multiset{} + multiset([parent]);
        AskedSame(requests, requests[parent := requests[parent].(deps := requests[parent].deps + 1)], Stored(), Stored(), given, queue);
        requests := requests[parent := requests[parent].(deps := requests[parent].deps + 1)];
        ps := [parent];
      }
      Schedule(h, kind, depth, ps, multiset{}, busy, busy);
      if parent != ZERO {
        ExtendedBy(old(requests), parent, old(requests)[parent].deps + 1, requests);
      } else {
        GrownExtends(old(requests), requests);
      }
    }

    /** `AddSubTrie`: ask for a trie unless it is empty or known. Only the leaf callback passes a parent. */
    method AddSubTrie(h: Hash, depth: nat, parent: Hash, kind: Kind, ghost busy: set<Hash>)
      requires Inv(multiset{}, busy, busy) && !kind.Raw?
      requires if parent == ZERO then Demand(h, kind) == Demand(w.root, Watched)
               else Processed(requests, stuck, parent) && (h != emptyRoot ==> Asks(w, Demand(parent, requests[parent].kind), Demand(h, kind)))
      modifies this`requests, this`queue, this`keys, this`ways
      ensures Inv(multiset{}, busy, busy) && Extended(old(requests), requests)
      ensures requests.Keys == old(requests.Keys) + if TrieKnown(w, database.Keys, batch.Keys, h) then {} else {h}
      ensures OneMore(old(requests), old(queue), requests, queue, Demand(h, kind), depth)
      ensures ways == if h == emptyRoot then old(ways) else Noted(old(ways), Demand(h, kind))
      ensures parent != ZERO ==> h == emptyRoot || Covered(requests, Stored(), parent, h)
      ensures parent != ZERO ==>
                requests[parent].deps == old(requests)[parent].deps + if TrieKnown(w, database.Keys, batch.Keys, h) then 0 else 1
    {
      hide InvOn, WaysOk, Readable, Extended, AskedOk, Closed, Asks;
      InvSound(w, ways, requests, keys, Stored(), stuck, multiset{}, busy, busy);
      if h == emptyRoot {
        ExtendedSelf(requests);
        return;
      }
      if h in batch {
        ExtendedSelf(requests);
        return;
      }
      if h in database && database[h].Node? {
        ExtendedSelf(requests);
        return;
      }
      Register(h, kind, depth, parent, busy);
    }

    /** `AddRawEntry`: ask for a code blob unless it is empty or known. */
    method AddRawEntry(h: Hash, depth: nat, parent: Hash, ghost busy: set<Hash>)
      requires Inv(multiset{}, busy, busy) && parent != ZERO && Processed(requests, stuck, parent)
      requires h != emptyState ==> Asks(w, Demand(parent, requests[parent].kind), Demand(h, Raw))
      modifies this`requests, this`queue, this`keys, this`ways
      ensures Inv(multiset{}, busy, busy) && Extended(old(requests), requests)
      ensures requests.Keys == old(requests.Keys) + if CodeKnown(w, database.Keys, batch.Keys, h) then {} else {h}
      ensures OneMore(old(requests), old(queue), requests, queue, Demand(h, Raw), depth) && ways == NoteCode(w, old(ways), h)
      ensures h == emptyState || Covered(requests, Stored(), parent, h)
      ensures requests[parent].deps == old(requests)[parent].deps + if CodeKnown(w, database.Keys, batch.Keys, h) then 0 else 1
    {
      hide InvOn, WaysOk, Readable, Extended, AskedOk, StoreOkOn, Asks;
      InvSound(w, ways, requests, keys, Stored(), stuck, multiset{}, busy, busy);
      if h == emptyState || h in batch || h in database {
        ExtendedSelf(requests);
        return;
      }
      Register(h, Raw, depth, parent, busy);
    }

    /** `commit`: store a finished request, then every parent that has nothing left to wait for. */
    method CommitRequest(h: Hash, ghost debt: multiset<Hash>)
      requires Inv(debt, {}, {h}) && Processed(requests, stuck, h) && requests[h].deps == 0
      modifies this`requests, this`keys, this`batch, this`order
      ensures Inv(debt, {}, {}) && Settled(old(requests), old(order), requests, order) && old(order) + [h] <= order
      decreases requests.Keys, 0
    {
      hide InvOn, StoreOkOn, AskedOk, WaysOk, Readable, Settled, WayDeps;
      ReadyFacts(w, ways, requests, keys, Stored(), stuck, debt, h);
      StoreNext(w, ways, database, batch, order, h);
      StoreRequest(w, ways, requests, keys, Stored(), stuck, debt, h);
      RootedMore(w, had, ways, Stored(), h);
      var req := requests[h];
      AskedSame(requests, requests - {h}, Stored(), Stored() + {h}, given, queue);
      batch := batch[h := req.data.value];
      order := order + [h];
      requests := requests - {h};
      keys := Without(keys, h);
      SettledOne(old(requests), old(order), h);
      ghost var b, bo := requests, order;
      NotifyParents(req.parents, debt);
      SettledTrans(old(requests), old(order), b, bo, requests, order);
      SettledKeys(b, bo, requests, order);
    }

    /** Count a stored child off in each of its parents. */
    method NotifyParents(ps: seq<Hash>, ghost debt: multiset<Hash>)
      requires Inv(debt + multiset(ps), {}, {})
      modifies this`requests, this`keys, this`batch, this`order
      ensures Inv(debt, {}, {}) && Settled(old(requests), old(order), requests, order)
      decreases requests.Keys, 1
    {
      hide InvOn, StoreOkOn, AskedOk, WaysOk, Readable, Settled, Deps;
      SettledSelf(requests, order);
      assert ps[0..] == ps;
      for i := 0 to |ps|
        invariant Inv(debt + multiset(ps[i..]), {}, {}) && Settled(old(requests), old(order), requests, order)
      {
        var p := ps[i];
        ghost var rest, a := debt + multiset(ps[i + 1..]), requests;
        TakeNext(ps, i, debt);
        CountOff(w, ways, requests, keys, Stored(), stuck, rest, p);
        AskedSame(requests, requests[p := requests[p].(deps := requests[p].deps - 1)], Stored(), Stored(), given, queue);
        requests := requests[p := requests[p].(deps := requests[p].deps - 1)];
        SettledDeps(old(requests), old(order), a, order, p, requests[p].deps);
        if requests[p].deps == 0 {
          ghost var b, bo := requests, order;
          SettledKeys(old(requests), old(order), b, bo);
          CommitRequest(p, rest);
          SettledTrans(old(requests), old(order), b, bo, requests, order);
        }
      }
      assert ps[|ps|..] == [] && debt + multiset(ps[|ps|..]) == debt;
    }

    ghost predicate Valid()
      reads this
    {
      && Inv(multiset{}, {}, {}) && (w.root == emptyRoot || w.root in Stored() || w.root in requests)
      && DoneOk(w, had, ways, done, requests, stuck)
    }

    /** The hash children that are neither stored nor buffered. */
    method MissingKids(kids: seq<Hash>) returns (missing: seq<Hash>)
      ensures forall k :: k in missing <==> k in kids && k !in Stored()
    {
      missing := [];
      for i := 0 to |kids|
        invariant forall k :: k in missing <==> k in kids[..i] && k !in Stored()
      {
        assert kids[..i + 1] == kids[..i] + [kids[i]];
        if kids[i] !in batch && kids[i] !in database {
          missing := missing + [kids[i]];
        }
      }
      assert kids[..|kids|] == kids;
    }

    /** Schedule one missing child of a node being processed; `n` more are to come. */
    method ScheduleKid(h: Hash, kind: Kind, depth: nat, k: Hash, ghost n: nat)
      requires Inv(multiset{}[h := n + 1], {h}, {h}) && Processed(requests, stuck, h) && requests[h].kind == kind
      requires depth == requests[h].depth + Step(w, Demand(h, kind))
      requires k !in Stored() && Asks(w, Demand(h, kind), Demand(k, kind))
      modifies this`requests, this`queue, this`keys, this`ways
      ensures Inv(multiset{}[h := n], {h}, {h}) && Grown(old(requests), requests)
      ensures requests.Keys == old(requests.Keys) + {k} && ways == Noted(old(ways), Demand(k, kind))
      ensures MadeFor(w, Demand(h, kind), old(requests)[h].depth, old(requests), old(queue), requests, queue)
      ensures Covered(requests, Stored(), h, k)
    {
      hide InvOn, StoreOkOn, AskedOk, Rooted, Grown, Covered, MadeFor, Asks, OneMore, Noted;
      assert multiset{}[h := n + 1] == multiset{}[h := n] + multiset([h]);
      Schedule(k, kind, depth, [h], multiset{}[h := n], {h}, {h});
      OneMade(w, Demand(h, kind), old(requests)[h].depth, old(requests), old(queue), requests, queue, Demand(k, kind));
    }

    /** Schedule the missing children of a node being processed; they are counted already. */
    method ScheduleKids(h: Hash, kind: Kind, depth: nat, missing: seq<Hash>)
      requires Inv(multiset{}[h := |missing|], {h}, {h}) && Processed(requests, stuck, h) && requests[h].kind == kind
      requires depth == requests[h].depth + Step(w, Demand(h, kind))
      requires forall k :: k in missing ==> k !in Stored() && Asks(w, Demand(h, kind), Demand(k, kind))
      modifies this`requests, this`queue, this`keys, this`ways
      ensures Inv(multiset{}, {h}, {h}) && Grown(old(requests), requests)
      ensures requests.Keys == old(requests.Keys) + Members(missing) && ways == NoteKids(old(ways), missing, kind)
      ensures MadeFor(w, Demand(h, kind), old(requests)[h].depth, old(requests), old(queue), requests, queue)
      ensures forall k :: k in missing ==> Covered(requests, Stored(), h, k)
    {
      hide Inv, Grown, Covered, MadeFor, Asks, Extended, NoteKids, Noted;
      GrownSelf(requests);
      NoteKidsNone(ways, [], kind);
      ghost var p, base := Demand(h, kind), requests[h].depth;
      NoneMade(w, p, base, requests, queue, requests);
      for i := 0 to |missing|
        invariant Inv(multiset{}[h := |missing| - i], {h}, {h}) && Grown(old(requests), requests)
        invariant requests.Keys == old(requests.Keys) + Members(missing[..i]) && ways == NoteKids(old(ways), missing[..i], kind)
        invariant MadeFor(w, p, base, old(requests), old(queue), requests, queue)
        invariant forall k :: k in missing[..i] ==> Covered(requests, Stored(), h, k)
      {
        var k := missing[i];
        ghost var a, aq := requests, queue;
        GrownExtends(old(requests), a);
        StillProcessed(old(requests), a, stuck, h);
        ExtendedKeys(old(requests), a, h);
        assert k in missing && k !in Stored();
        ScheduleKid(h, kind, depth, k, |missing| - i - 1);
        NoteKidsNext(old(ways), missing[..i], kind, k);
        GrownExtends(a, requests);
        MadeTrans(w, p, base, old(requests), old(queue), a, aq, requests, queue);
        StillCovered(a, requests, Stored(), h, missing[..i]);
        GrownTrans(old(requests), a, requests);
        assert missing[..i + 1] == missing[..i] + [k];
      }
      assert missing[..|missing|] == missing;
      assert multiset{}[h := 0] == multiset{};
    }

    /** The callback on a node's value; an account that does not decode is an error. */
    method Callback(h: Hash, leaf: Leaf) returns (ok: bool)
      requires Inv(multiset{}, {h}, {h}) && Processed(requests, stuck, h)
      requires requests[h].kind.Watched? && w.content(h).Node? && w.content(h).leaf == Some(leaf)
      modifies this`requests, this`queue, this`keys, this`ways
      ensures ok == leaf.Account? && Inv(multiset{}, {h}, {h}) && Extended(old(requests), requests)
      ensures !ok ==> requests == old(requests) && queue == old(queue) && keys == old(keys) && ways == old(ways)
      ensures MadeFor(w, Demand(h, Watched), old(requests)[h].depth, old(requests), old(queue), requests, queue)
      ensures forall d :: d in Added(w, leaf) ==> Covered(requests, Stored(), h, d)
      ensures requests[h].deps == old(requests)[h].deps <==> LeafKnown(w, Demand(h, Watched), database.Keys, batch.Keys)
      ensures requests[h].deps == old(requests)[h].deps ==> requests.Keys == old(requests.Keys)
      ensures ok ==> TrieAsked(w, Demand(h, Watched), database.Keys, batch.Keys, requests) && ways == NoteLeaf(w, old(ways), Demand(h, Watched))
      ensures requests[h].deps >= old(requests)[h].deps
    {
      hide InvOn, StoreOkOn, AskedOk, Extended, Covered, MadeFor, WaysOk, Readable, OneMore;
      ghost var p, base := Demand(h, Watched), requests[h].depth;
      NoneMade(w, p, base, requests, queue, requests);
      if leaf.BadLeaf? {
        ExtendedSelf(requests);
        return false;
      }
      AddSubTrie(leaf.root, 64, h, Plain, {h});
      ghost var a, aq := requests, queue;
      MadeByLeaf(w, p, base, old(requests), old(queue), a, aq, leaf, Demand(leaf.root, Plain));
      StillProcessed(old(requests), a, stuck, h);
      ExtendedKeys(old(requests), a, h);
      AddRawEntry(leaf.code, 64, h, {h});
      MadeByLeaf(w, p, base, a, aq, requests, queue, leaf, Demand(leaf.code, Raw));
      MadeTrans(w, p, base, old(requests), old(queue), a, aq, requests, queue);
      ExtendedTrans(old(requests), a, requests);
      if leaf.root != emptyRoot {
        ExtendedCovers(a, requests, Stored(), h, leaf.root);
      }
      ok := true;
    }

    /** Count and schedule the missing children of a node that has to wait. */
    method Await(h: Hash, kind: Kind, depth: nat, data: Content, missing: seq<Hash>)
      requires Inv(multiset{}, {h}, {h}) && Processed(requests, stuck, h) && kind == requests[h].kind && !kind.Raw?
      requires data == w.content(h) && data.Node? && depth == requests[h].depth + data.step
      requires forall k :: k in missing <==> k in data.kids && k !in Stored()
      requires forall d :: d in Extra(w, h, kind) ==> Covered(requests, Stored(), h, d)
      requires requests[h].deps >= 0 && (missing != [] || requests[h].deps > 0)
      modifies this`requests, this`queue, this`keys, this`ways
      ensures Inv(multiset{}, {}, {}) && Extended(old(requests), requests) && ways == NoteKids(old(ways), missing, kind)
      ensures MadeFor(w, Demand(h, kind), old(requests)[h].depth, old(requests), old(queue), requests, queue)
    {
      hide InvOn, StoreOkOn, AskedOk, Extended, Covered, Deps, Extra, Grown, WaysOk, Readable, MadeFor, Asks, NoteKids;
      DepsParts(w, h, kind, data);
      CountLinks(w, ways, requests, keys, Stored(), stuck, multiset{}, {h}, {h}, h, |missing|);
      assert multiset{} + multiset{}[h := |missing|] == multiset{}[h := |missing|];
      AskedSame(requests, requests[h := requests[h].(deps := requests[h].deps + |missing|)], Stored(), Stored(), given, queue);
      ghost var b := requests;
      requests := requests[h := requests[h].(deps := requests[h].deps + |missing|)];
      ghost var c := requests;
      StillProcessedDeps(b, stuck, h, requests[h].deps);
      ScheduleKids(h, kind, depth, missing);
      MadeCounted(w, Demand(h, kind), b[h].depth, b, old(queue), c, requests, queue);
      ExtendedBy(b, h, b[h].deps + |missing|, requests);
      ExtendedKeys(b, requests, h);
      ExtraStillCovered(b, requests, Stored(), w, h, kind);
      StoredCovered(requests, Stored(), h);
      NowCovered(w, ways, requests, keys, Stored(), stuck, multiset{}, h, {});
    }

    /** A decoded node: run the callback, ask for the missing children, store it if nothing is missing. */
    method ProcessNode(h: Hash, data: Content) returns (err: Option<SyncError>, committed: bool)
      requires Inv(multiset{}, {}, {}) && data == w.content(h) && data.Node?
      requires h in requests && requests[h].data.None? && !requests[h].kind.Raw?
      modifies this`requests, this`queue, this`keys, this`ways, this`batch, this`order, this`stuck
      ensures Inv(multiset{}, {}, {})
      ensures err == if BadAccountAt(w, Demand(h, old(requests)[h].kind)) then Some(BadAccount) else None
      ensures err.Some? ==> !committed && queue == old(queue) && order == old(order) && requests == old(requests)[h := old(requests)[h].(data := Some(data))]
      ensures err.None? ==> (committed <==> AllKnown(w, Demand(h, old(requests)[h].kind), database.Keys, old(batch).Keys))
      ensures err.None? ==> stuck == old(stuck)
      ensures ways == if err.None? then Visit(w, old(ways), h) else old(ways)
      ensures err.Some? ==> stuck == old(stuck) + {h}
      ensures err.None? && !committed ==> TrieAsked(w, Demand(h, old(requests)[h].kind), database.Keys, old(batch).Keys, requests)
      ensures Progress(w, old(requests), old(order), requests, order, h, committed)
      ensures MadeFor(w, Demand(h, old(requests)[h].kind), old(requests)[h].depth, old(requests), old(queue), requests, queue)
    {
      hide InvOn, StoreOkOn, AskedOk, Extended, Covered, Deps, Added, Grown, Progress, Settled, WaysOk, Readable, MadeFor, LeafKnown, KidsKnown, TrieAsked, NoteKids, NoteLeaf;
      var req := requests[h];
      FirstWay(w, ways, requests, keys, Stored(), stuck, h);
      SetData(w, ways, requests, keys, Stored(), stuck, h);
      AskedSame(requests, requests[h := req.(data := Some(data))], Stored(), Stored(), given, queue);
      requests := requests[h := req.(data := Some(data))];
      ghost var a, p := requests, Demand(h, req.kind);
      ExtendedSelf(a);
      NoneMade(w, p, req.depth, a, queue, a);
      ProgressData(w, old(requests), order, h);
      var missing := MissingKids(data.kids);
      if req.kind.Watched? && data.leaf.Some? {
        var ok := Callback(h, data.leaf.value);
        if !ok {
          stuck := stuck + {h};
          NoneMade(w, p, req.depth, old(requests), queue, requests);
          return Some(BadAccount), false;
        }
      } else {
        NoLeaf(w, p, database.Keys, batch.Keys);
      }
      StillProcessed(a, requests, stuck, h);
      ExtendedKeys(a, requests, h);
      ghost var b, bq := requests, queue;
      committed := Finish(h, data, missing, req.depth);
      if !committed {
        ExtendedKeys(b, requests, h);
        AskedStill(w, p, database.Keys, old(batch).Keys, b, requests);
      }
      FinishProgress(w, p, req.depth, old(requests), old(queue), old(order), a, b, bq, requests, queue, order, committed);
      err := None;
    }

    /** The callback has run: store the node if it needs nothing more, else wait for what is missing. */
    method Finish(h: Hash, data: Content, missing: seq<Hash>, depth: nat) returns (committed: bool)
      requires Inv(multiset{}, {h}, {h}) && Processed(requests, stuck, h) && !requests[h].kind.Raw? && data == w.content(h) && data.Node?
      requires forall k :: k in missing <==> k in data.kids && k !in Stored()
      requires forall d :: d in Extra(w, h, requests[h].kind) ==> Covered(requests, Stored(), h, d)
      requires requests[h].depth == depth && requests[h].deps >= 0
      requires requests[h].deps == 0 <==> LeafKnown(w, Demand(h, requests[h].kind), database.Keys, batch.Keys)
      modifies this`requests, this`queue, this`keys, this`ways, this`batch, this`order
      ensures Inv(multiset{}, {}, {})
      ensures committed <==> AllKnown(w, Demand(h, old(requests)[h].kind), database.Keys, old(batch).Keys)
      ensures committed ==> queue == old(queue) && Settled(old(requests), old(order), requests, order) && old(order) + [h] <= order
      ensures committed ==> old(requests)[h].deps == 0
      ensures ways == NoteKids(old(ways), data.kids, old(requests)[h].kind)
      ensures !committed ==> order == old(order) && Extended(old(requests), requests)
      ensures !committed ==> MadeFor(w, Demand(h, old(requests)[h].kind), depth, old(requests), old(queue), requests, queue)
    {
      hide InvOn, StoreOkOn, AskedOk, Covered, Deps, Extra, Settled, WaysOk, Readable, MadeFor, LeafKnown, Extended;
      ghost var d := Demand(h, requests[h].kind);
      DepsParts(w, h, d.kind, data);
      InvSound(w, ways, requests, keys, Stored(), stuck, multiset{}, {h}, {h});
      NoteKidsSame(ways, data.kids, missing, d.kind);
      if |missing| == 0 && requests[h].deps == 0 {
        StoredCovered(requests, Stored(), h);
        forall x | x in Extra(w, h, d.kind)
          ensures x in Stored()
        {
          LeafCovered(w, d, database.Keys, batch.Keys, x);
        }
        NowCovered(w, ways, requests, keys, Stored(), stuck, multiset{}, h, {h});
        CommitRequest(h, multiset{});
        NoteKidsNone(ways, missing, d.kind);
        return true;
      }
      assert missing != [] ==> missing[0] in missing;
      Await(h, requests[h].kind, depth + data.step, data, missing);
      return false;
    }

    /** A raw entry is stored at once. */
    method ProcessRaw(h: Hash, data: Content)
      requires Inv(multiset{}, {}, {}) && data == w.content(h) && h in requests && requests[h].data.None? && requests[h].kind.Raw?
      modifies this`requests, this`keys, this`batch, this`order
      ensures Inv(multiset{}, {}, {}) && Progress(w, old(requests), old(order), requests, order, h, true)
      ensures MadeFor(w, Demand(h, Raw), old(requests)[h].depth, old(requests), queue, requests, queue)
      ensures AllKnown(w, Demand(h, Raw), database.Keys, old(batch).Keys)
    {
      hide InvOn, StoreOkOn, AskedOk, Deps, Progress, Settled, WaysOk, Readable, MadeFor, AllKnown;
      var req := requests[h];
      RequestFacts(w, ways, requests, keys, Stored(), stuck, h);
      SetData(w, ways, requests, keys, Stored(), stuck, h);
      AskedSame(requests, requests[h := req.(data := Some(data))], Stored(), Stored(), given, queue);
      requests := requests[h := req.(data := Some(data))];
      RawDeps(w, h);
      NowCovered(w, ways, requests, keys, Stored(), stuck, multiset{}, h, {h});
      ghost var b := requests;
      CommitRequest(h, multiset{});
      ProgressCommit(w, old(requests), old(order), b, requests, order, h);
      SettledKeys(b, old(order), requests, order);
      NoneMade(w, Demand(h, Raw), req.depth, old(requests), queue, requests);
      RawKnown(w, Demand(h, Raw), database.Keys, old(batch).Keys);
    }

    /** A requested item that decodes, if it has to. */
    method Settle(h: Hash, data: Content) returns (err: Option<SyncError>, committed: bool)
      requires Inv(multiset{}, {}, {}) && data == w.content(h) && h in requests && requests[h].data.None? && !Hopeless(w, h, requests[h].kind)
      modifies this`requests, this`queue, this`keys, this`ways, this`batch, this`order, this`stuck
      ensures Inv(multiset{}, {}, {}) && h !in had
      ensures err == if BadAccountAt(w, Demand(h, old(requests)[h].kind)) then Some(BadAccount) else None
      ensures err.Some? ==> !committed && queue == old(queue) && order == old(order) && requests == old(requests)[h := old(requests)[h].(data := Some(data))]
      ensures err.Some? ==> stuck == old(stuck) + {h} && ways == old(ways)
      ensures err.None? ==> stuck == old(stuck) && Advanced(w, old(ways), ways, old(Now()), Now(), database.Keys, stuck, h, committed)
      ensures err.None? ==> Handled(w, database.Keys, old(Now()), Now(), h, committed)
      ensures Progress(w, old(requests), old(order), requests, order, h, committed)
    {
      hide InvOn, StoreOkOn, AskedOk, Deps, Progress, Settled, WaysOk, Readable, MadeFor, AllKnown, TrieAsked, Visit, Sound;
      FirstWay(w, ways, requests, keys, Stored(), stuck, h);
      StoreFacts(w, ways, database, batch, order);
      InvSound(w, ways, requests, keys, Stored(), stuck, multiset{}, {}, {});
      if requests[h].kind.Raw? {
        VisitRaw(w, ways, h);
        ProcessRaw(h, data);
        err, committed := None, true;
      } else {
        err, committed := ProcessNode(h, data);
      }
      RootKept(w, old(requests), old(order), requests, order, h, committed, w.root);
      StoreFacts(w, ways, database, batch, order);
      if err.None? {
        NeedsOf(w, ways, requests, keys, Stored(), stuck, database.Keys, Now(), h);
        InvSound(w, ways, requests, keys, Stored(), stuck, multiset{}, {}, {});
        MadeFresh(w, Demand(h, old(requests)[h].kind), old(requests)[h].depth, old(requests), old(queue), requests, queue);
      }
    }

    /** One delivered item: rejected unless asked for and new; then raw data is stored, a node is processed. */
    method ProcessOne(h: Hash, data: Content) returns (err: Option<SyncError>, committed: bool)
      requires Valid() && data == w.content(h)
      modifies this`requests, this`queue, this`keys, this`ways, this`batch, this`order, this`stuck, this`done
      ensures Valid() && err == Verdict(w, old(requests), h)
      ensures Handled(w, database.Keys, old(Now()), Now(), h, committed)
      ensures err.None? ==> stuck == old(stuck) && done == old(done) + [h]
    {
      hide InvOn, StoreOkOn, AskedOk, Progress, Rooted, MadeFor, AllKnown, TrieAsked, DoneOk, Advanced, NeedsMet;
      if h !in requests {
        return Some(NotRequested), false;
      }
      var req := requests[h];
      if req.data.Some? {
        return Some(AlreadyProcessed), false;
      }
      if !req.kind.Raw? && data.Blob? {
        return Some(BadNode), false;
      }
      StoreFacts(w, ways, database, batch, order);
      err, committed := Settle(h, data);
      RootKept(w, old(requests), old(order), requests, order, h, committed, w.root);
      StoreFacts(w, ways, database, batch, order);
      if err.None? {
        DoneStep(w, had, old(ways), ways, done, old(Now()), Now(), database.Keys, stuck, h, committed);
        done := done + [h];
      } else {
        DoneStuck(w, had, ways, done, old(requests), old(stuck), h);
      }
    }

    /** `Process`: items in order until one is rejected. */
    method Process(results: seq<SyncResult>) returns (committed: bool, index: nat, err: Option<SyncError>, ghost trace: seq<Snapshot>)
      requires Valid() && forall r :: r in results ==> r.data == w.content(r.hash)
      modifies this`requests, this`queue, this`keys, this`ways, this`batch, this`order, this`stuck, this`done
      ensures Valid() && old(order) <= order && (committed <==> order != old(order))
      ensures trace != [] && trace[0] == old(Now())
      ensures err.None? ==> Accepted(w, database.Keys, trace, results, |results|) && trace[|results|] == Now() && index == 0
      ensures err.Some? ==>
                && index < |results| && Accepted(w, database.Keys, trace, results, index)
                && err == Verdict(w, trace[index].requests, results[index].hash)
                && Handled(w, database.Keys, trace[index], Now(), results[index].hash, false)
    {
      hide Valid, Handled, Accepted, Verdict;
      committed := false;
      trace := [Now()];
      AcceptedNone(w, database.Keys, trace, results);
      for i := 0 to |results|
        invariant Valid() && old(order) <= order && (committed <==> order != old(order))
        invariant |trace| == i + 1 && trace[0] == old(Now()) && trace[i] == Now() && Accepted(w, database.Keys, trace, results, i)
      {
        var c;
        err, c := ProcessOne(results[i].hash, results[i].data);
        if err.Some? {
          HandledError(w, database.Keys, trace[i], Now(), results[i].hash, c);
          return committed, i, err, trace;
        }
        AcceptedNext(w, database.Keys, trace, results, i, Now(), c);
        trace := trace + [Now()];
        committed := committed || c;
      }
      return committed, 0, None, trace;
    }

    /** `NewSync`. */
    constructor (root: Hash, database: map<Hash, Content>, emptyRoot: Hash, emptyState: Hash, ghost w: World, ghost had: Ways)
      requires w.root == root && w.emptyRoot == emptyRoot && w.emptyState == emptyState && w.content(ZERO).Blob?
      requires Faithful(w, database) && had.Keys == database.Keys && Closed(w, had, database.Keys, [])
      ensures Valid() && this.w == w && this.had == had && this.database == database && order == [] && given == [] && stuck == {} && done == []
      ensures requests.Keys == if TrieKnown(w, database.Keys, {}, root) then {} else {root}
      ensures OneMore(map[], [], requests, queue, Demand(root, Watched), 0)
    {
      this.database, this.batch, this.order := database, map[], [];
      this.requests, this.queue := map[], [];
      this.emptyRoot, this.emptyState, this.w, this.had := emptyRoot, emptyState, w, had;
      this.ways, this.keys, this.stuck, this.given, this.done := had, [], {}, [], [];
      new;
      hide InvOn, StoreOkOn, AskedOk, Rooted;
      InitialInv(w, had, database);
      assert Stored() == database.Keys;
      AddSubTrie(root, 0, ZERO, Watched, {});
      DoneInit(w, had, ways, requests);
    }

    /** `Missing`: hand out queued hashes, deepest first; none is handed out twice unless a stored blob is asked for as a trie. */
    method Missing(max: nat) returns (hashes: seq<Hash>, ghost items: seq<QueueItem>)
      requires Valid()
      modifies this`queue, this`given
      ensures Valid() && given == old(given) + hashes
      ensures forall i, j :: 0 <= i < j < |given| && given[i] == given[j] ==> Reasked(w, had, requests, Stored(), given[i])
      ensures NoBlobTwice(w, had) ==> Distinct(given)
      ensures |hashes| == if max == 0 || |old(queue)| < max then |old(queue)| else max
      ensures hashes == Names(items) && multiset(items) + multiset(queue) == multiset(old(queue)) && Deepening(items, queue)
    {
      hide InvOn, StoreOkOn, AskedOk, Names, Deepening, Rooted, Reasked, DoneOk;
      hashes, items := [], [];
      DeepeningNone(queue);
      while queue != [] && (max == 0 || |hashes| < max)
        invariant Valid() && given == old(given) + hashes && |hashes| + |queue| == |old(queue)| && (max == 0 || |hashes| <= max)
        invariant hashes == Names(items) && multiset(items) + multiset(queue) == multiset(old(queue)) && Deepening(items, queue)
        decreases |queue|
      {
        var i := Deepest();
        HandOut(requests, Stored(), given, queue, i);
        DeepeningNext(items, queue, i);
        hashes := hashes + [queue[i].hash];
        items := items + [queue[i]];
        given := given + [queue[i].hash];
        queue := queue[..i] + queue[i + 1..];
      }
      InvSound(w, ways, requests, keys, Stored(), stuck, multiset{}, {}, {});
      GivenOnce(w, had, ways, requests, Stored(), given, queue);
      GivenDistinct(w, had, requests, Stored(), given);
    }

    /** The queue pops an item of the greatest priority. */
    method Deepest() returns (i: nat)
      requires queue != []
      ensures i < |queue| && forall j :: 0 <= j < |queue| ==> queue[j].prio <= queue[i].prio
    {
      i := 0;
      for j := 1 to |queue|
        invariant i < j && forall l :: 0 <= l < j ==> queue[l].prio <= queue[i].prio
      {
        if queue[j].prio > queue[i].prio {
          i := j;
        }
      }
    }

    /** `Commit`: write the buffer out in order; after any number of writes the database is closed. */
    method Flush(writes: nat) returns (n: nat, ok: bool)
      requires Valid()
      modifies this`database, this`batch, this`order
      ensures Valid() && n <= |old(order)| && (ok <==> n == |old(order)|) && (ok <==> writes >= |old(order)|)
      ensures database.Keys == old(database.Keys) + Members(old(order)[..n]) && Closed(w, ways, database.Keys, [])
      ensures Agree(w, had) ==> forall d, x :: Under(w, d) && d.hash in database && x in Deps(w, d.hash, d.kind) ==> x in database
      ensures Stored() == old(Stored())
      ensures if ok then batch == map[] && order == [] else batch == old(batch) && order == old(order)
    {
      hide InvOn, AskedOk, WaysOk, Readable, Closed, StoreOkOn, Members, Agree, Under, Deps, DoneOk;
      n := 0;
      FlushNone(order);
      while n < |order|
        invariant n <= |order| && n <= writes && batch == old(batch) && order == old(order)
        invariant StoreOkOn(w, ways, database, batch, order) && Stored() == old(Stored())
        invariant database.Keys == old(database.Keys) + Members(order[..n])
      {
        if n == writes {
          FlushClosed(w, ways, old(database), batch, order, n);
          EveryWay();
          return n, false;
        }
        FlushNext(w, ways, database, batch, order, old(database).Keys, n);
        database := database[order[n] := batch[order[n]]];
        assert Stored() == old(Stored());
        n := n + 1;
      }
      FlushClosed(w, ways, old(database), batch, order, n);
      FlushAll(w, ways, database, batch, order, n);
      batch, order := map[], [];
      assert Stored() == old(Stored());
      EveryWay();
      ok := true;
    }

    lemma EveryWay()
      requires Inv(multiset{}, {}, {}) && Closed(w, ways, database.Keys, [])
      ensures Agree(w, had) ==> forall d, x :: Under(w, d) && d.hash in database && x in Deps(w, d.hash, d.kind) ==> x in database
    {
      hide InvOn, AskedOk, WaysOk, Readable, Closed, StoreOkOn, Agree, Under, Deps;
      InvSound(w, ways, requests, keys, Stored(), stuck, multiset{}, {}, {});
      if Agree(w, had) {
        forall d: Demand | Under(w, d) && d.hash in database
          ensures forall x :: x in Deps(w, d.hash, d.kind) ==> x in database
        {
          ClosedEveryWay(w, had, ways, database.Keys, d);
        }
      }
    }

    /**
     * `Pending`: with nothing pending, exactly what a finished exploration of the state meets is stored. The whole
     * state under the root is stored if and only if no way of asking that was dropped left a gap; so it is stored
     * whenever all ways of asking for a hash agree on what it needs.
     */
    method Pending() returns (n: nat)
      requires Valid()
      ensures n == |requests|
      ensures n == 0 ==> Orderly(w, had, done) && Finished(w, had, done) && Stored() == Explore(w, had, done).Keys
      ensures n == 0 && AllMeet(w, had) ==> forall d: Demand :: Under(w, d) ==> d.hash in Stored()
      ensures n == 0 && w.root != emptyRoot ==>
                ((forall d: Demand :: Under(w, d) ==> d.hash in Stored()) <==>
                 (forall d: Demand :: Under(w, d) && d.hash in Stored() ==> GapStored(w, ways, Stored(), d)))
      ensures n == 0 && w.root != emptyRoot && Agree(w, had) ==> forall d: Demand :: Under(w, d) ==> d.hash in Stored()
    {
      hide InvOn, AskedOk, WaysOk, Readable, StoreOkOn, Agree, Under, GapStored, Explore, Orderly;
      n := |requests|;
      InvSound(w, ways, requests, keys, Stored(), stuck, multiset{}, {}, {});
      if n == 0 && w.root != emptyRoot {
        CompleteIff(w, ways, database, batch, order);
        if Agree(w, had) {
          forall d: Demand | Under(w, d) && d.hash in Stored()
            ensures GapStored(w, ways, Stored(), d)
          {
            NoGap(w, had, ways, Stored(), d);
          }
        }
      }
    }
  }

  // ---------------------------------------------------------------- every exploration is a sync

  /** Every trie under the root decodes, and so does every account. */
  ghost predicate WellFormed(w: World) {
    forall d: Demand :: Under(w, d) ==> !Hopeless(w, d.hash, d.kind) && !BadAccountAt(w, d)
  }

  ghost function Hashes(items: seq<SyncResult>): seq<Hash> {
    seq(|items|, i requires 0 <= i < |items| => items[i].hash)
  }

  /** What is met and not yet visited is accepted if it is delivered next. */
  lemma {:induction false} NextAccepted(s: Sync, h: Hash)
    requires s.Valid() && s.stuck == {} && WellFormed(s.w) && h in Explore(s.w, s.had, s.done) && h !in s.had && h !in s.done
    ensures Verdict(s.w, s.requests, h) == None
  {
    hide InvOn, StoreOkOn, AskedOk, Rooted, Explore, Orderly, Under, Hopeless, BadAccountAt;
    assert h in s.requests && s.requests[h].data.None?;
    PendingFine(s, h);
    VerdictFine(s.w, s.requests, h);
  }

  lemma {:induction false} VerdictFine(w: World, requests: Requests, h: Hash)
    requires h in requests && requests[h].data.None?
    requires !Hopeless(w, h, requests[h].kind) && !BadAccountAt(w, Demand(h, requests[h].kind))
    ensures Verdict(w, requests, h) == None
  {
  }

  lemma {:induction false} PendingFine(s: Sync, h: Hash)
    requires s.Valid() && WellFormed(s.w) && h in s.requests
    ensures !Hopeless(s.w, h, s.requests[h].kind) && !BadAccountAt(s.w, Demand(h, s.requests[h].kind))
  {
    hide InvOn, StoreOkOn, AskedOk, Rooted, DoneOk, Hopeless, BadAccountAt, LinksTrue;
    InvSound(s.w, s.ways, s.requests, s.keys, s.Stored(), s.stuck, multiset{}, {}, {});
    assert Under(s.w, Demand(h, s.requests[h].kind));
  }

  /** When all that is met is visited, nothing is pending. */
  lemma {:induction false} AllVisited(s: Sync, rank: Hash -> nat)
    requires s.Valid() && s.stuck == {} && WellFormed(s.w) && Ranked(s.w, rank) && Finished(s.w, s.had, s.done)
    ensures s.requests == map[] && s.Stored() == Explore(s.w, s.had, s.done).Keys
  {
    hide InvOn, StoreOkOn, AskedOk, Explore, Orderly, Hopeless, WellFormed, Ranked, WaysOk, Readable, Sound;
    InvSound(s.w, s.ways, s.requests, s.keys, s.Stored(), s.stuck, multiset{}, {}, {});
    if p :| p in s.requests {
      var c := Undelivered(s.w, s.ways, s.requests, s.keys, s.Stored(), s.stuck, rank, p);
      PendingFine(s, c);
      SoundKept(s.w, s.ways, s.requests, s.Stored(), c);
    }
  }

  /**
   * A sync that gets its items in the order of a finished exploration ends with exactly what the exploration meets. So
   * where some order does not meet everything (`!AllMeet`), some sync ends without everything; `Pending` says that
   * elsewhere none does.
   */
  method Follow(root: Hash, database: map<Hash, Content>, emptyRoot: Hash, emptyState: Hash, items: seq<SyncResult>,
                ghost w: World, ghost had: Ways, ghost rank: Hash -> nat) returns (s: Sync)
    requires w.root == root && w.emptyRoot == emptyRoot && w.emptyState == emptyState && w.content(ZERO).Blob?
    requires Faithful(w, database) && had.Keys == database.Keys && Closed(w, had, database.Keys, [])
    requires WellFormed(w) && Ranked(w, rank) && forall r :: r in items ==> r.data == w.content(r.hash)
    requires Orderly(w, had, Hashes(items)) && Finished(w, had, Hashes(items))
    ensures s.Valid() && s.w == w && s.had == had && s.requests == map[]
    ensures s.Stored() == Explore(w, had, Hashes(items)).Keys
    ensures (forall d: Demand :: Under(w, d) ==> d.hash in s.Stored()) <==> Meets(w, had, Hashes(items))
  {
    hide Sync.Valid, Handled, WellFormed, Ranked, Faithful, Closed, Finished, Explore, Verdict;
    s := new Sync(root, database, emptyRoot, emptyState, w, had);
    for i := 0 to |items|
      invariant fresh(s) && s.Valid() && s.w == w && s.had == had && s.stuck == {} && s.done == Hashes(items)[..i]
    {
      var h := items[i].hash;
      assert Hashes(items)[i] == h && items[i] in items;
      NextAccepted(s, h);
      var e, c := s.ProcessOne(h, items[i].data);
      assert Hashes(items)[..i + 1] == Hashes(items)[..i] + [h];
    }
    assert Hashes(items)[..|items|] == Hashes(items);
    AllVisited(s, rank);
  }

  // ---------------------------------------------------------------- when an exploration meets everything

  /** Everything under the root is met in every order of visiting. */
  ghost predicate AllMeet(w: World, had: Ways) {
    forall done :: Orderly(w, had, done) && Finished(w, had, done) ==> Meets(w, had, done)
  }

  ghost predicate Meets(w: World, had: Ways, done: seq<Hash>) {
    forall d: Demand :: Under(w, d) ==> d.hash in Explore(w, had, done)
  }

  ghost predicate More(a: Ways, b: Ways) {
    forall h :: h in a ==> h in b && b[h] == a[h]
  }

  lemma {:induction false} VisitMore(w: World, ways: Ways, h: Hash)
    ensures More(ways, Visit(w, ways, h))
  {
  }

  /** What a visit meets anew it asks for, in the way noted. */
  lemma {:induction false} VisitAsks(w: World, ways: Ways, h: Hash, x: Hash)
    requires x in Visit(w, ways, h) && x !in ways
    ensures h in ways && Asks(w, Demand(h, ways[h]), Demand(x, Visit(w, ways, h)[x]))
  {
  }

  /** A visit meets all the hash needs in its way. */
  lemma {:induction false} VisitMeets(w: World, ways: Ways, h: Hash, x: Hash)
    requires h in ways && x in Deps(w, h, ways[h])
    ensures x in Visit(w, ways, h)
  {
  }

  lemma {:induction false} FirstMore(w: World, a: Ways, b: Ways, d: Demand)
    requires First(w, a, d) && More(a, b)
    ensures First(w, b, d)
  {
    var path :| FirstPath(w, a, path) && path[|path| - 1] == d;
    assert FirstPath(w, b, path);
  }

  lemma {:induction false} FirstVia(w: World, ways: Ways, p: Demand, d: Demand)
    requires First(w, ways, p) && Asks(w, p, d) && d.hash in ways && ways[d.hash] == d.kind
    ensures First(w, ways, d)
  {
    var path :| FirstPath(w, ways, path) && path[|path| - 1] == p;
    assert FirstPath(w, ways, path + [d]);
  }

  lemma {:induction false} ExploreMore(w: World, had: Ways, done: seq<Hash>, i: nat)
    requires i <= |done|
    ensures More(Explore(w, had, done[..i]), Explore(w, had, done))
  {
    hide Visit, Explore;
    if i == |done| {
      assert done[..i] == done;
    } else {
      var init, last := done[..|done| - 1], done[|done| - 1];
      assert done == init + [last] && init[..i] == done[..i];
      ExploreMore(w, had, init, i);
      VisitLast(w, had, init, last);
      VisitMore(w, Explore(w, had, init), last);
    }
  }

  /** What an orderly exploration meets it meets along chains of first ways, and it keeps the ways of what was there. */
  lemma {:induction false} ExploreWays(w: World, had: Ways, done: seq<Hash>)
    requires Orderly(w, had, done)
    ensures WaysOk(w, had, Explore(w, had, done)) && More(had, Explore(w, had, done))
  {
    hide Visit, First, Asks;
    if done == [] {
      FirstRoot(w, had);
    } else {
      var init, last := done[..|done| - 1], done[|done| - 1];
      OrderlyInit(w, had, done);
      ExploreWays(w, had, init);
      VisitMore(w, Explore(w, had, init), last);
      VisitWays(w, had, Explore(w, had, init), last);
    }
  }

  lemma {:induction false} VisitWays(w: World, had: Ways, ways: Ways, h: Hash)
    requires WaysOk(w, had, ways) && h in ways && h !in had
    ensures WaysOk(w, had, Visit(w, ways, h))
  {
    hide Visit, First, Asks;
    var b := Visit(w, ways, h);
    VisitMore(w, ways, h);
    FirstMore(w, ways, b, Demand(h, ways[h]));
    forall x | x in b && x !in had
      ensures First(w, b, Demand(x, b[x]))
    {
      if x in ways {
        FirstMore(w, ways, b, Demand(x, ways[x]));
      } else {
        VisitAsks(w, ways, h, x);
        FirstVia(w, b, Demand(h, ways[h]), Demand(x, b[x]));
      }
    }
  }

  lemma {:induction false} VisitedMeets(w: World, had: Ways, done: seq<Hash>, h: Hash, x: Hash)
    requires Orderly(w, had, done) && h in done && x in WayDeps(w, Explore(w, had, done), h)
    ensures x in Explore(w, had, done)
  {
    hide Visit, Explore, Deps;
    DoneMet(w, had, done, h);
    var i := IndexOf(done, h);
    var a, b := done[..i], done[..i + 1];
    assert b == a + [h];
    ExploreMore(w, had, done, i);
    ExploreMore(w, had, done, i + 1);
    VisitLast(w, had, a, h);
    VisitMeets(w, Explore(w, had, a), h, x);
  }

  /** Along a chain from the root everything is met, if all ways agree. */
  lemma {:induction false} ChainMet(w: World, had: Ways, done: seq<Hash>, path: seq<Demand>)
    requires Orderly(w, had, done) && Finished(w, had, done) && Agree(w, had) && Closed(w, had, had.Keys, []) && w.root != w.emptyRoot
    requires DepPath(w, path)
    ensures path[|path| - 1].hash in Explore(w, had, done)
  {
    hide Explore, Asks, Agree, Closed, Orderly;
    var ways := Explore(w, had, done);
    ExploreMore(w, had, done, 0);
    RootMet(w, had, done);
    if |path| > 1 {
      var init, p, d := path[..|path| - 1], path[|path| - 2], path[|path| - 1];
      assert DepPath(w, init) && init[|init| - 1] == p && Under(w, p) && Asks(w, p, d);
      ChainMet(w, had, done, init);
      AsksDeps(w, p, d);
      ExploreWays(w, had, done);
      NoGap(w, had, ways, {}, p);
      assert d.hash in WayDeps(w, ways, p.hash);
      if p.hash in had {
        ClosedAt(w, had, had.Keys, p.hash, d.hash);
      } else {
        VisitedMeets(w, had, done, p.hash, d.hash);
      }
    }
  }

  lemma {:induction false} RootMet(w: World, had: Ways, done: seq<Hash>)
    requires w.root != w.emptyRoot && More(Explore(w, had, done[..0]), Explore(w, had, done))
    ensures w.root in Explore(w, had, done)
  {
    assert done[..0] == [];
  }

  /** If all ways agree, every order of visiting meets everything. */
  lemma {:induction false} AgreeMeets(w: World, had: Ways)
    requires Agree(w, had) && Closed(w, had, had.Keys, []) && w.root != w.emptyRoot
    ensures AllMeet(w, had)
  {
    hide Explore, Agree, Closed, Orderly, Finished;
    forall done, d: Demand | Orderly(w, had, done) && Finished(w, had, done) && Under(w, d)
      ensures d.hash in Explore(w, had, done)
    {
      var path :| DepPath(w, path) && path[|path| - 1] == d;
      ChainMet(w, had, done, path);
    }
  }

  /** One account whose storage root is its own code hash, 2, a node with a child, 3. */
  ghost function TwofoldWorld(): World {
    World((h: Hash) => if h == 1 then Node([], Some(Account(2, 2)), 1) else if h == 2 then Node([3], None, 1)
                       else if h == 3 then Node([], None, 1) else Blob([]), 100, 101, 1)
  }

  lemma {:induction false} TwofoldAsks(p: Demand, d: Demand)
    ensures Asks(TwofoldWorld(), p, d) <==>
            || (p == Demand(1, Watched) && (d == Demand(2, Plain) || d == Demand(2, Raw)))
            || (p == Demand(2, p.kind) && !p.kind.Raw? && d == Demand(3, p.kind))
  {
  }

  /** That all ways agree is not necessary: here they do not, and still every order meets everything. */
  lemma {:induction false} AgreeNotNeeded()
    ensures !Agree(TwofoldWorld(), map[]) && AllMeet(TwofoldWorld(), map[])
  {
    hide Under, Asks, Explore, Orderly, Finished, Deps;
    TwofoldClash();
    var w := TwofoldWorld();
    forall done | Orderly(w, map[], done) && Finished(w, map[], done)
      ensures Meets(w, map[], done)
    {
      TwofoldMet(done);
      forall d: Demand | Under(w, d)
        ensures d.hash in {1, 2, 3}
      {
        TwofoldUnder(d);
      }
    }
  }

  lemma {:induction false} TwofoldClash()
    ensures !Agree(TwofoldWorld(), map[])
  {
    var w := TwofoldWorld();
    hide Under, Asks;
    TwofoldAsks(Demand(1, Watched), Demand(2, Plain));
    TwofoldAsks(Demand(1, Watched), Demand(2, Raw));
    UnderRoot(w);
    UnderNext(w, Demand(1, Watched), Demand(2, Plain));
    UnderNext(w, Demand(1, Watched), Demand(2, Raw));
    assert 3 in Deps(w, 2, Plain) && 3 !in Deps(w, 2, Raw);
    var d := Demand(2, Plain);
    assert Under(w, d) && Under(w, Demand(d.hash, Raw));
  }

  lemma {:induction false} TwofoldUnder(d: Demand)
    requires Under(TwofoldWorld(), d)
    ensures d.hash in {1, 2, 3}
  {
    var path :| DepPath(TwofoldWorld(), path) && path[|path| - 1] == d;
    if |path| > 1 {
      hide Asks;
      assert Asks(TwofoldWorld(), path[|path| - 2], path[|path| - 1]);
      TwofoldAsks(path[|path| - 2], d);
    }
  }

  lemma {:induction false} TwofoldMet(done: seq<Hash>)
    requires Orderly(TwofoldWorld(), map[], done) && Finished(TwofoldWorld(), map[], done)
    ensures 1 in Explore(TwofoldWorld(), map[], done) && 2 in Explore(TwofoldWorld(), map[], done) && 3 in Explore(TwofoldWorld(), map[], done)
  {
    var w := TwofoldWorld();
    assert Explore(w, map[], []) == map[1 := Watched];
    assert Visit(w, map[1 := Watched], 1)[2] == Plain;
    assert Deps(w, 2, Plain) == [3];
    hide TwofoldWorld, Visit, Deps, Explore;
    assert done[..0] == [];
    ExploreMore(w, map[], done, 0);
    assert 1 in done && done[0] == 1;
    assert done[..1] == [] + [1];
    VisitLast(w, map[], [], 1);
    ExploreMore(w, map[], done, 1);
    VisitedMeets(w, map[], done, 2, 3);
  }

  // ---------------------------------------------------------------- two states on which the ways of asking clash

  /**
   * Two accounts: the code of the first and the storage trie of the second have one hash, 2. If `node`, it is a node
   * with a child, 4; else it does not decode.
   */
  ghost function ClashContent(node: bool, h: Hash): Content {
    if h == 1 then Node([5, 6], None, 1)
    else if h == 5 then Node([], Some(Account(100, 2)), 1)
    else if h == 6 then Node([], Some(Account(2, 101)), 1)
    else if h == 2 && node then Node([4], None, 1)
    else if h == 4 && node then Node([], None, 1)
    else Blob([])
  }

  ghost function ClashWorld(node: bool): World {
    World((h: Hash) => ClashContent(node, h), 100, 101, 1)
  }

  lemma {:induction false} ClashAsks(node: bool, p: Demand, d: Demand)
    ensures Asks(ClashWorld(node), p, d) <==>
            || (p == Demand(1, p.kind) && !p.kind.Raw? && d.kind == p.kind && d.hash in [5, 6])
            || (p == Demand(5, Watched) && d == Demand(2, Raw))
            || (p == Demand(6, Watched) && d == Demand(2, Plain))
            || (node && p == Demand(2, p.kind) && !p.kind.Raw? && d == Demand(4, p.kind))
  {
  }

  ghost function ClashRank(h: Hash): nat {
    if h == 1 then 3 else if h == 5 || h == 6 then 2 else if h == 2 then 1 else 0
  }

  lemma {:induction false} ClashRanked(node: bool)
    ensures Ranked(ClashWorld(node), ClashRank)
  {
    hide Deps, Asks;
    var w := ClashWorld(node);
    forall h, k, d | d in Deps(w, h, k)
      ensures ClashRank(d) < ClashRank(h)
    {
      var l := DepsAsked(w, Demand(h, k), d);
      ClashAsks(node, Demand(h, k), Demand(d, l));
    }
  }

  ghost predicate InClash(d: Demand) {
    d in {Demand(1, Watched), Demand(5, Watched), Demand(6, Watched), Demand(2, Raw), Demand(2, Plain), Demand(4, Plain)}
  }

  lemma {:induction false} ClashChain(path: seq<Demand>)
    requires DepPath(ClashWorld(true), path)
    ensures InClash(path[|path| - 1])
  {
    hide Asks;
    if |path| > 1 {
      var init := path[..|path| - 1];
      assert DepPath(ClashWorld(true), init);
      ClashChain(init);
      ClashAsks(true, path[|path| - 2], path[|path| - 1]);
    }
  }

  /** As a node, hash 2 leaves the state well formed. */
  lemma {:induction false} ClashWellFormed()
    ensures WellFormed(ClashWorld(true))
  {
    hide Asks;
    forall d: Demand | Under(ClashWorld(true), d)
      ensures InClash(d)
    {
      var path :| DepPath(ClashWorld(true), path) && path[|path| - 1] == d;
      ClashChain(path);
    }
  }

  lemma {:induction false} ClashUnder(node: bool)
    ensures Under(ClashWorld(node), Demand(2, Raw)) && Under(ClashWorld(node), Demand(2, Plain))
    ensures node ==> Under(ClashWorld(node), Demand(4, Plain))
  {
    var w := ClashWorld(node);
    hide Under, Asks;
    ClashAsks(node, Demand(1, Watched), Demand(5, Watched));
    ClashAsks(node, Demand(1, Watched), Demand(6, Watched));
    ClashAsks(node, Demand(5, Watched), Demand(2, Raw));
    ClashAsks(node, Demand(6, Watched), Demand(2, Plain));
    ClashAsks(node, Demand(2, Plain), Demand(4, Plain));
    UnderRoot(w);
    UnderNext(w, Demand(1, Watched), Demand(5, Watched));
    UnderNext(w, Demand(1, Watched), Demand(6, Watched));
    UnderNext(w, Demand(5, Watched), Demand(2, Raw));
    UnderNext(w, Demand(6, Watched), Demand(2, Plain));
    if node {
      UnderNext(w, Demand(2, Plain), Demand(4, Plain));
    }
  }

  /** The requests while the accounts are processed, the first before the second. */
  ghost predicate Between(r: Requests, first: bool, second: bool) {
    && r.Keys == {1, 5, 6} + (if first then {2} else {})
    && r[1].data.Some? && r[1].kind == r[5].kind == r[6].kind == Watched
    && r[5].data.Some? == first && r[6].data.Some? == second
    && (first ==> r[2].data.None? && r[2].kind == Raw)
  }

  /** A node that has to wait: old requests keep their ways, new ones are what it asks for, and it has data. */
  lemma {:induction false} ClashWait(node: bool, a: Snapshot, b: Snapshot, h: Hash, c: bool)
    requires Handled(ClashWorld(node), {}, a, b, h, c) && Verdict(ClashWorld(node), a.requests, h) == None && a.order == []
    requires h == 1 || h == 5 || h == 6
    requires a.requests[h].kind == Watched
    ensures !c && b.order == [] && a.requests.Keys <= b.requests.Keys && b.requests[h].data.Some?
    ensures forall x :: x in a.requests ==>
              b.requests[x].kind == a.requests[x].kind && (x != h ==> b.requests[x].data == a.requests[x].data)
    ensures b.requests.Keys == a.requests.Keys + if h == 1 then {5, 6} else {2}
    ensures forall x :: x in b.requests && x !in a.requests ==> b.requests[x].data.None?
    ensures forall x :: x in b.requests && x !in a.requests ==> b.requests[x].kind == if h == 1 then Watched else if h == 5 then Raw else Plain
  {
    var w := ClashWorld(node);
    var d := Demand(h, Watched);
    assert !AllKnown(w, d, {}, Members(a.order)) by {
      assert 5 in w.content(1).kids;
    }
    hide Asks, AllKnown, Verdict;
    forall x | x in b.requests && x !in a.requests
      ensures Asks(w, d, Demand(x, b.requests[x].kind)) && x in (if h == 1 then {5, 6} else {2})
    {
      assert FreshRequest(w, d, a.requests[h].depth, x, b.requests[x]);
      ClashAsks(node, d, Demand(x, b.requests[x].kind));
    }
    forall x | x in (if h == 1 then {5, 6} else {2})
      ensures x in b.requests
    {
      assert x in Deps(w, h, Watched);
    }
  }

  /** The raw entry 2 is stored, and is not asked for any more; the root's other parts keep what they have. */
  lemma {:induction false} ClashCode(node: bool, a: Snapshot, b: Snapshot, c: bool, ways: Ways, store: set<Hash>)
    requires Handled(ClashWorld(node), {}, a, b, 2, c) && a.order == [] && 2 in a.requests
    requires a.requests[2].data.None? && a.requests[2].kind == Raw
    requires Sound(ClashWorld(node), ways, b.requests, store) && store == Members(b.order)
    ensures 2 in b.order && 2 !in b.requests && b.requests.Keys <= a.requests.Keys && store <= a.requests.Keys
    ensures forall x :: x in b.requests ==> b.requests[x].data == a.requests[x].data && b.requests[x].kind == a.requests[x].kind
    ensures forall x :: x in a.requests && x != 2 && a.requests[x].data.None? ==> x in b.requests
  {
    hide MadeFor, NeedsMet, TrieAsked, LinksTrue, Under;
    assert AllKnown(ClashWorld(node), Demand(2, Raw), {}, Members(a.order));
    assert 2 in b.order;
    forall x | x in store
      ensures x in a.requests && (x == 2 || a.requests[x].data.Some?)
    {
      var i := IndexOf(b.order, x);
    }
  }

  lemma {:induction false} TookAll(items: seq<QueueItem>, queue: seq<QueueItem>, all: seq<QueueItem>, q: QueueItem)
    requires multiset(items) + multiset(queue) == multiset(all) && |items| == |all| && q in all
    ensures q.hash in Names(items)
  {
    assert |multiset(items)| == |items| && |multiset(all)| == |all|;
    assert q in multiset(all);
    assert |multiset(queue)| == 0;
    assert q in items;
    var i :| 0 <= i < |items| && items[i] == q;
    assert Names(items)[i] == q.hash;
  }

  lemma {:induction false} NewIsQueued(w: World, p: Demand, depth: nat, a: Requests, aq: seq<QueueItem>, b: Requests, bq: seq<QueueItem>, x: Hash)
    requires MadeFor(w, p, depth, a, aq, b, bq) && x in b && x !in a
    ensures QueueItem(x, b[x].depth) in bq
  {
    assert QueueItem(x, b[x].depth) in bq[|aq|..];
  }

  lemma {:induction false} HandledMade(w: World, db: set<Hash>, a: Snapshot, b: Snapshot, h: Hash, c: bool)
    requires Handled(w, db, a, b, h, c) && Verdict(w, a.requests, h) == None
    ensures h in a.requests && MadeFor(w, Demand(h, a.requests[h].kind), a.requests[h].depth, a.requests, a.queue, b.requests, b.queue)
  {
  }

  /** The root and the first account are processed. */
  method RootAndFirst(ghost node: bool) returns (s: Sync)
    ensures fresh(s) && s.Valid() && s.w == ClashWorld(node) && s.had == map[] && Between(s.requests, true, false)
    ensures s.database == map[] && s.order == [] && s.stuck == {} && QueueItem(2, s.requests[2].depth) in s.queue
  {
    hide Sync.Valid, Handled, Under, Asks, MadeFor, Deepening;
    s := new Sync(1, map[], 100, 101, ClashWorld(node), map[]);
    assert s.database.Keys == {};
    ghost var a := s.Now();
    var e, c := s.ProcessOne(1, Node([5, 6], None, 1));
    ClashWait(node, a, s.Now(), 1, c);
    assert Between(s.requests, false, false);
    a := s.Now();
    e, c := s.ProcessOne(5, Node([], Some(Account(100, 2)), 1));
    ClashWait(node, a, s.Now(), 5, c);
    HandledMade(s.w, {}, a, s.Now(), 5, c);
    NewIsQueued(s.w, Demand(5, Watched), a.requests[5].depth, a.requests, a.queue, s.requests, s.queue, 2);
  }

  /** And all that is queued is handed out. */
  method FirstAccount(ghost node: bool) returns (s: Sync)
    ensures fresh(s) && s.Valid() && s.w == ClashWorld(node) && s.had == map[] && Between(s.requests, true, false)
    ensures s.database == map[] && s.order == [] && s.stuck == {} && 2 in s.given
  {
    hide Sync.Valid, Deepening, Reasked, NoBlobTwice;
    s := RootAndFirst(node);
    ghost var all := s.queue;
    var hashes, items := s.Missing(0);
    TookAll(items, s.queue, all, QueueItem(2, s.requests[2].depth));
  }

  /** First the code, then the storage trie: the sync ends with the child of 2 missing, though it is under the root. */
  method LostNode() returns (s: Sync)
    ensures s.Valid() && s.w == ClashWorld(true) && WellFormed(s.w) && s.had == map[] && s.requests == map[]
    ensures Under(s.w, Demand(4, Plain)) && 4 !in s.Stored()
  {
    hide Sync.Valid, Handled, Under, Asks;
    s := FirstAccount(true);
    assert s.database.Keys == {};
    ghost var a := s.Now();
    var e, c := s.ProcessOne(6, Node([], Some(Account(2, 101)), 1));
    ClashWait(true, a, s.Now(), 6, c);
    LastItem(s);
    ClashUnder(true);
    ClashWellFormed();
  }

  /** The accounts are processed: the code ends the sync. */
  method LastItem(s: Sync)
    requires s.Valid() && s.w == ClashWorld(true) && Between(s.requests, true, true)
    requires s.database == map[] && s.order == [] && s.stuck == {}
    modifies s
    ensures s.Valid() && s.requests == map[] && 4 !in s.Stored()
  {
    hide Handled, Sync.Valid;
    ghost var a := s.Now();
    assert s.database.Keys == {};
    var e, c := s.ProcessOne(2, Node([4], None, 1));
    ClashLast(s, a, c);
  }

  lemma {:induction false} ClashLast(s: Sync, a: Snapshot, c: bool)
    requires s.Valid() && s.w == ClashWorld(true) && Between(a.requests, true, true) && a.order == [] && s.database == map[] && s.stuck == {}
    requires Handled(s.w, {}, a, s.Now(), 2, c)
    ensures s.requests == map[] && 4 !in s.Stored()
  {
    hide Handled, InvOn, StoreOkOn, AskedOk, Rooted, DoneOk, Sound;
    InvSound(s.w, s.ways, s.requests, s.keys, s.Stored(), s.stuck, multiset{}, {}, {});
    StoreFacts(s.w, s.ways, s.database, s.batch, s.order);
    ClashCode(true, a, s.Now(), c, s.ways, s.Stored());
    ClashRanked(true);
    if p :| p in s.requests {
      var q := Undelivered(s.w, s.ways, s.requests, s.keys, s.Stored(), s.stuck, ClashRank, p);
    }
  }

  /** The code is stored: it is not asked for any more, and the second account still is. */
  method CodeFirst() returns (s: Sync)
    ensures fresh(s) && s.Valid() && s.w == ClashWorld(false) && 2 in s.given && 2 in s.database && s.order == []
    ensures 2 !in s.requests && 6 in s.requests && s.requests[6].data.None? && s.requests[6].kind == Watched
  {
    hide Handled, InvOn, StoreOkOn, AskedOk, Rooted, DoneOk, Sound, Under, Agree, Closed, Deps;
    s := FirstAccount(false);
    assert s.database.Keys == {};
    ghost var a := s.Now();
    var e, c := s.ProcessOne(2, Blob([]));
    InvSound(s.w, s.ways, s.requests, s.keys, s.Stored(), s.stuck, multiset{}, {}, {});
    StoreFacts(s.w, s.ways, s.database, s.batch, s.order);
    ClashCode(false, a, s.Now(), c, s.ways, s.Stored());
    var n, ok := s.Flush(|s.order|);
  }

  /** A stored blob asked for as a storage trie is handed out a second time. */
  method GivenTwice() returns (s: Sync)
    ensures s.Valid() && s.w == ClashWorld(false) && !Distinct(s.given)
  {
    hide Sync.Valid, Handled, Under, Asks, MadeFor, Deepening;
    s := CodeFirst();
    ghost var a, g := s.Now(), s.given;
    var e, c := s.ProcessOne(6, Node([], Some(Account(2, 101)), 1));
    Again(s.w, s.database.Keys, a, s.Now(), c);
    ghost var all := s.queue;
    var hashes, items := s.Missing(0);
    TookAll(items, s.queue, all, QueueItem(2, s.requests[2].depth));
    ghost var i, j := IndexOf(g, 2), IndexOf(hashes, 2);
    assert s.given[i] == s.given[|g| + j] == 2;
  }

  lemma {:induction false} Again(w: World, db: set<Hash>, a: Snapshot, b: Snapshot, c: bool)
    requires w == ClashWorld(false) && Handled(w, db, a, b, 6, c) && a.order == [] && 2 in db && 2 !in a.requests
    requires 6 in a.requests && a.requests[6].data.None? && a.requests[6].kind == Watched
    ensures 2 in b.requests && QueueItem(2, b.requests[2].depth) in b.queue
  {
    hide MadeFor, NeedsMet, Progress;
    assert !TrieKnown(w, db, Members(a.order), 2);
    assert Verdict(w, a.requests, 6) == None;
    assert !AllKnown(w, Demand(6, Watched), db, Members(a.order));
    NewIsQueued(w, Demand(6, Watched), a.requests[6].depth, a.requests, a.queue, b.requests, b.queue, 2);
  }
}
