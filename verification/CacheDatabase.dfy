/**
 * The reference-counted write-back cache between tries and the disk (trie/database.go).
 *
 * Nodes are content addressed: `content` fixes what a hash stands for, and `rank` says that a
 * node's hash is computed after those of the nodes it refers to. Each public call is one step.
 */
module CacheDatabase {
  import opened Common
  import opened HashSeqs

  const HASH_LENGTH := 32

  const TWO16 := 65536

  /** Collapsed nodes as the cache stores them. */
  datatype Collapsed =
    | RawNode(blob: Bytes)
    | RawShort(key: Bytes, val: Collapsed)
    | RawFull(children: seq<Collapsed>)
    | HashNode(hash: Hash)
    | ValueNode(value: Bytes)
    | NilNode

  /** `gatherChildren`: the hashes inside a collapsed node; the value slot of a full node holds none. */
  function Gather(n: Collapsed): seq<Hash>
    decreases n, 1, 0
  {
    match n
    case RawShort(_, v) => Gather(v)
    case RawFull(cs) => GatherAll(n, if |cs| < 16 then |cs| else 16)
    case HashNode(h) => [h]
    case _ => []
  }

  function GatherAll(n: Collapsed, k: nat): seq<Hash>
    requires n.RawFull? && k <= |n.children|
    decreases n, 0, k
  {
    if k == 0 then [] else GatherAll(n, k - 1) + Gather(n.children[k - 1])
  }

  /**
   * Following `path` into a node one meets the hash reference `h`: a step leads to the value of a short node, or into one
   * of the sixteen child slots of a full node.
   */
  ghost predicate HashAt(n: Collapsed, path: seq<nat>, h: Hash)
    decreases n
  {
    match n
    case HashNode(g) => path == [] && g == h
    case RawShort(_, v) => path != [] && path[0] == 0 && HashAt(v, path[1..], h)
    case RawFull(cs) => path != [] && path[0] < 16 && path[0] < |cs| && HashAt(cs[path[0]], path[1..], h)
    case _ => false
  }

  ghost predicate Holds(n: Collapsed, h: Hash) {
    exists path :: HashAt(n, path, h)
  }

  /** `places` are the places of `h` in a node. */
  ghost predicate Places(n: Collapsed, h: Hash, places: set<seq<nat>>) {
    forall path :: path in places <==> HashAt(n, path, h)
  }

  ghost function Stepped(i: nat, places: set<seq<nat>>): set<seq<nat>> {
    set path | path in places :: [i] + path
  }

  lemma {:induction false} SteppedIn(i: nat, places: set<seq<nat>>, path: seq<nat>)
    ensures path in Stepped(i, places) <==> path != [] && path[0] == i && path[1..] in places
  {
    if path != [] && path[0] == i && path[1..] in places {
      assert path == [i] + path[1..];
    }
  }

  lemma {:induction false} SteppedSize(i: nat, places: set<seq<nat>>)
    ensures |Stepped(i, places)| == |places|
  {
    if path :| path in places {
      SteppedSize(i, places - {path});
      forall q | q in places && q != path
        ensures [i] + q != [i] + path
      {
        assert ([i] + q)[1..] == q && ([i] + path)[1..] == path;
      }
      assert Stepped(i, places) == Stepped(i, places - {path}) + {[i] + path};
    } else {
      assert Stepped(i, places) == {};
    }
  }

  /** The gathered hashes are those met at some place in the node, each as often as there are such places. */
  lemma {:induction false} GatherPlaces(n: Collapsed, h: Hash) returns (places: set<seq<nat>>)
    ensures Places(n, h, places) && |places| == multiset(Gather(n))[h]
    ensures h in Gather(n) <==> Holds(n, h)
    decreases n, 1, 0
  {
    match n
    case HashNode(g) =>
      places := if g == h then {[]} else {};
    case RawShort(_, v) =>
      var below := GatherPlaces(v, h);
      places := Stepped(0, below);
      SteppedSize(0, below);
      forall path
        ensures path in places <==> HashAt(n, path, h)
      {
        SteppedIn(0, below, path);
      }
    case RawFull(cs) =>
      places := SlotPlaces(n, if |cs| < 16 then |cs| else 16, h);
    case _ =>
      places := {};
    PlacesHold(n, h, places);
  }

  lemma {:induction false} SlotPlaces(n: Collapsed, k: nat, h: Hash) returns (places: set<seq<nat>>)
    requires n.RawFull? && k <= |n.children| && k <= 16
    ensures forall path :: path in places <==> path != [] && path[0] < k && HashAt(n, path, h)
    ensures |places| == multiset(GatherAll(n, k))[h]
    decreases n, 0, k
  {
    if k == 0 {
      places := {};
    } else {
      hide Stepped, Gather;
      var before := SlotPlaces(n, k - 1, h);
      var below := GatherPlaces(n.children[k - 1], h);
      var slot := Stepped(k - 1, below);
      SteppedSize(k - 1, below);
      OneSlot(n, k - 1, h, below);
      hide HashAt;
      assert before !! slot;
      places := before + slot;
    }
  }

  lemma {:induction false} OneSlot(n: Collapsed, i: nat, h: Hash, below: set<seq<nat>>)
    requires n.RawFull? && i < |n.children| && i < 16 && Places(n.children[i], h, below)
    ensures forall path :: path in Stepped(i, below) <==> path != [] && path[0] == i && HashAt(n, path, h)
  {
    forall path
      ensures path in Stepped(i, below) <==> path != [] && path[0] == i && HashAt(n, path, h)
    {
      SteppedIn(i, below, path);
    }
  }

  lemma {:induction false} PlacesHold(n: Collapsed, h: Hash, places: set<seq<nat>>)
    requires Places(n, h, places) && |places| == multiset(Gather(n))[h]
    ensures h in Gather(n) <==> Holds(n, h)
  {
    hide Gather, HashAt;
    if h in Gather(n) {
      assert h in multiset(Gather(n));
      var path :| path in places;
    }
    if path :| HashAt(n, path, h) {
      assert path in places;
      assert h in multiset(Gather(n));
    }
  }

  datatype Entry = Entry(node: Collapsed, size: nat, parents: nat, children: map<Hash, nat>,
                         flushPrev: Hash, flushNext: Hash)

  type Nodes = map<Hash, Entry>

  /** What a cached node refers to: its implicit children, with repetition, and its explicit ones. */
  function Links(e: Entry): multiset<Hash> {
    multiset(Gather(e.node)) + multiset(e.children.Keys)
  }

  /** How often the meta-root refers to a node. */
  function Roots(nodes: Nodes, h: Hash): nat {
    if ZERO in nodes && h in nodes[ZERO].children then nodes[ZERO].children[h] else 0
  }

  /** Whether adding the hash length to a 16-bit size wraps around. */
  function Wraps(size: nat): (n: nat)
    requires size < TWO16
    ensures (HASH_LENGTH + size) % TWO16 == HASH_LENGTH + size - TWO16 * n
  {
    if HASH_LENGTH + size < TWO16 then 0 else 1
  }

  // ---------------------------------------------------------------- the flush list

  /** What follows position `i` of the flush list. */
  ghost function After(order: seq<Hash>, i: nat): Hash {
    if i + 1 < |order| then order[i + 1] else ZERO
  }

  /** `order` is what one visits from `oldest` along `flushNext`; the head's `flushPrev` may be stale. */
  ghost predicate ListOk(nodes: Nodes, order: seq<Hash>, oldest: Hash, newest: Hash) {
    && ZERO in nodes && ZERO !in order && Distinct(order)
    && (forall h :: h in order ==> h in nodes)
    && oldest == (if order == [] then ZERO else order[0])
    && (order != [] ==> newest == order[|order| - 1])
    && (forall i :: 0 <= i < |order| ==> nodes[order[i]].flushNext == After(order, i))
    && (forall i :: 0 < i < |order| ==> nodes[order[i]].flushPrev == order[i - 1])
  }

  /** Entries differ in their flush pointers only. */
  ghost predicate SameButFlush(a: Nodes, b: Nodes) {
    && a.Keys == b.Keys
    && forall h :: h in a ==> a[h].(flushPrev := 0, flushNext := 0) == b[h].(flushPrev := 0, flushNext := 0)
  }

  /** Pointer surgery around position `i`. */
  ghost predicate Relinked(a: Nodes, b: Nodes, order: seq<Hash>, i: nat)
    requires i < |order| && (forall h :: h in order ==> h in a) && SameButFlush(a, b)
  {
    && (forall j :: 0 <= j < |order| && j != i && j + 1 != i ==> b[order[j]].flushNext == a[order[j]].flushNext)
    && (forall j :: 0 <= j < |order| && j != i && j != i + 1 ==> b[order[j]].flushPrev == a[order[j]].flushPrev)
    && (0 < i ==> b[order[i - 1]].flushNext == a[order[i]].flushNext)
    && (0 < i < |order| - 1 ==> b[order[i + 1]].flushPrev == order[i - 1])
  }

  lemma {:induction false} UnlinkOk(a: Nodes, b: Nodes, order: seq<Hash>, i: nat, oldest: Hash, newest: Hash)
    requires i < |order| && ListOk(a, order, oldest, newest) && SameButFlush(a, b) && Relinked(a, b, order, i)
    ensures ListOk(b, Cut(order, i), if i == 0 then a[order[0]].flushNext else oldest,
                   if 0 < i == |order| - 1 then order[i - 1] else newest)
  {
    hide Relinked, Distinct;
    var o := Cut(order, i);
    CutMembers(order, i);
    UnlinkPrev(a, b, order, i, o, oldest, newest);
    UnlinkNext(a, b, order, i, o, oldest, newest);
  }

  lemma {:induction false} UnlinkPrev(a: Nodes, b: Nodes, order: seq<Hash>, i: nat, o: seq<Hash>, oldest: Hash, newest: Hash)
    requires i < |order| && ListOk(a, order, oldest, newest) && SameButFlush(a, b) && Relinked(a, b, order, i)
    requires o == Cut(order, i)
    ensures forall j :: 0 < j < |o| ==> o[j] in b && b[o[j]].flushPrev == o[j - 1]
  {
    hide Cut, Distinct, After;
    CutLength(order, i);
    forall j | 0 < j < |o|
      ensures o[j] in b && b[o[j]].flushPrev == o[j - 1]
    {
      CutAt(order, i, j);
      CutAt(order, i, j - 1);
    }
  }

  lemma {:induction false} UnlinkNext(a: Nodes, b: Nodes, order: seq<Hash>, i: nat, o: seq<Hash>, oldest: Hash, newest: Hash)
    requires i < |order| && ListOk(a, order, oldest, newest) && SameButFlush(a, b) && Relinked(a, b, order, i)
    requires o == Cut(order, i)
    ensures forall j :: 0 <= j < |o| ==> o[j] in b && b[o[j]].flushNext == After(o, j)
  {
    hide Cut, ListOk, SameButFlush, Relinked, After;
    forall j | 0 <= j < |o|
      ensures o[j] in b && b[o[j]].flushNext == After(o, j)
    {
      UnlinkNextAt(a, b, order, i, o, oldest, newest, j);
    }
  }

  lemma {:induction false} UnlinkNextAt(a: Nodes, b: Nodes, order: seq<Hash>, i: nat, o: seq<Hash>, oldest: Hash, newest: Hash, j: nat)
    requires i < |order| && ListOk(a, order, oldest, newest) && SameButFlush(a, b) && Relinked(a, b, order, i)
    requires o == Cut(order, i) && j < |o|
    ensures o[j] in b && b[o[j]].flushNext == After(o, j)
  {
    hide Cut, Distinct, ListOk, SameButFlush, Relinked;
    CutLength(order, i);
    CutAt(order, i, j);
    if j + 1 < |o| {
      CutAt(order, i, j + 1);
    }
    Bridged(a, b, order, i, oldest, newest, if j < i then j else j + 1);
  }

  /** Every other node points past the one taken out. */
  lemma {:induction false} Bridged(a: Nodes, b: Nodes, order: seq<Hash>, i: nat, oldest: Hash, newest: Hash, k: nat)
    requires i < |order| && ListOk(a, order, oldest, newest) && SameButFlush(a, b) && Relinked(a, b, order, i)
    requires k < |order| && k != i
    ensures order[k] in b && b[order[k]].flushNext == After(order, if k + 1 == i then i else k)
  {
    hide Distinct, After;
    assert order[k] in order && order[i] in order;
  }

  /** Where a listed node stands, from what the switch compares. */
  lemma {:induction false} Position(nodes: Nodes, order: seq<Hash>, oldest: Hash, newest: Hash, i: nat)
    requires ListOk(nodes, order, oldest, newest) && i < |order|
    ensures order[i] in nodes && ZERO in nodes && order[i] != ZERO
    ensures order[i] == oldest <==> i == 0
    ensures order[i] == newest <==> i == |order| - 1
    ensures nodes[order[i]].flushNext == After(order, i) && After(order, i) in nodes
    ensures i > 0 ==> nodes[order[i]].flushPrev == order[i - 1] && order[i - 1] in nodes && order[i - 1] != ZERO
    ensures After(order, i) == ZERO || After(order, i) in order
  {
    assert order[i] in order;
    assert i > 0 ==> order[i - 1] in order;
    assert i + 1 < |order| ==> order[i + 1] in order;
  }

  lemma {:induction false} UnlinkFirst(nodes: Nodes, order: seq<Hash>, oldest: Hash, newest: Hash)
    requires ListOk(nodes, order, oldest, newest) && order != []
    ensures After(order, 0) in nodes
    ensures var b := nodes[After(order, 0) := nodes[After(order, 0)].(flushPrev := ZERO)];
            SameButFlush(nodes, b) && ListOk(b, Cut(order, 0), After(order, 0), newest)
  {
    Position(nodes, order, oldest, newest, 0);
    var b := nodes[After(order, 0) := nodes[After(order, 0)].(flushPrev := ZERO)];
    assert Relinked(nodes, b, order, 0);
    UnlinkOk(nodes, b, order, 0, oldest, newest);
  }

  lemma {:induction false} UnlinkLast(nodes: Nodes, order: seq<Hash>, oldest: Hash, newest: Hash)
    requires ListOk(nodes, order, oldest, newest) && |order| > 1
    ensures order[|order| - 2] in nodes
    ensures var p := order[|order| - 2];
            var b := nodes[p := nodes[p].(flushNext := ZERO)];
            SameButFlush(nodes, b) && ListOk(b, Cut(order, |order| - 1), oldest, p)
  {
    var n := |order| - 1;
    Position(nodes, order, oldest, newest, n);
    var b := nodes[order[n - 1] := nodes[order[n - 1]].(flushNext := ZERO)];
    assert Relinked(nodes, b, order, n);
    UnlinkOk(nodes, b, order, n, oldest, newest);
  }

  lemma {:induction false} UnlinkMiddle(nodes: Nodes, order: seq<Hash>, oldest: Hash, newest: Hash, i: nat)
    requires ListOk(nodes, order, oldest, newest) && 0 < i < |order| - 1
    ensures order[i - 1] in nodes && order[i + 1] in nodes && order[i - 1] != order[i + 1]
    ensures var p, n := order[i - 1], order[i + 1];
            var b := nodes[p := nodes[p].(flushNext := n)][n := nodes[n].(flushPrev := p)];
            SameButFlush(nodes, b) && ListOk(b, Cut(order, i), oldest, newest)
  {
    hide Relinked, SameButFlush;
    Position(nodes, order, oldest, newest, i);
    var p, n := order[i - 1], order[i + 1];
    var b := nodes[p := nodes[p].(flushNext := n)][n := nodes[n].(flushPrev := p)];
    MiddleRelinked(nodes, order, i);
    UnlinkOk(nodes, b, order, i, oldest, newest);
  }

  lemma {:induction false} MiddleRelinked(nodes: Nodes, order: seq<Hash>, i: nat)
    requires 0 < i < |order| - 1 && Distinct(order) && (forall h :: h in order ==> h in nodes)
    requires nodes[order[i]].flushNext == order[i + 1]
    ensures var p, n := order[i - 1], order[i + 1];
            var b := nodes[p := nodes[p].(flushNext := n)][n := nodes[n].(flushPrev := p)];
            SameButFlush(nodes, b) && Relinked(nodes, b, order, i)
  {
    var p, n := order[i - 1], order[i + 1];
    var b := nodes[p := nodes[p].(flushNext := n)][n := nodes[n].(flushPrev := p)];
    assert p in nodes && n in nodes && p != n;
    forall j | 0 <= j < |order|
      ensures j + 1 != i ==> b[order[j]].flushNext == nodes[order[j]].flushNext
      ensures j != i + 1 ==> b[order[j]].flushPrev == nodes[order[j]].flushPrev
    {
    }
  }

  // ---------------------------------------------------------------- sums over cached nodes

  /** All references held by the nodes of `s`. */
  ghost function AllLinks(nodes: Nodes, s: seq<Hash>): multiset<Hash> {
    if s == [] then multiset{} else
      AllLinks(nodes, s[..|s| - 1]) + LinksOf(nodes, s[|s| - 1])
  }

  ghost function LinksOf(nodes: Nodes, h: Hash): multiset<Hash> {
    if h in nodes then Links(nodes[h]) else multiset{}
  }

  /** Memory accounted to the nodes of `s`. */
  ghost function Sizes(nodes: Nodes, s: seq<Hash>): nat {
    if s == [] then 0 else Sizes(nodes, s[..|s| - 1]) + SizeOf(nodes, s[|s| - 1])
  }

  ghost function SizeOf(nodes: Nodes, h: Hash): nat {
    if h in nodes then HASH_LENGTH + nodes[h].size else 0
  }

  /** Entries of `s` keep their contents, explicit children and size. */
  ghost predicate SameContents(a: Nodes, b: Nodes, s: seq<Hash>) {
    forall h :: h in s ==>
      h in a && h in b && a[h].node == b[h].node && a[h].children == b[h].children && a[h].size == b[h].size
  }

  lemma {:induction false} SumsFrame(a: Nodes, b: Nodes, s: seq<Hash>)
    requires SameContents(a, b, s)
    ensures AllLinks(a, s) == AllLinks(b, s) && Sizes(a, s) == Sizes(b, s)
  {
    if s != [] {
      SumsFrame(a, b, s[..|s| - 1]);
      assert s[|s| - 1] in s;
    }
  }

  lemma {:induction false} SumsConcat(nodes: Nodes, a: seq<Hash>, b: seq<Hash>)
    ensures AllLinks(nodes, a + b) == AllLinks(nodes, a) + AllLinks(nodes, b)
    ensures Sizes(nodes, a + b) == Sizes(nodes, a) + Sizes(nodes, b)
  {
    hide LinksOf, SizeOf;
    if b == [] {
      assert a + b == a;
    } else {
      var i := b[..|b| - 1];
      SumsConcat(nodes, a, i);
      assert (a + b)[..|a + b| - 1] == a + i;
    }
  }

  lemma {:induction false} SumsOne(nodes: Nodes, x: Hash)
    ensures AllLinks(nodes, [x]) == LinksOf(nodes, x) && Sizes(nodes, [x]) == SizeOf(nodes, x)
  {
    assert [x][..0] == [];
  }

  lemma {:induction false} SumsWithout(nodes: Nodes, s: seq<Hash>, x: Hash)
    requires x in s
    ensures AllLinks(nodes, s) == AllLinks(nodes, Without(s, x)) + LinksOf(nodes, x)
    ensures Sizes(nodes, s) == Sizes(nodes, Without(s, x)) + SizeOf(nodes, x)
  {
    hide LinksOf, SizeOf, AllLinks, Sizes;
    var i := IndexOf(s, x);
    assert s == s[..i] + ([x] + s[i + 1..]);
    SumsConcat(nodes, s[..i], [x] + s[i + 1..]);
    SumsConcat(nodes, [x], s[i + 1..]);
    SumsConcat(nodes, s[..i], s[i + 1..]);
    SumsOne(nodes, x);
  }

  lemma {:induction false} LinkCounted(nodes: Nodes, s: seq<Hash>, p: Hash, c: Hash)
    requires p in s && p in nodes && c in Links(nodes[p])
    ensures c in AllLinks(nodes, s)
  {
    SumsWithout(nodes, s, p);
  }

  // ---------------------------------------------------------------- invariants

  /** Cached are the meta-root, the nodes of the flush list, and those `flight` taken off it to be dropped. */
  ghost predicate Domain(nodes: Nodes, order: seq<Hash>, flight: set<Hash>) {
    && (forall h :: h in nodes <==> h == ZERO || h in order || h in flight)
    && (forall h :: h in flight ==> h != ZERO && h !in order)
  }

  /** A cached node refers to nodes on disk and to nodes cached before it. */
  ghost predicate Ordered(nodes: Nodes, order: seq<Hash>, disk: set<Hash>) {
    forall i, c :: 0 <= i < |order| && c in LinksOf(nodes, order[i]) ==> c in disk || c in order[..i]
  }

  /** A node not on disk counts its references exactly; `debt` are references given up but not yet subtracted. */
  ghost predicate Counted(nodes: Nodes, order: seq<Hash>, disk: set<Hash>, debt: multiset<Hash>) {
    forall h :: h in order && h in nodes && h !in disk ==>
      nodes[h].parents == AllLinks(nodes, order)[h] + debt[h] + Roots(nodes, h)
  }

  /** The meta-root refers to cached nodes and nodes on disk. */
  ghost predicate RootsOk(nodes: Nodes, order: seq<Hash>, disk: set<Hash>) {
    && ZERO in nodes
    && forall r :: r in nodes[ZERO].children ==> nodes[ZERO].children[r] > 0 && (r in order || r in disk)
  }

  /** Cached nodes have the contents their hash stands for, and refer downwards in rank. */
  ghost predicate Ranked(content: Hash -> Collapsed, rank: Hash -> nat, nodes: Nodes) {
    forall p :: p in nodes && p != ZERO ==> RankedEntry(content, rank, p, nodes[p])
  }

  ghost predicate RankedEntry(content: Hash -> Collapsed, rank: Hash -> nat, p: Hash, e: Entry) {
    e.node == content(p) && forall c :: c in Links(e) ==> c != ZERO && rank(c) < rank(p)
  }

  lemma {:induction false} SameRanked(content: Hash -> Collapsed, rank: Hash -> nat, p: Hash, e: Entry, f: Entry)
    requires e.node == f.node && e.children == f.children
    ensures RankedEntry(content, rank, p, e) == RankedEntry(content, rank, p, f)
  {
    assert Links(e) == Links(f);
  }

  lemma {:induction false} RankedFrame(content: Hash -> Collapsed, rank: Hash -> nat, a: Nodes, b: Nodes)
    requires Ranked(content, rank, a) && b.Keys <= a.Keys
    requires forall h :: h in b ==> a[h].node == b[h].node && a[h].children == b[h].children
    ensures Ranked(content, rank, b)
  {
    hide RankedEntry;
    forall p | p in b && p != ZERO
      ensures RankedEntry(content, rank, p, b[p])
    {
      SameRanked(content, rank, p, a[p], b[p]);
    }
  }

  lemma {:induction false} ListFrame(a: Nodes, b: Nodes, order: seq<Hash>, oldest: Hash, newest: Hash)
    requires ListOk(a, order, oldest, newest) && ZERO in b
    requires forall h :: h in order ==> h in b && a[h].flushPrev == b[h].flushPrev && a[h].flushNext == b[h].flushNext
    ensures ListOk(b, order, oldest, newest)
  {
    hide Distinct, After;
  }

  /** `written` gives, for each node on disk, the children it had when written: they are on disk too. */
  ghost predicate DiskClosed(content: Hash -> Collapsed, written: map<Hash, set<Hash>>) {
    forall p, c :: p in written && (c in Gather(content(p)) || c in written[p]) ==> c in written
  }

  ghost predicate DiskOkOn(content: Hash -> Collapsed, rank: Hash -> nat, disk: map<Hash, Collapsed>, written: map<Hash, set<Hash>>) {
    && WellFounded(content, rank) && DiskClosed(content, written)
    && disk.Keys == written.Keys && forall h :: h in disk ==> disk[h] == content(h)
  }

  ghost predicate WellFounded(content: Hash -> Collapsed, rank: Hash -> nat) {
    forall p :: RankedNode(content, rank, p)
  }

  ghost predicate RankedNode(content: Hash -> Collapsed, rank: Hash -> nat, p: Hash) {
    forall c :: c in Gather(content(p)) ==> c != ZERO && rank(c) < rank(p)
  }

  /** What the three counting invariants look at. */
  ghost predicate Agree(a: Nodes, b: Nodes, order: seq<Hash>) {
    && ZERO in a && ZERO in b && a[ZERO].children == b[ZERO].children
    && SameContents(a, b, order)
    && forall h :: h in order ==> a[h].parents == b[h].parents
  }

  lemma {:induction false} InvFrame(a: Nodes, b: Nodes, order: seq<Hash>, disk: set<Hash>, debt: multiset<Hash>)
    requires Agree(a, b, order) && Ordered(a, order, disk) && Counted(a, order, disk, debt) && RootsOk(a, order, disk)
    ensures Ordered(b, order, disk) && Counted(b, order, disk, debt) && RootsOk(b, order, disk)
  {
    hide AllLinks, Sizes;
    SumsFrame(a, b, order);
    forall i, c | 0 <= i < |order| && c in LinksOf(b, order[i])
      ensures c in disk || c in order[..i]
    {
      assert order[i] in order;
      assert c in LinksOf(a, order[i]);
    }
  }

  /** Taking a node off the list: nobody depends on it, and its references become debt. */
  lemma {:induction false} Drop(nodes: Nodes, order: seq<Hash>, disk: set<Hash>, debt: multiset<Hash>, x: Hash)
    requires Distinct(order) && x in order && x in nodes
    requires Ordered(nodes, order, disk) && Counted(nodes, order, disk, debt) && RootsOk(nodes, order, disk)
    requires x in disk || nodes[x].parents == 0
    ensures Ordered(nodes, Without(order, x), disk)
    ensures Counted(nodes, Without(order, x), disk, debt + Links(nodes[x]))
    ensures RootsOk(nodes, Without(order, x), disk)
  {
    hide AllLinks, Links;
    var i := IndexOf(order, x);
    CutMembers(order, i);
    SumsWithout(nodes, order, x);
    DropOrdered(nodes, order, disk, debt, x);
  }

  lemma {:induction false} DropOrdered(nodes: Nodes, order: seq<Hash>, disk: set<Hash>, debt: multiset<Hash>, x: Hash)
    requires Distinct(order) && x in order && x in nodes
    requires Ordered(nodes, order, disk) && Counted(nodes, order, disk, debt)
    requires x in disk || nodes[x].parents == 0
    ensures Ordered(nodes, Without(order, x), disk)
  {
    hide LinksOf, Without, Counted, Distinct;
    var o := Without(order, x);
    forall j, c | 0 <= j < |o| && c in LinksOf(nodes, o[j])
      ensures c in disk || c in o[..j]
    {
      DropOrderedAt(nodes, order, disk, debt, x, j, c);
    }
  }

  lemma {:induction false} DropOrderedAt(nodes: Nodes, order: seq<Hash>, disk: set<Hash>, debt: multiset<Hash>, x: Hash, j: nat, c: Hash)
    requires Distinct(order) && x in order && x in nodes
    requires Ordered(nodes, order, disk) && Counted(nodes, order, disk, debt)
    requires x in disk || nodes[x].parents == 0
    requires j < |Without(order, x)| && c in LinksOf(nodes, Without(order, x)[j])
    ensures c in disk || c in Without(order, x)[..j]
  {
    hide AllLinks, Links, Distinct;
    var i, o := IndexOf(order, x), Without(order, x);
    var k := if j < i then j else j + 1;
    assert o[j] == order[k];
    if c !in disk {
      assert c != x by {
        LinkCounted(nodes, order, order[k], c);
      }
      var m := IndexOf(order[..k], c);
      assert order[m] == c && m != i;
      assert o[if m < i then m else m - 1] == c;
    }
  }

  /** Giving one reference back subtracts it from a node that is not on disk. */
  function Decremented(e: Entry): Entry {
    e.(parents := if e.parents > 0 then e.parents - 1 else 0)
  }

  lemma {:induction false} Subtract(nodes: Nodes, order: seq<Hash>, disk: set<Hash>, debt: multiset<Hash>, x: Hash)
    requires x in order && x in nodes && x != ZERO
    requires Ordered(nodes, order, disk) && Counted(nodes, order, disk, debt + multiset{x}) && RootsOk(nodes, order, disk)
    ensures var b := nodes[x := Decremented(nodes[x])];
            Ordered(b, order, disk) && Counted(b, order, disk, debt) && RootsOk(b, order, disk)
  {
    hide AllLinks, Links, Ordered;
    var b := nodes[x := Decremented(nodes[x])];
    assert Ordered(b, order, disk) by {
      SubtractOrdered(nodes, b, order, disk);
    }
    SumsFrame2(nodes, b, order);
  }

  /** Nodes differ in their counts and flush pointers only. */
  ghost predicate SameLinks(a: Nodes, b: Nodes) {
    a.Keys == b.Keys && forall h :: h in a ==> a[h].node == b[h].node && a[h].children == b[h].children && a[h].size == b[h].size
  }

  lemma {:induction false} SubtractOrdered(a: Nodes, b: Nodes, order: seq<Hash>, disk: set<Hash>)
    requires SameLinks(a, b) && Ordered(a, order, disk)
    ensures Ordered(b, order, disk)
  {
    forall i, c | 0 <= i < |order| && c in LinksOf(b, order[i])
      ensures c in disk || c in order[..i]
    {
      assert c in LinksOf(a, order[i]);
    }
  }

  lemma {:induction false} SumsFrame2(a: Nodes, b: Nodes, s: seq<Hash>)
    requires SameLinks(a, b)
    ensures AllLinks(a, s) == AllLinks(b, s) && Sizes(a, s) == Sizes(b, s)
  {
    if s != [] {
      SumsFrame2(a, b, s[..|s| - 1]);
    }
  }

  /** What giving references back does to the nodes that stay: counts go down, none newly reaches zero. */
  ghost predicate Shrunk(a: Nodes, ao: seq<Hash>, b: Nodes, bo: seq<Hash>) {
    && bo == Kept(ao, Members(bo))
    && b.Keys <= a.Keys
    && ZERO in b && b[ZERO].children == a[ZERO].children
    && forall h :: h in bo ==> h in ao && h in b && Lessened(a[h], b[h])
  }

  ghost predicate Lessened(e: Entry, f: Entry) {
    && f.node == e.node && f.children == e.children && f.size == e.size
    && f.parents <= e.parents && (f.parents == 0 ==> e.parents == 0)
  }

  /** Listed nodes are cached, distinct, and not the meta-root. */
  ghost predicate Plain(nodes: Nodes, order: seq<Hash>) {
    ZERO in nodes && ZERO !in order && Distinct(order) && forall h :: h in order ==> h in nodes
  }

  lemma {:induction false} ShrunkTrans(a: Nodes, ao: seq<Hash>, b: Nodes, bo: seq<Hash>, c: Nodes, co: seq<Hash>)
    requires Shrunk(a, ao, b, bo) && Shrunk(b, bo, c, co)
    ensures Shrunk(a, ao, c, co)
  {
    KeptTwice(ao, Members(bo), Members(co));
  }

  // ---------------------------------------------------------------- the steps of giving a reference back

  ghost predicate InvOn(content: Hash -> Collapsed, rank: Hash -> nat, nodes: Nodes, order: seq<Hash>, oldest: Hash, newest: Hash,
                        disk: set<Hash>, debt: multiset<Hash>, flight: set<Hash>)
  {
    && ListOk(nodes, order, oldest, newest) && Domain(nodes, order, flight)
    && Ordered(nodes, order, disk) && Counted(nodes, order, disk, debt) && RootsOk(nodes, order, disk)
    && Ranked(content, rank, nodes)
  }

  /** A reference to a node that is not cached is simply forgotten. */
  lemma {:induction false} ReleaseMissing(content: Hash -> Collapsed, rank: Hash -> nat, nodes: Nodes, order: seq<Hash>, oldest: Hash,
                                          newest: Hash, disk: set<Hash>, debt: multiset<Hash>, flight: set<Hash>, x: Hash)
    requires InvOn(content, rank, nodes, order, oldest, newest, disk, debt + multiset{x}, flight) && x !in nodes
    ensures InvOn(content, rank, nodes, order, oldest, newest, disk, debt, flight)
    ensures Shrunk(nodes, order, nodes, order)
  {
    hide ListOk, Ordered, Ranked, AllLinks;
    ShrunkSelf(nodes, order, oldest, newest);
  }

  lemma {:induction false} ShrunkSelf(nodes: Nodes, order: seq<Hash>, oldest: Hash, newest: Hash)
    requires ListOk(nodes, order, oldest, newest)
    ensures Shrunk(nodes, order, nodes, order)
  {
    KeptAll(order, Members(order));
  }

  lemma {:induction false} ReleaseSubtract(content: Hash -> Collapsed, rank: Hash -> nat, nodes: Nodes, order: seq<Hash>, oldest: Hash,
                                           newest: Hash, disk: set<Hash>, debt: multiset<Hash>, flight: set<Hash>, x: Hash)
    requires InvOn(content, rank, nodes, order, oldest, newest, disk, debt + multiset{x}, flight) && x in order
    ensures x in nodes && x != ZERO
    ensures InvOn(content, rank, nodes[x := Decremented(nodes[x])], order, oldest, newest, disk, debt, flight)
    ensures SameLinks(nodes, nodes[x := Decremented(nodes[x])])
  {
    hide Ordered, Counted, RootsOk, Links, Distinct, After, Ranked;
    var b := nodes[x := Decremented(nodes[x])];
    Subtract(nodes, order, disk, debt, x);
    RankedFrame(content, rank, nodes, b);
    ListFrame(nodes, b, order, oldest, newest);
  }

  lemma {:induction false} ReleaseUnlinked(content: Hash -> Collapsed, rank: Hash -> nat, nodes: Nodes, order: seq<Hash>, oldest: Hash,
                                           newest: Hash, disk: set<Hash>, debt: multiset<Hash>, flight: set<Hash>, x: Hash,
                                           b: Nodes, bOldest: Hash, bNewest: Hash)
    requires InvOn(content, rank, nodes, order, oldest, newest, disk, debt, flight) && x in order
    requires x in nodes && (x in disk || nodes[x].parents == 0)
    requires SameButFlush(nodes, b) && ListOk(b, Without(order, x), bOldest, bNewest)
    ensures InvOn(content, rank, b, Without(order, x), bOldest, bNewest, disk, debt + Links(nodes[x]), flight + {x})
  {
    hide Ordered, Counted, RootsOk, Links, After, Ranked, Cut, Distinct;
    CutMembers(order, IndexOf(order, x));
    Drop(nodes, order, disk, debt, x);
    RankedFrame(content, rank, nodes, b);
    DropDomain(nodes, b, order, flight, x);
    InvFrame(nodes, b, Without(order, x), disk, debt + Links(nodes[x]));
  }

  lemma {:induction false} DropDomain(nodes: Nodes, b: Nodes, order: seq<Hash>, flight: set<Hash>, x: Hash)
    requires Domain(nodes, order, flight) && x in order && x != ZERO && b.Keys == nodes.Keys && Distinct(order)
    ensures Domain(b, Without(order, x), flight + {x})
  {
    CutMembers(order, IndexOf(order, x));
    hide Cut;
  }

  /** Removing the first kind of record: a parent's explicit reference to a child. */
  function Detached(e: Entry, child: Hash): Entry {
    if child !in e.children || e.children[child] == 0 then e
    else if e.children[child] == 1 then e.(children := e.children - {child})
    else e.(children := e.children[child := e.children[child] - 1])
  }

  lemma {:induction false} DetachedSize(e: Entry, c: Hash)
    ensures Detached(e, c).size == e.size
  {
  }

  /** Nothing looks at the entries of nodes in flight. */
  lemma {:induction false} ReleaseFlight(content: Hash -> Collapsed, rank: Hash -> nat, nodes: Nodes, order: seq<Hash>, oldest: Hash,
                                         newest: Hash, disk: set<Hash>, debt: multiset<Hash>, flight: set<Hash>, x: Hash, c: Hash)
    requires InvOn(content, rank, nodes, order, oldest, newest, disk, debt, flight) && x in flight
    ensures x in nodes
    ensures InvOn(content, rank, nodes[x := Detached(nodes[x], c)], order, oldest, newest, disk, debt, flight)
    ensures InvOn(content, rank, nodes - {x}, order, oldest, newest, disk, debt, flight - {x})
  {
    hide Ordered, Counted, RootsOk, Ranked, Distinct, After;
    var b, d := nodes[x := Detached(nodes[x], c)], nodes - {x};
    ListFrame(nodes, b, order, oldest, newest);
    ListFrame(nodes, d, order, oldest, newest);
    InvFrame(nodes, b, order, disk, debt);
    InvFrame(nodes, d, order, disk, debt);
    FlightRanked(content, rank, nodes, x, c);
  }

  lemma {:induction false} FlightRanked(content: Hash -> Collapsed, rank: Hash -> nat, nodes: Nodes, x: Hash, c: Hash)
    requires Ranked(content, rank, nodes) && x in nodes
    ensures Ranked(content, rank, nodes[x := Detached(nodes[x], c)]) && Ranked(content, rank, nodes - {x})
  {
    hide RankedEntry;
    if x != ZERO {
      DetachRanked(content, rank, x, nodes[x], c);
    }
  }

  lemma {:induction false} LinkCases(e: Entry, k: Hash)
    ensures k in Links(e) <==> k in Gather(e.node) || k in e.children
  {
    hide Gather;
  }

  lemma {:induction false} DetachRanked(content: Hash -> Collapsed, rank: Hash -> nat, p: Hash, e: Entry, c: Hash)
    requires RankedEntry(content, rank, p, e)
    ensures RankedEntry(content, rank, p, Detached(e, c))
  {
    hide Links, Gather;
    var f := Detached(e, c);
    assert f.node == e.node && f.children.Keys <= e.children.Keys;
    forall k | k in Links(f)
      ensures k in Links(e)
    {
      LinkCases(e, k);
      LinkCases(f, k);
    }
  }

  /** A cached node below the nodes in flight is on the list. */
  lemma {:induction false} Listed(content: Hash -> Collapsed, rank: Hash -> nat, nodes: Nodes, order: seq<Hash>, oldest: Hash,
                                  newest: Hash, disk: set<Hash>, debt: multiset<Hash>, flight: set<Hash>, x: Hash)
    requires InvOn(content, rank, nodes, order, oldest, newest, disk, debt, flight)
    ensures ListOk(nodes, order, oldest, newest) && Plain(nodes, order)
    ensures x in nodes && x != ZERO && x !in flight ==> x in order
    ensures forall f :: f in flight ==> f in nodes && f != ZERO && f !in order
    ensures x in nodes && x != ZERO ==> forall c :: c in Links(nodes[x]) ==> c != ZERO && rank(c) < rank(x)
  {
    hide Links, After, Distinct;
  }

  lemma {:induction false} ShrunkSubtract(nodes: Nodes, order: seq<Hash>, x: Hash)
    requires Plain(nodes, order) && x in order && Decremented(nodes[x]).parents > 0
    ensures Shrunk(nodes, order, nodes[x := Decremented(nodes[x])], order)
    ensures Sizes(nodes[x := Decremented(nodes[x])], order) == Sizes(nodes, order)
  {
    hide Sizes, AllLinks, Distinct, Kept, Decremented, Lessened;
    KeptAll(order, Members(order));
    DecrementLessens(nodes[x]);
    assert forall e: Entry :: Lessened(e, e) by {
      forall e: Entry ensures Lessened(e, e) { LessenedSelf(e); }
    }
    SumsFrame2(nodes, nodes[x := Decremented(nodes[x])], order);
  }

  lemma {:induction false} LessenedSelf(e: Entry)
    ensures Lessened(e, e)
  {
  }

  lemma {:induction false} DecrementLessens(e: Entry)
    requires Decremented(e).parents > 0
    ensures Lessened(e, Decremented(e)) && Decremented(e).node == e.node && Decremented(e).children == e.children
    ensures Decremented(e).size == e.size
  {
  }

  lemma {:induction false} ShrunkUnlink(nodes: Nodes, order: seq<Hash>, x: Hash, b: Nodes)
    requires Plain(nodes, order) && x in order
    requires SameButFlush(nodes[x := Decremented(nodes[x])], b)
    ensures Shrunk(nodes, order, b, Without(order, x))
    ensures Sizes(b, Without(order, x)) + HASH_LENGTH + nodes[x].size == Sizes(nodes, order)
    ensures x in b && Links(b[x]) == Links(nodes[x]) && b[x].size == nodes[x].size
  {
    hide Sizes, AllLinks, Without, Distinct, Kept, Links, Members, SameButFlush, Lessened, Decremented;
    var o := Without(order, x);
    WithoutMembers(order, x);
    FlushContents(nodes, x, b);
    assert o == Kept(order, Members(o)) by {
      KeptOthers(order, x);
    }
    assert Sizes(b, o) + HASH_LENGTH + nodes[x].size == Sizes(nodes, order) by {
      SumsWithout(nodes, order, x);
      SumsFrame(nodes, b, o);
    }
  }

  lemma {:induction false} FlushContents(nodes: Nodes, x: Hash, b: Nodes)
    requires x in nodes && SameButFlush(nodes[x := Decremented(nodes[x])], b)
    ensures b.Keys == nodes.Keys
    ensures forall h :: h in nodes ==> nodes[h].node == b[h].node && nodes[h].children == b[h].children && nodes[h].size == b[h].size
    ensures forall h :: h in nodes && h != x ==> Lessened(nodes[h], b[h])
    ensures Links(b[x]) == Links(nodes[x])
  {
    var a := nodes[x := Decremented(nodes[x])];
    forall h | h in nodes
      ensures nodes[h].node == b[h].node && nodes[h].children == b[h].children && nodes[h].size == b[h].size
      ensures h != x ==> nodes[h].parents == b[h].parents
    {
      assert a[h].(flushPrev := 0, flushNext := 0) == b[h].(flushPrev := 0, flushNext := 0);
    }
  }

  lemma {:induction false} PlainBefore(nodes: Nodes, order: seq<Hash>, x: Hash)
    requires x in nodes && Plain(nodes[x := Decremented(nodes[x])], order)
    ensures Plain(nodes, order)
    ensures Links(Decremented(nodes[x])) == Links(nodes[x])
    ensures Sizes(nodes[x := Decremented(nodes[x])], order) == Sizes(nodes, order)
  {
    hide Sizes, Distinct;
    SumsFrame2(nodes, nodes[x := Decremented(nodes[x])], order);
  }

  /** Changing an entry that is off the list. */
  lemma {:induction false} ShrunkChange(a: Nodes, ao: seq<Hash>, b: Nodes, bo: seq<Hash>, x: Hash, e: Entry)
    requires Shrunk(a, ao, b, bo) && x !in bo && x in b && x != ZERO
    ensures Shrunk(a, ao, b[x := e], bo) && Sizes(b[x := e], bo) == Sizes(b, bo)
  {
    hide Sizes, AllLinks, Kept, Members, Lessened;
    SumsFrame(b, b[x := e], bo);
  }

  /** Deleting an entry that is off the list. */
  lemma {:induction false} ShrunkDelete(a: Nodes, ao: seq<Hash>, b: Nodes, bo: seq<Hash>, x: Hash)
    requires Shrunk(a, ao, b, bo) && x !in bo && x in b && x != ZERO
    ensures Shrunk(a, ao, b - {x}, bo) && Sizes(b - {x}, bo) == Sizes(b, bo)
  {
    hide Sizes, AllLinks, Kept, Members, Lessened;
    SumsFrame(b, b - {x}, bo);
  }

  // ---------------------------------------------------------------- taking references, inserting

  /** The meta-root gives a root back: the reference becomes debt. */
  lemma {:induction false} DetachRoot(content: Hash -> Collapsed, rank: Hash -> nat, nodes: Nodes, order: seq<Hash>, oldest: Hash,
                                      newest: Hash, disk: set<Hash>, root: Hash)
    requires InvOn(content, rank, nodes, order, oldest, newest, disk, multiset{}, {})
    requires root in order ==> root in disk || Roots(nodes, root) > 0
    ensures ZERO in nodes
    ensures InvOn(content, rank, nodes[ZERO := Detached(nodes[ZERO], root)], order, oldest, newest, disk, multiset{} + multiset{root}, {})
    ensures var b := nodes[ZERO := Detached(nodes[ZERO], root)];
            Sizes(b, order) == Sizes(nodes, order)
            && forall h :: Roots(b, h) == if h == root && Roots(nodes, h) > 0 then Roots(nodes, h) - 1 else Roots(nodes, h)
  {
    hide AllLinks, Sizes, Ranked, ListOk, Ordered;
    var b := nodes[ZERO := Detached(nodes[ZERO], root)];
    assert Plain(nodes, order) by { Listed(content, rank, nodes, order, oldest, newest, disk, multiset{}, {}, ZERO); }
    SumsFrame(nodes, b, order);
    OrderedSame(nodes, b, order, disk);
    ListMeta(nodes, b, order, oldest, newest);
    MetaRanked(content, rank, nodes, b[ZERO]);
  }

  lemma {:induction false} ListMeta(a: Nodes, b: Nodes, order: seq<Hash>, oldest: Hash, newest: Hash)
    requires ListOk(a, order, oldest, newest) && ZERO in b && b == a[ZERO := b[ZERO]]
    ensures ListOk(b, order, oldest, newest)
  {
    hide Distinct, After;
    ListFrame(a, b, order, oldest, newest);
  }

  lemma {:induction false} MetaRanked(content: Hash -> Collapsed, rank: Hash -> nat, nodes: Nodes, e: Entry)
    requires Ranked(content, rank, nodes)
    ensures Ranked(content, rank, nodes[ZERO := e])
  {
  }

  lemma {:induction false} OrderedSame(a: Nodes, b: Nodes, order: seq<Hash>, disk: set<Hash>)
    requires Ordered(a, order, disk) && SameContents(a, b, order)
    ensures Ordered(b, order, disk)
  {
    forall i, c | 0 <= i < |order| && c in LinksOf(b, order[i])
      ensures c in disk || c in order[..i]
    {
      assert order[i] in order;
      assert c in LinksOf(a, order[i]);
    }
  }

  /** Appending to the flush list. */
  lemma {:induction false} ListAppend(a: Nodes, b: Nodes, order: seq<Hash>, oldest: Hash, newest: Hash, x: Hash)
    requires ListOk(a, order, oldest, newest) && x !in order && x != ZERO && x in b && ZERO in b
    requires forall h :: h in order ==>
      h in b && b[h].flushPrev == a[h].flushPrev && b[h].flushNext == if h == newest then x else a[h].flushNext
    requires (order != [] ==> b[x].flushPrev == newest) && b[x].flushNext == ZERO
    ensures ListOk(b, order + [x], if order == [] then x else oldest, x)
  {
    var o := order + [x];
    forall i | 0 <= i < |order|
      ensures b[o[i]].flushNext == After(o, i) && o[i] in b
    {
      assert order[i] in order && a[order[i]].flushNext == After(order, i);
      assert order[i] == newest <==> i == |order| - 1;
    }
  }

  /** Every count goes up by the number of references the new node holds. */
  ghost predicate Bumped(a: Nodes, b: Nodes, ls: multiset<Hash>) {
    a.Keys == b.Keys && forall h :: h in a ==> b[h] == a[h].(parents := a[h].parents + ls[h])
  }

  lemma {:induction false} InsertCounted(a: Nodes, b: Nodes, order: seq<Hash>, disk: set<Hash>, x: Hash)
    requires Plain(a, order) && Ordered(a, order, disk) && Counted(a, order, disk, multiset{}) && RootsOk(a, order, disk)
    requires x !in a && x in b && ZERO in b && b[x].parents == 0 && SameContents(a, b, order)
    requires b[ZERO].children == a[ZERO].children
    requires forall h :: h in order ==> b[h].parents == a[h].parents + Links(b[x])[h]
    requires x !in Links(b[x])
    ensures Counted(b, order + [x], disk, multiset{})
  {
    hide AllLinks, Links, Ordered;
    SumsConcat(b, order, [x]);
    SumsOne(b, x);
    SumsFrame(a, b, order);
    if x !in disk && x in AllLinks(a, order) {
      NotReferred(a, order, disk, x);
    }
  }

  lemma {:induction false} Referrer(nodes: Nodes, s: seq<Hash>, x: Hash) returns (i: nat)
    requires x in AllLinks(nodes, s)
    ensures i < |s| && x in LinksOf(nodes, s[i])
  {
    hide LinksOf;
    if x in LinksOf(nodes, s[|s| - 1]) {
      i := |s| - 1;
    } else {
      i := Referrer(nodes, s[..|s| - 1], x);
    }
  }

  lemma {:induction false} NotReferred(nodes: Nodes, order: seq<Hash>, disk: set<Hash>, x: Hash)
    requires Ordered(nodes, order, disk) && x in AllLinks(nodes, order)
    ensures x in order || x in disk
  {
    hide AllLinks, LinksOf;
    var i := Referrer(nodes, order, x);
  }

  lemma {:induction false} InsertOrdered(a: Nodes, b: Nodes, order: seq<Hash>, disk: set<Hash>, x: Hash)
    requires Ordered(a, order, disk) && SameContents(a, b, order) && x in b
    requires forall c :: c in Links(b[x]) ==> c in order || c in disk
    ensures Ordered(b, order + [x], disk)
  {
    hide Links;
    OrderedSame(a, b, order, disk);
    var o := order + [x];
    forall i, c | 0 <= i < |o| && c in LinksOf(b, o[i])
      ensures c in disk || c in o[..i]
    {
      if i < |order| {
        assert o[..i] == order[..i];
      } else {
        assert o[..i] == order;
      }
    }
  }

  ghost predicate InsertedEntry(e: Entry, f: Entry, n: nat) {
    && f.node == e.node && f.children == e.children && f.size == e.size
    && f.parents == e.parents + n && f.flushPrev == e.flushPrev
  }

  /** The cache with a new node `x` at the tail: counts of its children up, the old tail linked to it. */
  ghost predicate Inserted(a: Nodes, b: Nodes, order: seq<Hash>, newest: Hash, x: Hash) {
    && x !in a && b.Keys == a.Keys + {x}
    && b[x].children == map[] && b[x].parents == 0 && b[x].flushNext == ZERO
    && (order != [] ==> b[x].flushPrev == newest)
    && forall h :: h in a ==> InsertedEntry(a[h], b[h], multiset(Gather(b[x].node))[h])
                              && b[h].flushNext == if h == newest && order != [] then x else a[h].flushNext
  }

  lemma {:induction false} InsertContents(a: Nodes, b: Nodes, order: seq<Hash>, newest: Hash, x: Hash)
    requires Inserted(a, b, order, newest, x) && Plain(a, order)
    ensures SameContents(a, b, order) && b[ZERO].children == a[ZERO].children
    ensures Links(b[x]) == multiset(Gather(b[x].node))
    ensures forall h :: h in order ==> b[h].parents == a[h].parents + Links(b[x])[h]
  {
    hide Distinct, Gather;
    assert multiset(b[x].children.Keys) == multiset{};
  }

  lemma {:induction false} InsertList(a: Nodes, b: Nodes, order: seq<Hash>, oldest: Hash, newest: Hash, x: Hash)
    requires Inserted(a, b, order, newest, x) && ListOk(a, order, oldest, newest) && Plain(a, order)
    ensures ListOk(b, order + [x], if order == [] then x else oldest, x)
    ensures Domain(a, order, {}) ==> Domain(b, order + [x], {})
  {
    hide ListOk, Distinct, Gather;
    ListAppend(a, b, order, oldest, newest, x);
  }

  lemma {:induction false} InsertRanked(content: Hash -> Collapsed, rank: Hash -> nat, a: Nodes, b: Nodes, order: seq<Hash>, newest: Hash, x: Hash)
    requires Ranked(content, rank, a) && WellFounded(content, rank)
    requires Inserted(a, b, order, newest, x) && b[x].node == content(x)
    ensures Ranked(content, rank, b)
  {
    hide RankedEntry, Gather;
    forall p | p in b && p != ZERO
      ensures RankedEntry(content, rank, p, b[p])
    {
      if p == x {
        FreshRanked(content, rank, x, b[x]);
      } else {
        SameRanked(content, rank, p, a[p], b[p]);
      }
    }
  }

  lemma {:induction false} FreshRanked(content: Hash -> Collapsed, rank: Hash -> nat, x: Hash, e: Entry)
    requires WellFounded(content, rank) && e.node == content(x) && e.children == map[]
    ensures RankedEntry(content, rank, x, e)
  {
    hide Gather;
    assert Links(e) == multiset(Gather(content(x)));
    assert RankedNode(content, rank, x);
    forall c | c in Links(e)
      ensures c != ZERO && rank(c) < rank(x)
    {
      assert c in Gather(content(x));
    }
  }

  lemma {:induction false} InsertRoots(a: Nodes, b: Nodes, order: seq<Hash>, disk: set<Hash>, x: Hash)
    requires RootsOk(a, order, disk) && ZERO in b && b[ZERO].children == a[ZERO].children
    ensures RootsOk(b, order + [x], disk)
  {
  }

  lemma {:induction false} InsertFacts(content: Hash -> Collapsed, rank: Hash -> nat, nodes: Nodes, order: seq<Hash>, disk: set<Hash>,
                                       b: Nodes, newest: Hash, x: Hash)
    requires WellFounded(content, rank) && Plain(nodes, order)
    requires Inserted(nodes, b, order, newest, x) && b[x].node == content(x) && Links(b[x]) == multiset(Gather(b[x].node))
    requires forall c :: c in Gather(content(x)) ==> c in order || c in disk
    ensures forall c :: c in Links(b[x]) ==> c in order || c in disk
    ensures x !in Links(b[x]) && x !in nodes && x in b && ZERO in b && b.Keys == nodes.Keys + {x} && b[x].parents == 0
  {
    hide Links, Gather, InsertedEntry, Distinct;
    assert RankedNode(content, rank, x);
    forall c | c in Links(b[x])
      ensures c in Gather(content(x))
    {
      assert c in Gather(content(x));
    }
  }

  lemma {:induction false} InsertInv(content: Hash -> Collapsed, rank: Hash -> nat, nodes: Nodes, order: seq<Hash>, oldest: Hash, newest: Hash,
                                     disk: set<Hash>, b: Nodes, x: Hash)
    requires InvOn(content, rank, nodes, order, oldest, newest, disk, multiset{}, {}) && WellFounded(content, rank)
    requires Inserted(nodes, b, order, newest, x) && b[x].node == content(x)
    requires forall c :: c in Gather(content(x)) ==> c in order || c in disk
    ensures InvOn(content, rank, b, order + [x], if order == [] then x else oldest, x, disk, multiset{}, {})
    ensures Sizes(b, order + [x]) == Sizes(nodes, order) + HASH_LENGTH + b[x].size
  {
    hide ListOk, Ordered, Counted, RootsOk, Sizes, AllLinks, Distinct, Gather, Links, Inserted, WellFounded, Ranked, Plain, Domain;
    Listed(content, rank, nodes, order, oldest, newest, disk, multiset{}, {}, x);
    InsertContents(nodes, b, order, newest, x);
    InsertFacts(content, rank, nodes, order, disk, b, newest, x);
    InsertList(nodes, b, order, oldest, newest, x);
    InsertOrdered(nodes, b, order, disk, x);
    InsertCounted(nodes, b, order, disk, x);
    InsertRanked(content, rank, nodes, b, order, newest, x);
    InsertRoots(nodes, b, order, disk, x);
    SumsConcat(b, order, [x]);
    SumsOne(b, x);
    SumsFrame(nodes, b, order);
  }

  lemma {:induction false} SameRoots(a: Nodes, b: Nodes)
    requires ZERO in a && ZERO in b && a[ZERO].children == b[ZERO].children
    ensures forall h :: Roots(a, h) == Roots(b, h)
  {
  }

  /** The counts go up in 16 bits. */
  ghost predicate CountedUp(a: Nodes, b: Nodes, ls: multiset<Hash>) {
    a.Keys == b.Keys && forall h :: h in a ==> b[h] == if h in ls then a[h].(parents := (a[h].parents + ls[h]) % TWO16) else a[h]
  }

  /** No count outgrows 16 bits. */
  ghost predicate CountsFit(nodes: Nodes, ls: multiset<Hash>) {
    forall c :: c in nodes && c in ls ==> nodes[c].parents + ls[c] < TWO16
  }

  lemma {:induction false} CountedFits(a: Nodes, b: Nodes, ls: multiset<Hash>)
    requires CountedUp(a, b, ls) && CountsFit(a, ls)
    ensures Bumped(a, b, ls)
  {
  }

  lemma {:induction false} CountedNone(a: Nodes, cs: seq<Hash>)
    ensures CountedUp(a, a, multiset(cs[..0]))
  {
  }

  lemma {:induction false} CountedAll(a: Nodes, b: Nodes, cs: seq<Hash>)
    requires CountedUp(a, b, multiset(cs[..|cs|]))
    ensures CountedUp(a, b, multiset(cs)) && a.Keys == b.Keys
  {
    assert cs[..|cs|] == cs;
  }

  lemma {:induction false} CountedNext(a: Nodes, b: Nodes, cs: seq<Hash>, i: nat)
    requires i < |cs| && CountedUp(a, b, multiset(cs[..i]))
    ensures var d := if cs[i] in b then b[cs[i] := b[cs[i]].(parents := (b[cs[i]].parents + 1) % TWO16)] else b;
            CountedUp(a, d, multiset(cs[..i + 1]))
  {
    hide CountedUp;
    assert cs[..i + 1] == cs[..i] + [cs[i]];
    CountedMore(a, b, multiset(cs[..i]), cs[i]);
  }

  lemma {:induction false} CountedMore(a: Nodes, b: Nodes, ls: multiset<Hash>, c: Hash)
    requires CountedUp(a, b, ls)
    ensures var d := if c in b then b[c := b[c].(parents := (b[c].parents + 1) % TWO16)] else b;
            CountedUp(a, d, ls + multiset{c})
  {
    if c in a {
      OneMore(a[c].parents, ls[c]);
    }
  }

  lemma {:induction false} OneMore(p: nat, n: nat)
    ensures ((p + n) % TWO16 + 1) % TWO16 == (p + n + 1) % TWO16
  {
  }

  lemma {:induction false} TailLinked(a: Nodes, m: Nodes, order: seq<Hash>, newest: Hash, x: Hash, e: Entry)
    requires Bumped(a, m, multiset(Gather(e.node))) && x !in a
    requires e.children == map[] && e.parents == 0 && e.flushPrev == newest && e.flushNext == ZERO
    requires order != [] ==> newest in a
    ensures order == [] ==> Inserted(a, m[x := e], order, newest, x)
    ensures order != [] ==> newest in m && newest != x
    ensures order != [] ==> var b := m[x := e]; Inserted(a, b[newest := b[newest].(flushNext := x)], order, newest, x)
  {
    hide Gather;
  }

  lemma {:induction false} HeadOf(nodes: Nodes, order: seq<Hash>, oldest: Hash, newest: Hash)
    requires ListOk(nodes, order, oldest, newest)
    ensures (oldest == ZERO <==> order == []) && (order != [] ==> oldest == order[0])
    ensures order != [] ==> newest in nodes && newest in order
  {
  }

  /** A count that does not fit 16 bits is not the number of references any more. */
  lemma {:induction false} InsertWraps(a: Nodes, b: Nodes, order: seq<Hash>, disk: set<Hash>, x: Hash, ls: multiset<Hash>, c: Hash)
    requires Counted(a, order, disk, multiset{}) && c in order && c in a && c !in disk && c in ls && a[c].parents + ls[c] >= TWO16
    requires ZERO in a && ZERO in b && b[ZERO].children == a[ZERO].children && x in b && Links(b[x]) == ls
    requires SameContents(a, b, order) && c in b && b[c].parents == (a[c].parents + ls[c]) % TWO16
    ensures !Counted(b, order + [x], disk, multiset{})
  {
    hide AllLinks, Links, Sizes;
    SumsFrame(a, b, order);
    SumsConcat(b, order, [x]);
    SumsOne(b, x);
    assert c in order + [x];
  }

  /** A reference counted in 16 bits on both sides. */
  function Recounted(nodes: Nodes, child: Hash, parent: Hash): Nodes
    requires child in nodes && parent in nodes
  {
    var b := nodes[child := nodes[child].(parents := (nodes[child].parents + 1) % TWO16)];
    var count := if child in b[parent].children then b[parent].children[child] else 0;
    b[parent := b[parent].(children := b[parent].children[child := (count + 1) % TWO16])]
  }

  ghost predicate ReferenceFits(nodes: Nodes, child: Hash, parent: Hash)
    requires child in nodes && parent in nodes
  {
    nodes[child].parents + 1 < TWO16 && (child in nodes[parent].children ==> nodes[parent].children[child] + 1 < TWO16)
  }

  /**
   * The reference that does not fit any more makes the count zero: the next release takes the node, which is referred to
   * 65535 times still.
   */
  lemma {:induction false} CountWraps(nodes: Nodes, order: seq<Hash>, disk: set<Hash>, child: Hash, parent: Hash)
    requires Plain(nodes, order) && Counted(nodes, order, disk, multiset{}) && child in order && child !in disk
    requires parent == ZERO || (parent in order && child !in nodes[parent].children)
    requires parent != child && nodes[child].parents == TWO16 - 1
    ensures AllLinks(nodes, order)[child] + Roots(nodes, child) == TWO16 - 1
    ensures var b := Recounted(nodes, child, parent);
            b[child].parents == 0 && Decremented(b[child]).parents == 0
            && (Roots(nodes, child) < TWO16 ==> !(Counted(b, order, disk, multiset{}) && RootsOk(b, order, disk)))
  {
    hide Links, AllLinks;
    var b := Recounted(nodes, child, parent);
    if parent != ZERO {
      assert child in Links(b[parent]) by { assert child in multiset(b[parent].children.Keys); LinksHave(b[parent], child); }
      LinkCounted(b, order, parent, child);
    } else if Roots(nodes, child) + 1 < TWO16 {
      assert Roots(b, child) == Roots(nodes, child) + 1;
    }
  }

  lemma {:induction false} LinksHave(e: Entry, c: Hash)
    requires c in e.children
    ensures c in Links(e)
  {
    assert c in multiset(e.children.Keys);
  }

  /** Taking a reference: count it in the child, record it in the parent. */
  function Referred(nodes: Nodes, child: Hash, parent: Hash): Nodes
    requires child in nodes && parent in nodes
  {
    var b := nodes[child := nodes[child].(parents := nodes[child].parents + 1)];
    b[parent := b[parent].(children := b[parent].children[child := (if child in b[parent].children then b[parent].children[child] else 0) + 1])]
  }

  lemma {:induction false} ReferredSteps(nodes: Nodes, child: Hash, parent: Hash)
    requires child in nodes && parent in nodes && ReferenceFits(nodes, child, parent)
    ensures Recounted(nodes, child, parent) == Referred(nodes, child, parent)
  {
  }

  ghost predicate Before(order: seq<Hash>, c: Hash, p: Hash) {
    exists i :: 0 <= i < |order| && order[i] == p && c in order[..i]
  }

  /** A root reference keeps the counts exact. */
  lemma {:induction false} ReferMeta(content: Hash -> Collapsed, rank: Hash -> nat, nodes: Nodes, order: seq<Hash>, oldest: Hash,
                                     newest: Hash, disk: set<Hash>, x: Hash)
    requires InvOn(content, rank, nodes, order, oldest, newest, disk, multiset{}, {}) && x in nodes && x != ZERO
    ensures ZERO in nodes
    ensures InvOn(content, rank, Referred(nodes, x, ZERO), order, oldest, newest, disk, multiset{}, {})
    ensures Sizes(Referred(nodes, x, ZERO), order) == Sizes(nodes, order)
  {
    hide AllLinks, Sizes, Ranked, ListOk, Ordered, Distinct;
    Listed(content, rank, nodes, order, oldest, newest, disk, multiset{}, {}, x);
    var b := Referred(nodes, x, ZERO);
    SumsFrame(nodes, b, order);
    OrderedSame(nodes, b, order, disk);
    ListFrame(nodes, b, order, oldest, newest);
    var m := nodes[x := nodes[x].(parents := nodes[x].parents + 1)];
    RankedFrame(content, rank, nodes, m);
    MetaRanked(content, rank, m, b[ZERO]);
  }

  lemma {:induction false} ReferLinks(nodes: Nodes, order: seq<Hash>, x: Hash, p: Hash)
    requires Plain(nodes, order) && x in nodes && p in order && x != p && x !in nodes[p].children
    ensures Links(Referred(nodes, x, p)[p]) == Links(nodes[p]) + multiset{x}
    ensures AllLinks(Referred(nodes, x, p), order) == AllLinks(nodes, order) + multiset{x}
    ensures Sizes(Referred(nodes, x, p), order) == Sizes(nodes, order)
  {
    hide Gather, AllLinks, Sizes, Distinct, Without;
    var b := Referred(nodes, x, p);
    var o := Without(order, p);
    assert Links(b[p]) == Links(nodes[p]) + multiset{x} by {
      assert b[p].children.Keys == nodes[p].children.Keys + {x};
      assert multiset(b[p].children.Keys) == multiset(nodes[p].children.Keys) + multiset{x};
    }
    WithoutMembers(order, p);
    SumsWithout(nodes, order, p);
    SumsWithout(b, order, p);
    SumsFrame(nodes, b, o);
  }

  lemma {:induction false} ReferOrdered(nodes: Nodes, order: seq<Hash>, disk: set<Hash>, x: Hash, p: Hash)
    requires Plain(nodes, order) && x in nodes && p in order && x != p && x !in nodes[p].children
    requires Ordered(nodes, order, disk) && (x in disk || Before(order, x, p))
    ensures Ordered(Referred(nodes, x, p), order, disk)
  {
    hide AllLinks, Sizes, Links;
    var b := Referred(nodes, x, p);
    ReferLinks(nodes, order, x, p);
    forall i, c | 0 <= i < |order| && c in LinksOf(b, order[i])
      ensures c in disk || c in order[..i]
    {
      if order[i] == p && c == x {
      } else {
        assert c in LinksOf(nodes, order[i]) by { ReferOther(nodes, x, p, order[i], c); }
      }
    }
  }

  lemma {:induction false} ReferOther(nodes: Nodes, x: Hash, p: Hash, q: Hash, c: Hash)
    requires x in nodes && p in nodes && q in nodes && x != p && x !in nodes[p].children
    requires c in LinksOf(Referred(nodes, x, p), q) && !(q == p && c == x)
    ensures c in LinksOf(nodes, q)
  {
    hide Gather;
    var b := Referred(nodes, x, p);
    if q == p {
      assert b[p].children.Keys == nodes[p].children.Keys + {x};
      if c in multiset(b[p].children.Keys) {
        assert c in nodes[p].children.Keys;
      }
    }
  }

  /** A reference between nodes keeps the counts exact. */
  lemma {:induction false} ReferParent(content: Hash -> Collapsed, rank: Hash -> nat, nodes: Nodes, order: seq<Hash>, oldest: Hash,
                                       newest: Hash, disk: set<Hash>, x: Hash, p: Hash)
    requires InvOn(content, rank, nodes, order, oldest, newest, disk, multiset{}, {}) && x in nodes && x != ZERO
    requires p in nodes && p != ZERO && rank(x) < rank(p) && x !in nodes[p].children && (x in disk || Before(order, x, p))
    ensures InvOn(content, rank, Referred(nodes, x, p), order, oldest, newest, disk, multiset{}, {})
    ensures Sizes(Referred(nodes, x, p), order) == Sizes(nodes, order)
  {
    hide AllLinks, Sizes, Ranked, ListOk, Ordered, Distinct, Before, Links;
    Listed(content, rank, nodes, order, oldest, newest, disk, multiset{}, {}, p);
    var b := Referred(nodes, x, p);
    ReferLinks(nodes, order, x, p);
    ReferOrdered(nodes, order, disk, x, p);
    ListFrame(nodes, b, order, oldest, newest);
    ReferRanked(content, rank, nodes, order, x, p);
  }

  lemma {:induction false} ReferRanked(content: Hash -> Collapsed, rank: Hash -> nat, nodes: Nodes, order: seq<Hash>, x: Hash, p: Hash)
    requires Ranked(content, rank, nodes) && Plain(nodes, order) && x in nodes && x != ZERO
    requires p in order && rank(x) < rank(p) && x !in nodes[p].children
    ensures Ranked(content, rank, Referred(nodes, x, p))
  {
    hide RankedEntry, Links, AllLinks, Sizes, Distinct;
    var b := Referred(nodes, x, p);
    ReferLinks(nodes, order, x, p);
    forall q | q in b && q != ZERO
      ensures RankedEntry(content, rank, q, b[q])
    {
      if q == p {
        MoreRanked(content, rank, p, nodes[p], b[p], x);
      } else {
        SameRanked(content, rank, q, nodes[q], b[q]);
      }
    }
  }

  lemma {:induction false} MoreRanked(content: Hash -> Collapsed, rank: Hash -> nat, p: Hash, e: Entry, f: Entry, x: Hash)
    requires RankedEntry(content, rank, p, e) && f.node == e.node && Links(f) == Links(e) + multiset{x} && x != ZERO && rank(x) < rank(p)
    ensures RankedEntry(content, rank, p, f)
  {
    hide Links;
  }

  // ---------------------------------------------------------------- writing to disk, uncaching

  /** More nodes on disk never break the cache. */
  lemma {:induction false} DiskGrows(content: Hash -> Collapsed, rank: Hash -> nat, nodes: Nodes, order: seq<Hash>, oldest: Hash,
                                     newest: Hash, disk: set<Hash>, more: set<Hash>, debt: multiset<Hash>, flight: set<Hash>)
    requires InvOn(content, rank, nodes, order, oldest, newest, disk, debt, flight) && disk <= more
    ensures InvOn(content, rank, nodes, order, oldest, newest, more, debt, flight)
  {
    hide ListOk, Domain, Ranked, AllLinks, LinksOf;
  }

  /** A written node with everything it refers to on disk can leave the cache without any count changing. */
  lemma {:induction false} Uncached(content: Hash -> Collapsed, rank: Hash -> nat, nodes: Nodes, order: seq<Hash>, oldest: Hash,
                                    newest: Hash, disk: set<Hash>, flight: set<Hash>, x: Hash, b: Nodes, bOldest: Hash, bNewest: Hash)
    requires InvOn(content, rank, nodes, order, oldest, newest, disk, multiset{}, flight) && x in order
    requires x in nodes && x in disk && forall c :: c in Links(nodes[x]) ==> c in disk
    requires SameButFlush(nodes, b) && ListOk(b, Without(order, x), bOldest, bNewest)
    ensures InvOn(content, rank, b, Without(order, x), bOldest, bNewest, disk, multiset{}, flight + {x})
  {
    ReleaseUnlinked(content, rank, nodes, order, oldest, newest, disk, multiset{}, flight, x, b, bOldest, bNewest);
    hide ListOk, Domain, Ranked, AllLinks, Ordered, RootsOk, Links, SameButFlush, Without;
  }

  lemma {:induction false} EntryFacts(content: Hash -> Collapsed, rank: Hash -> nat, nodes: Nodes, order: seq<Hash>, oldest: Hash,
                                      newest: Hash, disk: set<Hash>, h: Hash)
    requires InvOn(content, rank, nodes, order, oldest, newest, disk, multiset{}, {}) && h in order
    ensures h in nodes && h != ZERO && nodes[h].node == content(h)
    ensures forall c :: c in Gather(content(h)) ==> c in Links(nodes[h])
    ensures Ordered(nodes, order, disk) && Domain(nodes, order, {})
  {
    hide Ordered, Gather;
    assert RankedEntry(content, rank, h, nodes[h]);
    assert forall c :: c in Gather(content(h)) ==> c in multiset(Gather(content(h)));
  }

  lemma {:induction false} CountAll(content: Hash -> Collapsed, rank: Hash -> nat, nodes: Nodes, order: seq<Hash>, oldest: Hash,
                                    newest: Hash, disk: set<Hash>)
    requires InvOn(content, rank, nodes, order, oldest, newest, disk, multiset{}, {})
    ensures |nodes| == |order| + 1
  {
    hide ListOk, Ordered, Counted;
    Listed(content, rank, nodes, order, oldest, newest, disk, multiset{}, {}, ZERO);
    CountNodes(nodes, order);
  }

  /** Persisted: on disk together with all it refers to. */
  ghost predicate Persisted(nodes: Nodes, disk: set<Hash>, p: Hash) {
    p in disk && forall c :: c in LinksOf(nodes, p) ==> c in disk
  }

  lemma {:induction false} CountNodes(nodes: Nodes, order: seq<Hash>)
    requires Domain(nodes, order, {}) && Plain(nodes, order)
    ensures |nodes| == |order| + 1
  {
    hide Distinct;
    assert nodes.Keys == Members(order) + {ZERO};
    CountMembers(order);
  }

  /** The oldest node, once on disk, can leave the cache: all it refers to is on disk as well. */
  lemma {:induction false} PopHead(content: Hash -> Collapsed, rank: Hash -> nat, nodes: Nodes, order: seq<Hash>, oldest: Hash,
                                   newest: Hash, disk: set<Hash>)
    requires InvOn(content, rank, nodes, order, oldest, newest, disk, multiset{}, {}) && order != [] && order[0] in disk
    ensures oldest == order[0] && oldest in nodes && nodes[oldest].flushNext == After(order, 0)
    ensures InvOn(content, rank, nodes - {oldest}, order[1..], After(order, 0), newest, disk, multiset{}, {})
    ensures Sizes(nodes - {oldest}, order[1..]) + HASH_LENGTH + nodes[oldest].size == Sizes(nodes, order)
  {
    hide ListOk, Ordered, Counted, RootsOk, Ranked, Links, Sizes, AllLinks, Distinct, InvOn;
    var x := order[0];
    Listed(content, rank, nodes, order, oldest, newest, disk, multiset{}, {}, x);
    EntryFacts(content, rank, nodes, order, oldest, newest, disk, x);
    Position(nodes, order, oldest, newest, 0);
    HeadLinks(nodes, order, disk);
    HeadCut(nodes, order, oldest, newest);
    Uncached(content, rank, nodes, order, oldest, newest, disk, {}, x, nodes, After(order, 0), newest);
    ReleaseFlight(content, rank, nodes, order[1..], After(order, 0), newest, disk, multiset{}, {} + {x}, x, ZERO);
    assert {} + {x} - {x} == {};
    SumsWithout(nodes, order, x);
    SumsFrame(nodes, nodes - {x}, order[1..]);
  }

  lemma {:induction false} HeadLinks(nodes: Nodes, order: seq<Hash>, disk: set<Hash>)
    requires Ordered(nodes, order, disk) && order != [] && order[0] in nodes
    ensures forall c :: c in Links(nodes[order[0]]) ==> c in disk
  {
    hide Links;
    assert forall c :: c in LinksOf(nodes, order[0]) ==> c in disk || c in order[..0];
  }

  lemma {:induction false} HeadCut(nodes: Nodes, order: seq<Hash>, oldest: Hash, newest: Hash)
    requires ListOk(nodes, order, oldest, newest) && order != []
    ensures Without(order, order[0]) == order[1..] && SameButFlush(nodes, nodes)
    ensures ListOk(nodes, order[1..], After(order, 0), newest)
    ensures order[0] !in order[1..] && forall h :: h in order[1..] ==> h in nodes
  {
    assert order[..0] + order[1..] == order[1..];
    assert Cut(order, 0) == order[1..];
    assert Relinked(nodes, nodes, order, 0);
    Position(nodes, order, oldest, newest, 0);
    UnlinkOk(nodes, nodes, order, 0, oldest, newest);
  }

  /** Nothing reads the head's `flushPrev`. */
  lemma {:induction false} HeadPrev(content: Hash -> Collapsed, rank: Hash -> nat, nodes: Nodes, order: seq<Hash>, oldest: Hash,
                                    newest: Hash, disk: set<Hash>)
    requires InvOn(content, rank, nodes, order, oldest, newest, disk, multiset{}, {}) && order != []
    ensures oldest in nodes
    ensures var b := nodes[oldest := nodes[oldest].(flushPrev := ZERO)];
            InvOn(content, rank, b, order, oldest, newest, disk, multiset{}, {}) && Sizes(b, order) == Sizes(nodes, order) && SameButFlush(nodes, b)
  {
    hide ListOk, Ordered, Counted, RootsOk, Ranked, Links, Sizes, AllLinks, Distinct, SameButFlush;
    Listed(content, rank, nodes, order, oldest, newest, disk, multiset{}, {}, oldest);
    HeadPrevList(nodes, order, oldest, newest);
    var b := nodes[oldest := nodes[oldest].(flushPrev := ZERO)];
    PrevOnly(nodes, oldest);
    RelistInv(content, rank, nodes, order, oldest, newest, disk, multiset{}, {}, b, oldest, newest);
  }

  lemma {:induction false} PrevOnly(nodes: Nodes, x: Hash)
    requires x in nodes
    ensures SameButFlush(nodes, nodes[x := nodes[x].(flushPrev := ZERO)])
  {
  }

  /** Only the flush list looks at flush pointers. */
  lemma {:induction false} RelistInv(content: Hash -> Collapsed, rank: Hash -> nat, nodes: Nodes, order: seq<Hash>, oldest: Hash, newest: Hash,
                                     disk: set<Hash>, debt: multiset<Hash>, flight: set<Hash>, b: Nodes, bOldest: Hash, bNewest: Hash)
    requires InvOn(content, rank, nodes, order, oldest, newest, disk, debt, flight)
    requires SameButFlush(nodes, b) && ListOk(b, order, bOldest, bNewest)
    ensures InvOn(content, rank, b, order, bOldest, bNewest, disk, debt, flight) && Sizes(b, order) == Sizes(nodes, order)
  {
    hide ListOk, Ordered, Counted, RootsOk, Ranked, Links, Sizes, AllLinks, Distinct;
    Listed(content, rank, nodes, order, oldest, newest, disk, debt, flight, ZERO);
    InvFrame(nodes, b, order, disk, debt);
    RankedFrame(content, rank, nodes, b);
    SumsFrame(nodes, b, order);
  }

  lemma {:induction false} HeadPrevList(nodes: Nodes, order: seq<Hash>, oldest: Hash, newest: Hash)
    requires ListOk(nodes, order, oldest, newest) && order != []
    ensures oldest in nodes && oldest != ZERO && ListOk(nodes[oldest := nodes[oldest].(flushPrev := ZERO)], order, oldest, newest)
  {
    hide After;
  }

  /** When all older nodes are on disk, the next one may be written. */
  lemma {:induction false} FlushStep(content: Hash -> Collapsed, rank: Hash -> nat, nodes: Nodes, order: seq<Hash>, oldest: Hash,
                                     newest: Hash, disk: set<Hash>, k: nat)
    requires InvOn(content, rank, nodes, order, oldest, newest, disk, multiset{}, {})
    requires k < |order| && Members(order[..k]) <= disk
    ensures order[k] in nodes && order[k] != ZERO && forall c :: c in Links(nodes[order[k]]) ==> c in disk
    ensures nodes[order[k]].flushNext == if k + 1 < |order| then order[k + 1] else ZERO
    ensures Members(order[..k + 1]) == Members(order[..k]) + {order[k]}
  {
    hide ListOk, Counted, RootsOk, Ranked, Links, AllLinks, Distinct;
    Listed(content, rank, nodes, order, oldest, newest, disk, multiset{}, {}, ZERO);
    Position(nodes, order, oldest, newest, k);
    assert order[..k + 1] == order[..k] + [order[k]];
    forall c | c in Links(nodes[order[k]])
      ensures c in disk
    {
      assert c in LinksOf(nodes, order[k]);
      assert c in order[..k] || c in disk;
    }
  }

  /** Total reported size after the `k` oldest nodes have gone. */
  ghost function Total(nodes: Nodes, order: seq<Hash>, nodesSize: int, k: nat): int
    requires k <= |order|
  {
    nodesSize + 2 * HASH_LENGTH * |order| - Sizes(nodes, order[..k]) - 2 * HASH_LENGTH * k
  }

  lemma {:induction false} TotalNone(nodes: Nodes, order: seq<Hash>, nodesSize: int)
    ensures Total(nodes, order, nodesSize, 0) == nodesSize + 2 * HASH_LENGTH * |order| && order[..0] == []
  {
  }

  lemma {:induction false} TotalNext(nodes: Nodes, order: seq<Hash>, nodesSize: int, k: nat)
    requires k < |order| && order[k] in nodes
    ensures Total(nodes, order, nodesSize, k + 1) == Total(nodes, order, nodesSize, k) - (3 * HASH_LENGTH + nodes[order[k]].size)
  {
    assert order[..k + 1][..k] == order[..k];
  }

  lemma {:induction false} DiskFacts(content: Hash -> Collapsed, rank: Hash -> nat, disk: map<Hash, Collapsed>, written: map<Hash, set<Hash>>)
    requires DiskOkOn(content, rank, disk, written)
    ensures WellFounded(content, rank) && disk.Keys == written.Keys
  {
  }

  /** Remaining nodes keep everything but their flush pointers. */
  ghost predicate Remains(a: Nodes, b: Nodes) {
    b.Keys <= a.Keys && forall h :: h in b ==> a[h].(flushPrev := 0, flushNext := 0) == b[h].(flushPrev := 0, flushNext := 0)
  }

  lemma {:induction false} RemainsSelf(a: Nodes)
    ensures Remains(a, a)
  {
  }

  lemma {:induction false} RemainsLess(a: Nodes, b: Nodes, x: Hash)
    requires Remains(a, b)
    ensures Remains(a, b - {x})
  {
  }

  lemma {:induction false} RemainsFlush(a: Nodes, b: Nodes, c: Nodes)
    requires Remains(a, b) && SameButFlush(b, c)
    ensures Remains(a, c)
  {
  }

  /** The list pointer stands on the next node to drop exactly while flushed nodes are left. */
  lemma {:induction false} DropNext(content: Hash -> Collapsed, rank: Hash -> nat, nodes: Nodes, order: seq<Hash>, oldest: Hash, newest: Hash,
                                    disk: set<Hash>, all: seq<Hash>, j: nat, k: nat, cur: Hash)
    requires InvOn(content, rank, nodes, order, oldest, newest, disk, multiset{}, {})
    requires j <= k <= |all| && order == all[j..] && cur == (if k < |all| then all[k] else ZERO) && Members(all[..k]) <= disk
    requires oldest != cur
    ensures order != [] && j < k && order[0] in disk && order[1..] == all[j + 1..]
  {
    hide Ordered, Counted, RootsOk, Ranked, Domain, Distinct;
    if j < k {
      assert order[0] == all[j] && all[j] in all[..k];
    }
  }

  lemma {:induction false} DropEnd(content: Hash -> Collapsed, rank: Hash -> nat, nodes: Nodes, order: seq<Hash>, oldest: Hash, newest: Hash,
                                   disk: set<Hash>, all: seq<Hash>, j: nat, k: nat, cur: Hash)
    requires InvOn(content, rank, nodes, order, oldest, newest, disk, multiset{}, {}) && Distinct(all) && ZERO !in all
    requires j <= k <= |all| && order == all[j..] && cur == (if k < |all| then all[k] else ZERO)
    requires oldest == cur
    ensures j == k && (oldest != ZERO ==> order != [])
  {
    hide Ordered, Counted, RootsOk, Ranked, Domain;
    assert j < |all| ==> order[0] == all[j] && all[j] in all;
  }

  /** `p` is `h` or below it along links of cached nodes. */
  ghost predicate Under(rank: Hash -> nat, nodes: Nodes, h: Hash, p: Hash)
    decreases rank(h)
  {
    h in nodes && (p == h || exists c :: c in Links(nodes[h]) && rank(c) < rank(h) && Under(rank, nodes, c, p))
  }

  lemma {:induction false} UnderChild(rank: Hash -> nat, nodes: Nodes, h: Hash, c: Hash, p: Hash)
    requires h in nodes && c in Links(nodes[h]) && rank(c) < rank(h) && Under(rank, nodes, c, p)
    ensures Under(rank, nodes, h, p)
  {
  }

  lemma {:induction false} UnderIsCached(rank: Hash -> nat, nodes: Nodes, h: Hash, p: Hash)
    requires Under(rank, nodes, h, p)
    ensures p in nodes && rank(p) <= rank(h)
    decreases rank(h)
  {
    if p != h {
      var c :| c in Links(nodes[h]) && rank(c) < rank(h) && Under(rank, nodes, c, p);
      UnderIsCached(rank, nodes, c, p);
    }
  }

  /** Fewer cached nodes: less below. */
  lemma {:induction false} UnderFewer(rank: Hash -> nat, a: Nodes, b: Nodes, h: Hash, p: Hash)
    requires Under(rank, b, h, p) && b.Keys <= a.Keys && forall q :: q in b ==> Links(b[q]) <= Links(a[q])
    ensures Under(rank, a, h, p)
    decreases rank(h)
  {
    hide Links;
    if p != h {
      var c :| c in Links(b[h]) && rank(c) < rank(h) && Under(rank, b, c, p);
      UnderFewer(rank, a, b, c, p);
    }
  }

  /** Once a node has gone and with each node its children, all below it has gone. */
  lemma {:induction false} UnderGone(rank: Hash -> nat, a: Nodes, gone: set<Hash>, h: Hash, p: Hash)
    requires Under(rank, a, h, p) && h in gone
    requires forall q, c :: q in gone && q in a && c in Links(a[q]) && c in a ==> c in gone
    ensures p in gone
    decreases rank(h)
  {
    if p != h {
      var c :| c in Links(a[h]) && rank(c) < rank(h) && Under(rank, a, c, p);
      UnderGone(rank, a, gone, c, p);
    }
  }

  /** From `a` to `b` only nodes below `h` have gone, and no node has got a reference. */
  ghost predicate GoneUnder(rank: Hash -> nat, a: Nodes, b: Nodes, h: Hash) {
    && b.Keys <= a.Keys && (forall q :: q in b ==> Links(b[q]) <= Links(a[q]))
    && forall p :: p in a && p !in b ==> Under(rank, a, h, p)
  }

  /** Nothing but counts and list pointers has changed. */
  lemma {:induction false} GoneSame(rank: Hash -> nat, a: Nodes, b: Nodes, h: Hash)
    requires a.Keys == b.Keys && forall q :: q in b ==> b[q].node == a[q].node && b[q].children == a[q].children
    ensures GoneUnder(rank, a, b, h)
  {
  }

  lemma {:induction false} GoneTrans(rank: Hash -> nat, a: Nodes, b: Nodes, d: Nodes, h: Hash)
    requires GoneUnder(rank, a, b, h) && GoneUnder(rank, b, d, h)
    ensures GoneUnder(rank, a, d, h)
  {
    hide Links, Under;
    forall p | p in b && p !in d
      ensures Under(rank, a, h, p)
    {
      UnderFewer(rank, a, b, h, p);
    }
  }

  lemma {:induction false} GoneChild(rank: Hash -> nat, a: Nodes, b: Nodes, d: Nodes, h: Hash, c: Hash)
    requires GoneUnder(rank, a, b, h) && GoneUnder(rank, b, d, c) && h in a && c in Links(a[h]) && rank(c) < rank(h)
    ensures GoneUnder(rank, a, d, h)
  {
    hide Links, Under;
    forall p | p in b && p !in d
      ensures Under(rank, a, h, p)
    {
      UnderFewer(rank, a, b, c, p);
      UnderChild(rank, a, h, c, p);
    }
  }

  lemma {:induction false} GoneSelf(rank: Hash -> nat, a: Nodes, b: Nodes, h: Hash)
    requires GoneUnder(rank, a, b, h) && h in a
    ensures GoneUnder(rank, a, b - {h}, h)
  {
    hide Links, Under;
    UnderSelf(rank, a, h);
  }

  /** Giving a reference back leaves fewer. */
  lemma {:induction false} GoneDetached(rank: Hash -> nat, a: Nodes, x: Hash, c: Hash, h: Hash)
    requires x in a
    ensures GoneUnder(rank, a, a[x := Detached(a[x], c)], h)
  {
    hide Gather, Under;
    assert Links(Detached(a[x], c)) <= Links(a[x]);
  }

  lemma {:induction false} GoneCounted(rank: Hash -> nat, a: Nodes, x: Hash, h: Hash)
    requires x in a
    ensures GoneUnder(rank, a, a[x := Decremented(a[x])], h)
  {
    hide Links, Under;
    GoneSame(rank, a, a[x := Decremented(a[x])], h);
  }

  lemma {:induction false} GoneUnlinked(rank: Hash -> nat, a: Nodes, b: Nodes, h: Hash)
    requires SameButFlush(a, b)
    ensures GoneUnder(rank, a, b, h)
  {
    hide Links, Under;
    assert forall q :: q in a ==> a[q].(flushPrev := 0, flushNext := 0) == b[q].(flushPrev := 0, flushNext := 0);
    GoneSame(rank, a, b, h);
  }

  lemma {:induction false} GoneOnly(rank: Hash -> nat, a: Nodes, b: Nodes, h: Hash)
    requires GoneUnder(rank, a, b, h)
    ensures forall p :: p in a && p !in b ==> Under(rank, a, h, p)
  {
  }

  /** The nodes written with all the references they hold in the cache. */
  ghost function Recorded(nodes: Nodes, written: map<Hash, set<Hash>>): set<Hash> {
    set p | p in written && forall c :: c in LinksOf(nodes, p) ==> c in written[p]
  }

  /** A write records what the node refers to, on top of what an earlier write recorded. */
  ghost function Recording(nodes: Nodes, written: map<Hash, set<Hash>>, h: Hash): map<Hash, set<Hash>> {
    written[h := (set c | c in LinksOf(nodes, h)) + if h in written then written[h] else {}]
  }

  lemma {:induction false} PutClosed(content: Hash -> Collapsed, nodes: Nodes, written: map<Hash, set<Hash>>, h: Hash)
    requires DiskClosed(content, written) && h in nodes
    requires (forall c :: c in Gather(content(h)) ==> c in Links(nodes[h])) && forall c :: c in Links(nodes[h]) ==> c in written
    ensures DiskClosed(content, Recording(nodes, written, h)) && Recording(nodes, written, h).Keys == written.Keys + {h}
  {
    hide Gather, Links;
  }

  lemma {:induction false} RecordedMore(nodes: Nodes, written: map<Hash, set<Hash>>, h: Hash)
    ensures Recorded(nodes, Recording(nodes, written, h)) == Recorded(nodes, written) + {h}
  {
    hide LinksOf;
  }

  lemma {:induction false} RecordedWritten(nodes: Nodes, written: map<Hash, set<Hash>>)
    ensures Recorded(nodes, written) <= written.Keys
  {
  }

  /** Everything cached below `h` is in `s`. */
  ghost predicate AllUnder(rank: Hash -> nat, nodes: Nodes, h: Hash, s: set<Hash>) {
    forall p :: Under(rank, nodes, h, p) ==> p in s
  }

  /** From `a` to `b` only nodes below `h` have been added. */
  ghost predicate OnlyUnder(rank: Hash -> nat, nodes: Nodes, h: Hash, a: set<Hash>, b: set<Hash>) {
    a <= b && forall p :: p in b ==> p in a || Under(rank, nodes, h, p)
  }

  ghost predicate EachUnder(rank: Hash -> nat, nodes: Nodes, cs: seq<Hash>, s: set<Hash>) {
    forall c :: c in cs ==> AllUnder(rank, nodes, c, s)
  }

  lemma {:induction false} UnderMissing(rank: Hash -> nat, nodes: Nodes, h: Hash, s: set<Hash>, w: set<Hash>)
    requires h !in nodes
    ensures AllUnder(rank, nodes, h, w) && OnlyUnder(rank, nodes, h, s, s)
  {
  }

  lemma {:induction false} UnderNone(rank: Hash -> nat, nodes: Nodes, h: Hash, cs: seq<Hash>, s: set<Hash>, w: set<Hash>)
    ensures OnlyUnder(rank, nodes, h, s, s) && EachUnder(rank, nodes, cs[..0], w)
  {
  }

  /** One more child committed. */
  lemma {:induction false} UnderNext(rank: Hash -> nat, nodes: Nodes, h: Hash, cs: seq<Hash>, i: nat, a: set<Hash>, b: set<Hash>, d: set<Hash>,
                                     v: set<Hash>, w: set<Hash>)
    requires h in nodes && i < |cs| && cs[i] in Links(nodes[h]) && rank(cs[i]) < rank(h) && v <= w
    requires OnlyUnder(rank, nodes, h, a, b) && EachUnder(rank, nodes, cs[..i], v) && OnlyUnder(rank, nodes, cs[i], b, d)
    ensures OnlyUnder(rank, nodes, h, a, d)
    ensures AllUnder(rank, nodes, cs[i], w) ==> EachUnder(rank, nodes, cs[..i + 1], w)
  {
    hide Links, Under;
    forall p | Under(rank, nodes, cs[i], p)
      ensures Under(rank, nodes, h, p)
    {
      UnderChild(rank, nodes, h, cs[i], p);
    }
    assert cs[..i + 1] == cs[..i] + [cs[i]];
  }

  /** With all children and the node itself committed, so is everything below it. */
  lemma {:induction false} UnderAll(rank: Hash -> nat, nodes: Nodes, h: Hash, cs: seq<Hash>, a: set<Hash>, d: set<Hash>, s: set<Hash>)
    requires h in nodes && multiset(cs) == Links(nodes[h]) && EachUnder(rank, nodes, cs, s) && OnlyUnder(rank, nodes, h, a, d)
    ensures AllUnder(rank, nodes, h, s + {h}) && OnlyUnder(rank, nodes, h, a, d + {h})
  {
    hide Links;
    forall p | Under(rank, nodes, h, p) && p != h
      ensures p in s
    {
      var c :| c in Links(nodes[h]) && rank(c) < rank(h) && Under(rank, nodes, c, p);
      assert c in multiset(cs);
      assert AllUnder(rank, nodes, c, s);
    }
  }

  /** After all children have been committed, a node's references are on disk. */
  lemma {:induction false} CommitReady(content: Hash -> Collapsed, rank: Hash -> nat, nodes: Nodes, order: seq<Hash>, oldest: Hash, newest: Hash,
                                       disk: set<Hash>, h: Hash, cs: seq<Hash>, w: set<Hash>)
    requires InvOn(content, rank, nodes, order, oldest, newest, disk, multiset{}, {}) && h in order && h in nodes
    requires multiset(cs) == Links(nodes[h]) && EachUnder(rank, nodes, cs, w) && w <= disk
    ensures forall c :: c in Links(nodes[h]) ==> c in disk
  {
    hide InvOn, Links, AllLinks, Under;
    EntryFacts(content, rank, nodes, order, oldest, newest, disk, h);
    var i := IndexOf(order, h);
    forall c | c in Links(nodes[h])
      ensures c in disk
    {
      assert c in LinksOf(nodes, order[i]);
      assert c in multiset(cs);
      assert AllUnder(rank, nodes, c, w);
      if c in nodes {
        assert Under(rank, nodes, c, c) by { UnderSelf(rank, nodes, c); }
      }
    }
  }

  lemma {:induction false} UnderSelf(rank: Hash -> nat, nodes: Nodes, h: Hash)
    requires h in nodes
    ensures Under(rank, nodes, h, h)
  {
  }

  /** What is left after flushing is what the running total said. */
  lemma {:induction false} TotalRest(a: Nodes, b: Nodes, order: seq<Hash>, k: nat, aSize: int, bSize: int, oversized: nat)
    requires k <= |order| && (forall h :: h in order[k..] ==> h in b) && Remains(a, b)
    requires aSize == Sizes(a, order) - TWO16 * oversized && bSize == Sizes(b, order[k..]) - TWO16 * oversized
    ensures Total(b, order[k..], bSize, 0) == Total(a, order, aSize, k)
  {
    hide Sizes, AllLinks;
    assert order == order[..k] + order[k..];
    SumsConcat(a, order[..k], order[k..]);
    SumsFrame(a, b, order[k..]);
    SizesNone(b);
    assert order[k..][..0] == [];
  }

  lemma {:induction false} SizesNone(a: Nodes)
    ensures Sizes(a, []) == 0
  {
  }

  ghost predicate PersistedUnder(rank: Hash -> nat, nodes: Nodes, disk: set<Hash>, h: Hash) {
    forall p :: Under(rank, nodes, h, p) ==> Persisted(nodes, disk, p)
  }

  /** From `a` to `b` only nodes below `h` have left the cache, each with all its children. */
  ghost predicate Dropped(rank: Hash -> nat, a: Nodes, b: Nodes, h: Hash) {
    && Remains(a, b)
    && (forall p :: p in a && p !in b ==> Under(rank, a, h, p))
    && (forall p, c :: p in a && p !in b && c in LinksOf(a, p) ==> c !in b)
  }

  lemma {:induction false} RemainsLinks(a: Nodes, b: Nodes)
    requires Remains(a, b)
    ensures forall p :: p in b ==> p in a && Links(a[p]) == Links(b[p]) && LinksOf(a, p) == LinksOf(b, p)
  {
    hide Gather;
    forall p | p in b
      ensures Links(a[p]) == Links(b[p])
    {
      assert a[p].(flushPrev := 0, flushNext := 0) == b[p].(flushPrev := 0, flushNext := 0);
    }
  }

  lemma {:induction false} DroppedNone(rank: Hash -> nat, a: Nodes, b: Nodes, h: Hash)
    requires SameButFlush(a, b)
    ensures Dropped(rank, a, b, h)
  {
  }

  /** Dropping everything below a child drops something below the node. */
  lemma {:induction false} DroppedChild(rank: Hash -> nat, a: Nodes, b: Nodes, d: Nodes, h: Hash, c: Hash)
    requires Dropped(rank, a, b, h) && Dropped(rank, b, d, c)
    requires h in a && c in Links(a[h]) && rank(c) < rank(h)
    ensures Dropped(rank, a, d, h)
  {
    hide Links, LinksOf, Under;
    RemainsLinks(a, b);
    forall p | p in a && p !in d
      ensures Under(rank, a, h, p)
    {
      if p in b {
        UnderFewer(rank, a, b, c, p);
        UnderChild(rank, a, h, c, p);
      }
    }
  }

  lemma {:induction false} DroppedSelf(rank: Hash -> nat, a: Nodes, b: Nodes, h: Hash)
    requires Dropped(rank, a, b, h) && h in a && forall c :: c in Links(a[h]) ==> c !in b
    ensures Dropped(rank, a, b - {h}, h)
  {
    hide Links;
    UnderSelf(rank, a, h);
    hide Under;
  }

  /** What was persisted below a node stays so for what is left below its children. */
  lemma {:induction false} PersistedChild(rank: Hash -> nat, a: Nodes, b: Nodes, disk: set<Hash>, h: Hash, c: Hash)
    requires Remains(a, b) && PersistedUnder(rank, a, disk, h)
    requires h in a && c in Links(a[h]) && rank(c) < rank(h)
    ensures PersistedUnder(rank, b, disk, c)
  {
    hide Links, LinksOf, Under, Remains;
    RemainsLinks(a, b);
    forall p | Under(rank, b, c, p)
      ensures Persisted(b, disk, p)
    {
      RemainsKeys(a, b);
      UnderFewer(rank, a, b, c, p);
      UnderChild(rank, a, h, c, p);
      UnderIsCached(rank, b, c, p);
      assert Persisted(a, disk, p);
    }
  }

  lemma {:induction false} RemainsKeys(a: Nodes, b: Nodes)
    requires Remains(a, b)
    ensures b.Keys <= a.Keys
  {
  }

  /** After a commit everything below the node is persisted. */
  lemma {:induction false} CommitPersists(content: Hash -> Collapsed, rank: Hash -> nat, nodes: Nodes, order: seq<Hash>, oldest: Hash,
                                          newest: Hash, disk: set<Hash>, h: Hash, w: set<Hash>)
    requires InvOn(content, rank, nodes, order, oldest, newest, disk, multiset{}, {}) && h != ZERO
    requires AllUnder(rank, nodes, h, w) && w <= disk
    ensures PersistedUnder(rank, nodes, disk, h)
  {
    hide InvOn, Links, AllLinks;
    forall p | Under(rank, nodes, h, p)
      ensures Persisted(nodes, disk, p)
    {
      UnderListed(content, rank, nodes, order, oldest, newest, disk, h, p);
      EntryFacts(content, rank, nodes, order, oldest, newest, disk, p);
      var i := IndexOf(order, p);
      forall c | c in LinksOf(nodes, order[i])
        ensures c in disk
      {
        if c in nodes {
          UnderGrandchild(rank, nodes, h, p, c);
        }
      }
    }
  }

  lemma {:induction false} UnderListed(content: Hash -> Collapsed, rank: Hash -> nat, nodes: Nodes, order: seq<Hash>, oldest: Hash,
                                       newest: Hash, disk: set<Hash>, h: Hash, p: Hash)
    requires InvOn(content, rank, nodes, order, oldest, newest, disk, multiset{}, {}) && h != ZERO && Under(rank, nodes, h, p)
    ensures p in order && forall c :: c in LinksOf(nodes, p) ==> rank(c) < rank(p)
    decreases rank(h)
  {
    hide InvOn, Links;
    Listed(content, rank, nodes, order, oldest, newest, disk, multiset{}, {}, h);
    if p != h {
      var c :| c in Links(nodes[h]) && rank(c) < rank(h) && Under(rank, nodes, c, p);
      UnderListed(content, rank, nodes, order, oldest, newest, disk, c, p);
    }
  }

  lemma {:induction false} UnderGrandchild(rank: Hash -> nat, nodes: Nodes, h: Hash, p: Hash, c: Hash)
    requires Under(rank, nodes, h, p) && p in nodes && c in Links(nodes[p]) && rank(c) < rank(p) && c in nodes
    ensures Under(rank, nodes, h, c)
    decreases rank(h)
  {
    hide Links;
    UnderSelf(rank, nodes, c);
    if p == h {
      UnderChild(rank, nodes, h, c, c);
    } else {
      var d :| d in Links(nodes[h]) && rank(d) < rank(h) && Under(rank, nodes, d, p);
      UnderGrandchild(rank, nodes, d, p, c);
    }
  }

  /** A dropped node is a node below `h`, and the other way round. */
  lemma {:induction false} DroppedExactly(rank: Hash -> nat, a: Nodes, b: Nodes, h: Hash)
    requires Dropped(rank, a, b, h) && h !in b
    ensures forall p :: p in b <==> p in a && !Under(rank, a, h, p)
  {
    hide Links;
    var gone := a.Keys - b.Keys;
    forall p | Under(rank, a, h, p)
      ensures p !in b
    {
      if h in a {
        UnderGone(rank, a, gone, h, p);
      }
    }
  }

  lemma {:induction false} DroppedSame(rank: Hash -> nat, a: Nodes, h: Hash)
    ensures Dropped(rank, a, a, h)
  {
  }

  lemma {:induction false} PersistedHere(rank: Hash -> nat, nodes: Nodes, disk: set<Hash>, h: Hash)
    requires PersistedUnder(rank, nodes, disk, h) && h in nodes
    ensures h in disk && forall c :: c in Links(nodes[h]) ==> c in disk
  {
    hide Links;
    UnderSelf(rank, nodes, h);
    assert Persisted(nodes, disk, h);
  }

  lemma {:induction false} UnlinkSizes(nodes: Nodes, order: seq<Hash>, x: Hash, b: Nodes)
    requires Plain(nodes, order) && x in order && SameButFlush(nodes, b)
    ensures Sizes(b, Without(order, x)) + HASH_LENGTH + nodes[x].size == Sizes(nodes, order)
    ensures Without(order, x) == Kept(order, Members(Without(order, x))) && x !in Without(order, x)
    ensures x in b && Links(b[x]) == Links(nodes[x]) && b[x].size == nodes[x].size
  {
    hide Sizes, AllLinks, Without, Distinct, Kept, Members;
    WithoutMembers(order, x);
    KeptOthers(order, x);
    SumsWithout(nodes, order, x);
    SumsFrame(nodes, b, Without(order, x));
  }

  lemma {:induction false} UncacheReady(rank: Hash -> nat, a: Nodes, b: Nodes, disk: set<Hash>, h: Hash, c: Hash)
    requires Dropped(rank, a, b, h) && PersistedUnder(rank, a, disk, h)
    requires h in a && c in Links(a[h]) && rank(c) < rank(h)
    ensures PersistedUnder(rank, b, disk, c)
  {
    hide PersistedUnder, Links, Under, Remains, LinksOf;
    PersistedChild(rank, a, b, disk, h, c);
  }

  lemma {:induction false} DroppedKeys(rank: Hash -> nat, a: Nodes, b: Nodes, h: Hash)
    requires Dropped(rank, a, b, h)
    ensures b.Keys <= a.Keys
  {
  }

  lemma {:induction false} DroppedRemains(rank: Hash -> nat, a: Nodes, b: Nodes, h: Hash)
    requires Dropped(rank, a, b, h)
    ensures Remains(a, b)
  {
  }

  /** With its children gone the node itself goes. */
  lemma {:induction false} UncacheEnd(content: Hash -> Collapsed, rank: Hash -> nat, nodes: Nodes, order: seq<Hash>, oldest: Hash, newest: Hash,
                                      disk: set<Hash>, flight: set<Hash>, h: Hash, a: Nodes, cs: seq<Hash>)
    requires InvOn(content, rank, nodes, order, oldest, newest, disk, multiset{}, flight) && h in flight
    requires Dropped(rank, a, nodes, h) && h in a && multiset(cs) == Links(a[h]) && forall c :: c in cs ==> c !in nodes
    ensures h in nodes && InvOn(content, rank, nodes - {h}, order, oldest, newest, disk, multiset{}, flight - {h})
    ensures Dropped(rank, a, nodes - {h}, h) && Sizes(nodes - {h}, order) == Sizes(nodes, order)
  {
    hide InvOn, Dropped, Sizes, Links, AllLinks, ListOk, Distinct;
    Listed(content, rank, nodes, order, oldest, newest, disk, multiset{}, flight, h);
    ReleaseFlight(content, rank, nodes, order, oldest, newest, disk, multiset{}, flight, h, ZERO);
    forall c | c in Links(a[h])
      ensures c !in nodes
    {
      assert c in multiset(cs);
    }
    DroppedSelf(rank, a, nodes, h);
    SumsFrame(nodes, nodes - {h}, order);
  }

  // ---------------------------------------------------------------- what can be read

  /**
   * What an insert adds to the size counter is right exactly below 65504 bytes. From 65504 bytes on the 16-bit addition
   * overflows, and from 65536 on the length itself is cut; a removal takes off the cut length, so the first error stays.
   */
  lemma {:induction false} SizeWraps(length: nat)
    ensures (HASH_LENGTH + length % TWO16) % TWO16 == HASH_LENGTH + length <==> length < 65504
    ensures (HASH_LENGTH + length % TWO16) % TWO16 == HASH_LENGTH + length % TWO16 <==> !Overflows(length)
    ensures (HASH_LENGTH + 65504 % TWO16) % TWO16 == 0 && (HASH_LENGTH + 65536 % TWO16) % TWO16 == HASH_LENGTH
  {
    var n := Wraps(length % TWO16);
    assert length % TWO16 == length - TWO16 * (length / TWO16);
  }

  /** How many of the inserted blobs overflowed the 16-bit addition. */
  ghost function Drift(history: seq<nat>): nat {
    if history == [] then 0 else Drift(history[..|history| - 1]) + Wraps(history[|history| - 1] % TWO16)
  }

  ghost predicate Overflows(length: nat) {
    length % TWO16 >= 65504
  }

  lemma {:induction false} NoDrift(history: seq<nat>)
    ensures Drift(history) == 0 <==> forall l :: l in history ==> !Overflows(l)
  {
    if history != [] {
      var init, last := history[..|history| - 1], history[|history| - 1];
      NoDrift(init);
      assert forall l :: l in history <==> l in init || l == last;
      assert Wraps(last % TWO16) == 0 <==> !Overflows(last);
    }
  }

  lemma {:induction false} DriftNext(history: seq<nat>, l: nat)
    ensures Drift(history + [l]) == Drift(history) + Wraps(l % TWO16)
  {
    assert (history + [l])[..|history|] == history;
  }

  /** The data really cached: a hash and the blob for each node. */
  ghost function DataSize(lengths: map<Hash, nat>, order: seq<Hash>): nat {
    if order == [] then 0 else DataSize(lengths, order[..|order| - 1]) + HASH_LENGTH + LengthOf(lengths, order[|order| - 1])
  }

  ghost function LengthOf(lengths: map<Hash, nat>, h: Hash): nat {
    if h in lengths then lengths[h] else 0
  }

  /** What the 16-bit length fields leave out, in units of their range. */
  ghost function CutOff(lengths: map<Hash, nat>, order: seq<Hash>): nat {
    if order == [] then 0 else CutOff(lengths, order[..|order| - 1]) + LengthOf(lengths, order[|order| - 1]) / TWO16
  }

  /** The length fields hold the lengths of the blobs in 16 bits. */
  ghost predicate LengthsOk(nodes: Nodes, lengths: map<Hash, nat>) {
    forall h :: h in nodes && h != ZERO ==> h in lengths && nodes[h].size == lengths[h] % TWO16
  }

  lemma {:induction false} DataIsCut(nodes: Nodes, lengths: map<Hash, nat>, order: seq<Hash>)
    requires LengthsOk(nodes, lengths) && ZERO !in order && forall h :: h in order ==> h in nodes
    ensures DataSize(lengths, order) == Sizes(nodes, order) + TWO16 * CutOff(lengths, order)
  {
    if order != [] {
      DataIsCut(nodes, lengths, order[..|order| - 1]);
      assert order[|order| - 1] in order;
    }
  }

  lemma {:induction false} NoneCut(lengths: map<Hash, nat>, order: seq<Hash>)
    ensures CutOff(lengths, order) == 0 <==> forall h :: h in order ==> LengthOf(lengths, h) < TWO16
  {
    if order != [] {
      var init, last := order[..|order| - 1], order[|order| - 1];
      NoneCut(lengths, init);
      assert order == init + [last];
      assert LengthOf(lengths, last) / TWO16 == 0 <==> LengthOf(lengths, last) < TWO16;
    }
  }

  lemma {:induction false} SizeParts(size: int, nodesSize: int, n: nat, sizes: nat, data: nat, drift: nat, cut: nat)
    requires size == nodesSize + n * 2 * HASH_LENGTH && nodesSize == sizes - TWO16 * drift && data == sizes + TWO16 * cut
    ensures size == data + 2 * HASH_LENGTH * n - TWO16 * (drift + cut)
    ensures size == data + 2 * HASH_LENGTH * n <==> drift == 0 && cut == 0
  {
  }

  lemma {:induction false} LengthsLess(content: Hash -> Collapsed, rank: Hash -> nat, a: Nodes, b: Nodes, order: seq<Hash>, oldest: Hash,
                                       newest: Hash, disk: set<Hash>, lengths: map<Hash, nat>)
    requires InvOn(content, rank, b, order, oldest, newest, disk, multiset{}, {}) && LengthsOk(a, lengths)
    requires forall h :: h in order ==> h in a && Lessened(a[h], b[h])
    ensures LengthsOk(b, lengths)
  {
    hide InvOn;
    forall h | h in b && h != ZERO
      ensures h in a && b[h].size == a[h].size
    {
      Listed(content, rank, b, order, oldest, newest, disk, multiset{}, {}, h);
    }
  }

  lemma {:induction false} LengthsRemain(a: Nodes, b: Nodes, lengths: map<Hash, nat>)
    requires LengthsOk(a, lengths) && Remains(a, b)
    ensures LengthsOk(b, lengths)
  {
    forall h | h in b
      ensures b[h].size == a[h].size
    {
      assert a[h].(flushPrev := 0, flushNext := 0) == b[h].(flushPrev := 0, flushNext := 0);
    }
  }

  lemma {:induction false} LengthsInserted(a: Nodes, b: Nodes, order: seq<Hash>, newest: Hash, x: Hash, lengths: map<Hash, nat>, l: nat)
    requires LengthsOk(a, lengths) && Inserted(a, b, order, newest, x) && b[x].size == l % TWO16
    ensures LengthsOk(b, lengths[x := l])
  {
    hide Gather;
  }

  lemma {:induction false} LengthsReferred(a: Nodes, child: Hash, parent: Hash, lengths: map<Hash, nat>)
    requires LengthsOk(a, lengths) && child in a && parent in a
    ensures LengthsOk(Referred(a, child, parent), lengths)
  {
  }

  /** A reference kept by a cached node or by a node on disk. */
  ghost predicate Linked(nodes: Nodes, written: map<Hash, set<Hash>>, content: Hash -> Collapsed, p: Hash, c: Hash) {
    || (p in nodes && p != ZERO && (Holds(nodes[p].node, c) || c in nodes[p].children))
    || (p in written && (Holds(content(p), c) || c in written[p]))
  }

  /** What a node links to is what it holds at some place, and what was recorded for it. */
  lemma {:induction false} LinksHold(e: Entry, c: Hash)
    ensures c in Links(e) <==> Holds(e.node, c) || c in e.children
  {
    hide Gather, Holds;
    var places := GatherPlaces(e.node, c);
    assert c in Gather(e.node) <==> c in multiset(Gather(e.node));
    assert c in e.children <==> c in multiset(e.children.Keys);
  }

  ghost predicate LinkPath(nodes: Nodes, written: map<Hash, set<Hash>>, content: Hash -> Collapsed, path: seq<Hash>) {
    path != [] && forall i :: 0 < i < |path| ==> Linked(nodes, written, content, path[i - 1], path[i])
  }

  /** Garbage collection never takes a node that is still reachable: from every cached, committed or referenced
      root, following hash references at any place in the nodes and recorded references, one meets only nodes that are
      cached or on disk. */
  lemma {:induction false} ReachableIsReadable(content: Hash -> Collapsed, rank: Hash -> nat, nodes: Nodes, order: seq<Hash>, oldest: Hash,
                                               newest: Hash, disk: map<Hash, Collapsed>, written: map<Hash, set<Hash>>, path: seq<Hash>)
    requires InvOn(content, rank, nodes, order, oldest, newest, written.Keys, multiset{}, {}) && DiskOkOn(content, rank, disk, written)
    requires LinkPath(nodes, written, content, path)
    requires path[0] in order || path[0] in disk || Roots(nodes, path[0]) > 0
    ensures path[|path| - 1] in order || path[|path| - 1] in disk
    decreases |path|
  {
    hide ListOk, Counted, Links, Gather, AllLinks, Holds, Places;
    if |path| > 1 {
      var init := path[..|path| - 1];
      assert LinkPath(nodes, written, content, init);
      ReachableIsReadable(content, rank, nodes, order, oldest, newest, disk, written, init);
      var p, c := path[|path| - 2], path[|path| - 1];
      assert Linked(nodes, written, content, p, c);
      if p in nodes {
        LinksHold(nodes[p], c);
      }
      var places := GatherPlaces(content(p), c);
      if p in nodes && p != ZERO && c in Links(nodes[p]) {
        var i := IndexOf(order, p);
        assert c in LinksOf(nodes, order[i]);
      }
    }
  }

  lemma {:induction false} PlacesCount(n: Collapsed, h: Hash, places: set<seq<nat>>)
    requires Places(n, h, places)
    ensures |places| == multiset(Gather(n))[h]
  {
    hide Gather, HashAt;
    var all := GatherPlaces(n, h);
    assert all == places;
  }

  lemma {:induction false} LinksCounted(e: Entry, cs: seq<Hash>)
    requires multiset(cs) == Links(e)
    ensures forall c :: c in cs <==> Holds(e.node, c) || c in e.children
    ensures forall c, places :: Places(e.node, c, places) ==> multiset(cs)[c] == |places| + if c in e.children then 1 else 0
  {
    hide Gather, Holds, Places;
    forall c
      ensures c in cs <==> Holds(e.node, c) || c in e.children
    {
      LinksHold(e, c);
      assert c in cs <==> c in multiset(cs);
    }
    forall c, places | Places(e.node, c, places)
      ensures multiset(cs)[c] == |places| + if c in e.children then 1 else 0
    {
      PlacesCount(e.node, c, places);
      assert multiset(e.children.Keys)[c] == if c in e.children then 1 else 0;
    }
  }

  /** A new node raises the count of each cached node by the number of places it holds it at. */
  ghost predicate CountsPlaces(a: Nodes, b: Nodes, n: Collapsed) {
    forall c, places :: c in a && Places(n, c, places) ==> c in b && b[c].parents == a[c].parents + |places|
  }

  lemma {:induction false} GatherHeld(n: Collapsed)
    ensures forall c :: c in Gather(n) <==> Holds(n, c)
  {
    hide Gather, Holds;
    forall c
      ensures c in Gather(n) <==> Holds(n, c)
    {
      var places := GatherPlaces(n, c);
    }
  }

  lemma {:induction false} InsertedCounts(a: Nodes, b: Nodes, order: seq<Hash>, newest: Hash, x: Hash)
    requires Inserted(a, b, order, newest, x)
    ensures CountsPlaces(a, b, b[x].node)
  {
    hide Gather, Places;
    forall c, places | c in a && Places(b[x].node, c, places)
      ensures c in b && b[c].parents == a[c].parents + |places|
    {
      PlacesCount(b[x].node, c, places);
    }
  }

  // ---------------------------------------------------------------- appending and counting in 16 bits

  /** A new entry at the tail: the old tail is linked to it. */
  ghost function Tailed(nodes: Nodes, oldest: Hash, newest: Hash, x: Hash, e: Entry): Nodes {
    var b := nodes[x := e];
    if oldest == ZERO || newest !in b then b else b[newest := b[newest].(flushNext := x)]
  }

  ghost predicate TooMany(nodes: Nodes, ls: multiset<Hash>, c: Hash) {
    c in nodes && c in ls && nodes[c].parents + ls[c] >= TWO16
  }

  lemma {:induction false} Appended(content: Hash -> Collapsed, rank: Hash -> nat, a: Nodes, m: Nodes, b: Nodes, order: seq<Hash>, oldest: Hash,
                                    newest: Hash, disk: set<Hash>, x: Hash, e: Entry)
    requires InvOn(content, rank, a, order, oldest, newest, disk, multiset{}, {}) && WellFounded(content, rank)
    requires x !in a && Bumped(a, m, multiset(Gather(e.node))) && b == Tailed(m, oldest, newest, x, e)
    requires e.node == content(x) && forall c :: c in Gather(e.node) ==> c in order || c in disk
    requires e.children == map[] && e.parents == 0 && e.flushPrev == newest && e.flushNext == ZERO
    ensures InvOn(content, rank, b, order + [x], if oldest == ZERO then x else oldest, x, disk, multiset{}, {})
    ensures Inserted(a, b, order, newest, x) && x in b && b[x].node == e.node && b[x].size == e.size
    ensures Sizes(b, order + [x]) == Sizes(a, order) + HASH_LENGTH + e.size
  {
    hide InvOn, Sizes, Gather, ListOk, Bumped, Inserted, Plain, WellFounded;
    Listed(content, rank, a, order, oldest, newest, disk, multiset{}, {}, x);
    HeadOf(a, order, oldest, newest);
    TailLinked(a, m, order, newest, x, e);
    InsertInv(content, rank, a, order, oldest, newest, disk, b, x);
  }

  lemma {:induction false} TailedContents(a: Nodes, m: Nodes, b: Nodes, order: seq<Hash>, oldest: Hash, newest: Hash, x: Hash, e: Entry)
    requires Plain(a, order) && x !in a && CountedUp(a, m, multiset(Gather(e.node))) && b == Tailed(m, oldest, newest, x, e)
    ensures SameContents(a, b, order) && b.Keys == a.Keys + {x} && ZERO in b && b[ZERO].children == a[ZERO].children
    ensures b[x].node == e.node && b[x].children == e.children && b[x].size == e.size
    ensures forall c :: c in a ==> b[c].parents == m[c].parents
  {
    hide Gather, Distinct;
    assert ZERO in a && x != ZERO;
    assert forall h :: h in a ==> h in m && m[h].node == a[h].node && m[h].children == a[h].children && m[h].size == a[h].size;
  }

  lemma {:induction false} AppendWraps(content: Hash -> Collapsed, rank: Hash -> nat, a: Nodes, m: Nodes, b: Nodes, order: seq<Hash>, oldest: Hash,
                                       newest: Hash, disk: set<Hash>, x: Hash, e: Entry, c: Hash, bOldest: Hash, bNewest: Hash)
    requires InvOn(content, rank, a, order, oldest, newest, disk, multiset{}, {}) && x !in a
    requires CountedUp(a, m, multiset(Gather(e.node))) && b == Tailed(m, oldest, newest, x, e) && e.children == map[]
    requires c in order && c !in disk && TooMany(a, multiset(Gather(e.node)), c)
    ensures !InvOn(content, rank, b, order + [x], bOldest, bNewest, disk, multiset{}, {})
  {
    hide InvOn, Gather, Tailed, Plain, ListOk, SameContents, Links, Counted;
    Listed(content, rank, a, order, oldest, newest, disk, multiset{}, {}, x);
    InvCounted(content, rank, a, order, oldest, newest, disk);
    TailedContents(a, m, b, order, oldest, newest, x, e);
    LinksPlain(b[x]);
    InsertWraps(a, b, order, disk, x, multiset(Gather(e.node)), c);
    if InvOn(content, rank, b, order + [x], bOldest, bNewest, disk, multiset{}, {}) {
      InvCounted(content, rank, b, order + [x], bOldest, bNewest, disk);
    }
  }

  lemma {:induction false} InvCounted(content: Hash -> Collapsed, rank: Hash -> nat, nodes: Nodes, order: seq<Hash>, oldest: Hash, newest: Hash, disk: set<Hash>)
    requires InvOn(content, rank, nodes, order, oldest, newest, disk, multiset{}, {})
    ensures Counted(nodes, order, disk, multiset{}) && ZERO in nodes
  {
  }

  lemma {:induction false} LinksPlain(e: Entry)
    requires e.children == map[]
    ensures Links(e) == multiset(Gather(e.node))
  {
    assert multiset(e.children.Keys) == multiset{};
  }

  /** What inserting comes to, with counts that fit and with one that does not. */
  lemma {:induction false} Inserting(content: Hash -> Collapsed, rank: Hash -> nat, a: Nodes, m: Nodes, b: Nodes, order: seq<Hash>, oldest: Hash,
                                     newest: Hash, disk: set<Hash>, x: Hash, e: Entry, bOldest: Hash)
    requires InvOn(content, rank, a, order, oldest, newest, disk, multiset{}, {}) && WellFounded(content, rank)
    requires x !in a && CountedUp(a, m, multiset(Gather(e.node))) && b == Tailed(m, oldest, newest, x, e)
    requires e.node == content(x) && forall c :: c in Gather(e.node) ==> c in order || c in disk
    requires e.children == map[] && e.parents == 0 && e.flushPrev == newest && e.flushNext == ZERO
    requires bOldest == if oldest == ZERO then x else oldest
    ensures b.Keys == a.Keys + {x} && b[x].node == e.node && b[x].size == e.size
    ensures CountsFit(a, multiset(Gather(e.node))) ==>
              && InvOn(content, rank, b, order + [x], bOldest, x, disk, multiset{}, {}) && Inserted(a, b, order, newest, x)
              && Sizes(b, order + [x]) == Sizes(a, order) + HASH_LENGTH + e.size
    ensures (exists c :: c in order && c !in disk && TooMany(a, multiset(Gather(e.node)), c)) ==>
              !InvOn(content, rank, b, order + [x], bOldest, x, disk, multiset{}, {})
  {
    hide InvOn, Sizes, Gather, Bumped, Inserted, WellFounded, CountedUp, CountsFit, Tailed, TooMany, ListOk, Plain;
    Listed(content, rank, a, order, oldest, newest, disk, multiset{}, {}, x);
    TailedContents(a, m, b, order, oldest, newest, x, e);
    if CountsFit(a, multiset(Gather(e.node))) {
      CountedFits(a, m, multiset(Gather(e.node)));
      Appended(content, rank, a, m, b, order, oldest, newest, disk, x, e);
    }
    if c :| c in order && c !in disk && TooMany(a, multiset(Gather(e.node)), c) {
      AppendWraps(content, rank, a, m, b, order, oldest, newest, disk, x, e, c, bOldest, x);
    }
  }

  /** What an insertion does to lengths, counts and the size counter. */
  lemma {:induction false} InsertedSizes(a: Nodes, b: Nodes, order: seq<Hash>, newest: Hash, x: Hash, lengths: map<Hash, nat>, l: nat,
                                         history: seq<nat>)
    requires LengthsOk(a, lengths) && x in b && b[x].size == l % TWO16
    ensures Inserted(a, b, order, newest, x) ==> LengthsOk(b, lengths[x := l]) && CountsPlaces(a, b, b[x].node)
    ensures (HASH_LENGTH + l % TWO16) % TWO16 == HASH_LENGTH + l % TWO16 - TWO16 * (Drift(history + [l]) - Drift(history))
  {
    hide LengthsOk, Inserted, CountsPlaces, Drift;
    DriftNext(history, l);
    if Inserted(a, b, order, newest, x) {
      LengthsInserted(a, b, order, newest, x, lengths, l);
      InsertedCounts(a, b, order, newest, x);
    }
  }

  lemma {:induction false} ReferenceWraps(content: Hash -> Collapsed, rank: Hash -> nat, nodes: Nodes, order: seq<Hash>, oldest: Hash, newest: Hash,
                                          disk: set<Hash>, child: Hash, parent: Hash)
    requires InvOn(content, rank, nodes, order, oldest, newest, disk, multiset{}, {}) && child != ZERO && child in nodes && child !in disk
    requires parent in nodes && (parent == ZERO || (child !in nodes[parent].children && rank(child) < rank(parent)))
    requires nodes[child].parents == TWO16 - 1 && Roots(nodes, child) < TWO16
    ensures !InvOn(content, rank, Recounted(nodes, child, parent), order, oldest, newest, disk, multiset{}, {})
  {
    hide Links, AllLinks, Distinct, After, Recounted, Roots, Decremented;
    CountWraps(nodes, order, disk, child, parent);
  }

  class Database {
    var nodes: Nodes
    var oldest: Hash
    var newest: Hash
    var disk: map<Hash, Collapsed>
    var nodesSize: int
    ghost var order: seq<Hash>
    ghost var written: map<Hash, set<Hash>>
    /** The true length of every blob cached, and of every blob ever cached. */
    ghost var lengths: map<Hash, nat>
    ghost var history: seq<nat>
    ghost const content: Hash -> Collapsed
    ghost const rank: Hash -> nat

    ghost predicate Inv(debt: multiset<Hash>, flight: set<Hash>)
      reads this
    {
      InvOn(content, rank, nodes, order, oldest, newest, written.Keys, debt, flight)
    }

    ghost predicate DiskOk()
      reads this
    {
      DiskOkOn(content, rank, disk, written)
    }

    ghost predicate Valid()
      reads this
    {
      Inv(multiset{}, {}) && DiskOk() && nodesSize == Sizes(nodes, order) - TWO16 * Drift(history) && LengthsOk(nodes, lengths)
    }

    /** The three-way switch that takes a node off the flush list. */
    method Unlink(child: Hash)
      requires ListOk(nodes, order, oldest, newest) && child in order
      modifies this`nodes, this`oldest, this`newest, this`order
      ensures ListOk(nodes, order, oldest, newest)
      ensures order == Without(old(order), child)
      ensures SameButFlush(old(nodes), nodes) && nodes.Keys == old(nodes.Keys)
      ensures forall h :: h in nodes && h !in old(order) && h != ZERO ==> nodes[h] == old(nodes[h])
    {
      hide ListOk, SameButFlush;
      ghost var i := IndexOf(order, child);
      Position(nodes, order, oldest, newest, i);
      var node := nodes[child];
      if child == oldest {
        UnlinkFirst(nodes, order, oldest, newest);
        oldest := node.flushNext;
        nodes := nodes[node.flushNext := nodes[node.flushNext].(flushPrev := ZERO)];
      } else if child == newest {
        UnlinkLast(nodes, order, oldest, newest);
        newest := node.flushPrev;
        nodes := nodes[node.flushPrev := nodes[node.flushPrev].(flushNext := ZERO)];
      } else {
        UnlinkMiddle(nodes, order, oldest, newest, i);
        nodes := nodes[node.flushPrev := nodes[node.flushPrev].(flushNext := node.flushNext)];
        nodes := nodes[node.flushNext := nodes[node.flushNext].(flushPrev := node.flushPrev)];
      }
      order := Cut(order, i);
    }

    /** `childs`: the explicit children in any order, then the implicit ones. */
    method Childs(e: Entry) returns (cs: seq<Hash>)
      ensures multiset(cs) == Links(e)
      ensures forall c :: c in cs <==> Holds(e.node, c) || c in e.children
      ensures forall c, places :: Places(e.node, c, places) ==> multiset(cs)[c] == |places| + if c in e.children then 1 else 0
    {
      var keys := e.children.Keys;
      cs := [];
      while keys != {}
        invariant keys <= e.children.Keys && multiset(cs) + multiset(keys) == multiset(e.children.Keys)
      {
        var k :| k in keys;
        assert multiset(keys) == multiset(keys - {k}) + multiset{k};
        keys, cs := keys - {k}, cs + [k];
      }
      cs := cs + Gather(e.node);
      LinksCounted(e, cs);
    }

    /** The part of `dereference` that follows the child: count down, drop it at zero, cascade. */
    method Release(child: Hash, ghost debt: multiset<Hash>, ghost flight: set<Hash>)
      requires child != ZERO && Inv(debt + multiset{child}, flight)
      requires forall f :: f in flight ==> rank(child) < rank(f)
      modifies this`nodes, this`oldest, this`newest, this`order, this`nodesSize
      ensures Inv(debt, flight)
      ensures Shrunk(old(nodes), old(order), nodes, order)
      ensures forall f :: f in flight ==> f in nodes && f in old(nodes) && nodes[f] == old(nodes[f])
      ensures nodesSize - Sizes(nodes, order) == old(nodesSize - Sizes(nodes, order)) && GoneUnder(rank, old(nodes), nodes, child)
      decreases rank(child), 1
    {
      hide InvOn, Shrunk, SameButFlush, SameLinks, Sizes, ListOk, Plain, Links, Without, Decremented, Detached, GoneUnder;
      GoneSame(rank, nodes, nodes, child);
      if child !in nodes {
        ReleaseMissing(content, rank, nodes, order, oldest, newest, written.Keys, debt, flight, child);
        Listed(content, rank, nodes, order, oldest, newest, written.Keys, debt, flight, child);
        return;
      }
      Listed(content, rank, nodes, order, oldest, newest, written.Keys, debt + multiset{child}, flight, child);
      ReleaseSubtract(content, rank, nodes, order, oldest, newest, written.Keys, debt, flight, child);
      GoneCounted(rank, nodes, child, child);
      nodes := nodes[child := Decremented(nodes[child])];
      if nodes[child].parents > 0 {
        ShrunkSubtract(old(nodes), order, child);
        return;
      }
      SumsFrame2(old(nodes), nodes, order);
      Cascade(child, debt, flight, old(nodes));
    }

    /** Drop an unreferenced node and give back every reference it holds. */
    method Cascade(child: Hash, ghost debt: multiset<Hash>, ghost flight: set<Hash>, ghost before: Nodes)
      requires child in order && child != ZERO && Inv(debt, flight)
      requires forall f :: f in flight ==> rank(child) < rank(f)
      requires child in before && child in nodes && nodes == before[child := Decremented(before[child])] && nodes[child].parents == 0
      modifies this`nodes, this`oldest, this`newest, this`order, this`nodesSize
      ensures Inv(debt, flight)
      ensures Shrunk(before, old(order), nodes, order)
      ensures forall f :: f in flight ==> f in nodes && f in old(nodes) && nodes[f] == old(nodes[f])
      ensures nodesSize - Sizes(nodes, order) == old(nodesSize - Sizes(nodes, order)) && GoneUnder(rank, before, nodes, child)
      decreases rank(child), 0, 1
    {
      hide InvOn, Shrunk, SameButFlush, SameLinks, Sizes, ListOk, Plain, Links, Without, Decremented, Detached, GoneUnder;
      GoneCounted(rank, before, child, child);
      ghost var a, ao, n0 := nodes, order, nodesSize;
      Listed(content, rank, nodes, order, oldest, newest, written.Keys, debt, flight, child);
      Unlink(child);
      ReleaseUnlinked(content, rank, a, ao, old(oldest), old(newest), written.Keys, debt, flight, child, nodes, oldest, newest);
      GoneUnlinked(rank, a, nodes, child);
      GoneTrans(rank, before, a, nodes, child);
      PlainBefore(before, ao, child);
      ShrunkUnlink(before, ao, child, nodes);
      ghost var b, bo, flying := nodes, order, flight + {child};
      var cs := Childs(nodes[child]);
      Listed(content, rank, nodes, order, oldest, newest, written.Keys, debt + multiset(cs), flying, child);
      assert forall c :: c in cs ==> c in multiset(cs);
      ReleaseAll(child, cs, debt, flying);
      GoneTrans(rank, before, b, nodes, child);
      GoneSelf(rank, before, nodes, child);
      ShrunkTrans(before, ao, b, bo, nodes, order);
      Listed(content, rank, nodes, order, oldest, newest, written.Keys, debt, flying, child);
      ReleaseFlight(content, rank, nodes, order, oldest, newest, written.Keys, debt, flying, child, ZERO);
      ShrunkDelete(before, ao, nodes, order, child);
      assert flying - {child} == flight;
      nodesSize := nodesSize - (HASH_LENGTH + nodes[child].size);
      nodes := nodes - {child};
    }

    /** Give back the references `cs` of a node being dropped, one after the other. */
    method ReleaseAll(child: Hash, cs: seq<Hash>, ghost debt: multiset<Hash>, ghost flight: set<Hash>)
      requires child in flight && Inv(debt + multiset(cs), flight)
      requires forall c :: c in cs ==> c != ZERO && rank(c) < rank(child)
      requires child in nodes && forall c :: c in cs ==> c in Links(nodes[child])
      requires forall f :: f in flight ==> rank(child) <= rank(f)
      modifies this`nodes, this`oldest, this`newest, this`order, this`nodesSize
      ensures Inv(debt, flight)
      ensures Shrunk(old(nodes), old(order), nodes, order)
      ensures forall f :: f in flight && f != child ==> f in nodes && f in old(nodes) && nodes[f] == old(nodes[f])
      ensures child in nodes && child in old(nodes) && nodes[child].size == old(nodes[child].size)
      ensures nodesSize - Sizes(nodes, order) == old(nodesSize - Sizes(nodes, order)) && GoneUnder(rank, old(nodes), nodes, child)
      decreases rank(child), 0, 0
    {
      hide InvOn, Shrunk, Sizes, ListOk, Plain, Links, Detached, GoneUnder;
      GoneSame(rank, nodes, nodes, child);
      Listed(content, rank, nodes, order, oldest, newest, written.Keys, debt + multiset(cs), flight, child);
      ShrunkSelf(nodes, order, oldest, newest);
      var i := 0;
      assert cs[0..] == cs;
      while i < |cs|
        invariant 0 <= i <= |cs| && child in nodes && nodes[child].size == old(nodes[child].size)
        invariant InvOn(content, rank, nodes, order, oldest, newest, written.Keys, debt + multiset(cs[i..]), flight)
        invariant Shrunk(old(nodes), old(order), nodes, order)
        invariant forall f :: f in flight && f != child ==> f in nodes && nodes[f] == old(nodes[f])
        invariant nodesSize - Sizes(nodes, order) == old(nodesSize - Sizes(nodes, order)) && GoneUnder(rank, old(nodes), nodes, child)
      {
        var c := cs[i];
        GoneDetached(rank, nodes, child, c, child);
        GoneTrans(rank, old(nodes), nodes, nodes[child := Detached(nodes[child], c)], child);
        TakeNext(cs, i, debt);
        Listed(content, rank, nodes, order, oldest, newest, written.Keys, debt + multiset(cs[i..]), flight, child);
        ReleaseFlight(content, rank, nodes, order, oldest, newest, written.Keys, debt + multiset(cs[i..]), flight, child, c);
        ShrunkChange(old(nodes), old(order), nodes, order, child, Detached(nodes[child], c));
        assert Detached(nodes[child], c).size == nodes[child].size by { DetachedSize(nodes[child], c); }
        nodes := nodes[child := Detached(nodes[child], c)];
        ghost var b, bo := nodes, order;
        Release(c, debt + multiset(cs[i + 1..]), flight);
        ShrunkTrans(old(nodes), old(order), b, bo, nodes, order);
        GoneChild(rank, old(nodes), b, nodes, child, c);
        i := i + 1;
      }
      assert cs[i..] == [] && debt + multiset(cs[i..]) == debt;
    }

    constructor (ghost content: Hash -> Collapsed, ghost rank: Hash -> nat)
      requires WellFounded(content, rank)
      ensures Valid() && order == [] && disk == map[] && history == []
      ensures nodes.Keys == {ZERO} && forall h :: Roots(nodes, h) == 0
    {
      nodes := map[ZERO := Entry(NilNode, 0, 0, map[], ZERO, ZERO)];
      oldest, newest, disk, nodesSize := ZERO, ZERO, map[], 0;
      order, written, lengths, history := [], map[], map[], [];
      this.content, this.rank := content, rank;
    }

    /** `Dereference`: give back one reference of the meta-root. */
    method Dereference(root: Hash)
      requires Valid() && (root in nodes ==> root in disk || Roots(nodes, root) > 0 || root == ZERO)
      modifies this`nodes, this`oldest, this`newest, this`order, this`nodesSize
      ensures Valid()
      ensures root == ZERO ==> nodes == old(nodes) && order == old(order)
      ensures forall h :: Roots(nodes, h) == if h == root != ZERO && old(Roots(nodes, h)) > 0 then old(Roots(nodes, h)) - 1 else old(Roots(nodes, h))
      ensures order == Kept(old(order), Members(order))
      ensures forall h :: h in order ==> h in old(nodes) && Lessened(old(nodes)[h], nodes[h])
      ensures forall p :: p in old(nodes) && p !in nodes ==> Under(rank, old(nodes), root, p)
    {
      hide DiskOkOn, InvOn, Sizes, ListOk, Distinct, Detached, Roots, Lessened, Kept, GoneUnder, Under, Drift, LengthsOk;
      DiskFacts(content, rank, disk, written);
      Listed(content, rank, nodes, order, oldest, newest, written.Keys, multiset{}, {}, root);
      if root == ZERO {
        ShrunkSelf(nodes, order, oldest, newest);
        return;
      }
      DetachRoot(content, rank, nodes, order, oldest, newest, written.Keys, root);
      GoneDetached(rank, nodes, ZERO, root, root);
      nodes := nodes[ZERO := Detached(nodes[ZERO], root)];
      ghost var b := nodes;
      Release(root, multiset{}, {});
      SameRoots(b, nodes);
      GoneTrans(rank, old(nodes), b, nodes, root);
      GoneOnly(rank, old(nodes), nodes, root);
      LengthsLess(content, rank, old(nodes), nodes, order, oldest, newest, written.Keys, lengths);
    }

    /**
     * `insert`: cache a new node at the tail of the flush list; a cached one is left alone. The counts of its children go
     * up in 16 bits: where one does not fit, it is wrong afterwards.
     */
    method Insert(hash: Hash, blob: Bytes, node: Collapsed)
      requires Valid() && node == content(hash)
      requires hash !in nodes ==> forall c :: Holds(node, c) ==> c in order || c in disk
      modifies this`nodes, this`oldest, this`newest, this`order, this`nodesSize, this`lengths, this`history
      ensures hash in old(nodes) ==>
                Valid() && nodes == old(nodes) && order == old(order) && history == old(history) && lengths == old(lengths)
      ensures hash !in old(nodes) ==>
                && order == old(order) + [hash] && nodes.Keys == old(nodes.Keys) + {hash} && nodes[hash].node == node
                && nodes[hash].size == |blob| % TWO16 && history == old(history) + [|blob|] && lengths == old(lengths)[hash := |blob|]
      ensures hash !in old(nodes) && CountsFit(old(nodes), multiset(Gather(node))) ==>
                Valid() && Inserted(old(nodes), nodes, old(order), old(newest), hash) && CountsPlaces(old(nodes), nodes, node)
      ensures hash !in old(nodes) && (exists c :: c in old(order) && c !in disk && TooMany(old(nodes), multiset(Gather(node)), c)) ==> !Valid()
    {
      hide *;
      if hash !in nodes {
        InsertFresh(hash, blob, node);
      }
    }

    method InsertFresh(hash: Hash, blob: Bytes, node: Collapsed)
      requires Valid() && node == content(hash) && hash !in nodes && forall c :: Holds(node, c) ==> c in order || c in disk
      modifies this`nodes, this`oldest, this`newest, this`order, this`nodesSize, this`lengths, this`history
      ensures order == old(order) + [hash] && nodes.Keys == old(nodes.Keys) + {hash} && nodes[hash].node == node
      ensures nodes[hash].size == |blob| % TWO16 && history == old(history) + [|blob|] && lengths == old(lengths)[hash := |blob|]
      ensures CountsFit(old(nodes), multiset(Gather(node))) ==>
                Valid() && Inserted(old(nodes), nodes, old(order), old(newest), hash) && CountsPlaces(old(nodes), nodes, node)
      ensures (exists c :: c in old(order) && c !in disk && TooMany(old(nodes), multiset(Gather(node)), c)) ==> !Valid()
    {
      hide InvOn, Sizes, Gather, Inserted, DiskOkOn, Wraps, Drift, LengthsOk, CountedUp, CountsFit, Tailed, TooMany, ListOk, Holds, CountsPlaces, Plain, WellFounded, Links;
      DiskFacts(content, rank, disk, written);
      GatherHeld(node);
      Listed(content, rank, nodes, order, oldest, newest, written.Keys, multiset{}, {}, hash);
      HeadOf(nodes, order, oldest, newest);
      var size := |blob| % TWO16;
      var entry := Entry(node, size, 0, map[], newest, ZERO);
      BumpChildren(Gather(node));
      ghost var counted := nodes;
      Append(hash, entry);
      Inserting(content, rank, old(nodes), counted, nodes, old(order), old(oldest), old(newest), written.Keys, hash, entry, oldest);
      InsertedSizes(old(nodes), nodes, old(order), old(newest), hash, lengths, |blob|, history);
      nodesSize := nodesSize + (HASH_LENGTH + size) % TWO16;
      lengths, history := lengths[hash := |blob|], history + [|blob|];
    }

    /** Put a new entry at the tail of the flush list. */
    method Append(hash: Hash, entry: Entry)
      requires hash !in nodes && (oldest != ZERO ==> newest in nodes)
      modifies this`nodes, this`oldest, this`newest, this`order
      ensures nodes == Tailed(old(nodes), old(oldest), old(newest), hash, entry) && order == old(order) + [hash]
      ensures newest == hash && oldest == if old(oldest) == ZERO then hash else old(oldest)
    {
      nodes := nodes[hash := entry];
      if oldest == ZERO {
        oldest, newest := hash, hash;
      } else {
        nodes := nodes[newest := nodes[newest].(flushNext := hash)];
        newest := hash;
      }
      order := order + [hash];
    }

    /** Count a new node's references; the counter is 16 bits wide. */
    method BumpChildren(cs: seq<Hash>)
      modifies this`nodes
      ensures CountedUp(old(nodes), nodes, multiset(cs)) && nodes.Keys == old(nodes.Keys)
    {
      hide CountedUp;
      CountedNone(nodes, cs);
      for i := 0 to |cs|
        invariant CountedUp(old(nodes), nodes, multiset(cs[..i]))
      {
        CountedNext(old(nodes), nodes, cs, i);
        if cs[i] in nodes {
          nodes := nodes[cs[i] := nodes[cs[i]].(parents := (nodes[cs[i]].parents + 1) % TWO16)];
        }
      }
      CountedAll(old(nodes), nodes, cs);
    }

    /**
     * `Reference`: a root reference may repeat, a reference from a node is recorded once. Both counts are 16 bits wide:
     * where one does not fit, it is wrong afterwards.
     */
    method Reference(child: Hash, parent: Hash)
      requires Valid() && child != ZERO && (child in nodes ==> parent in nodes)
      requires child in nodes && parent != ZERO ==> rank(child) < rank(parent) && (child in disk || Before(order, child, parent))
      modifies this`nodes
      ensures child !in old(nodes) || (parent != ZERO && child in old(nodes)[parent].children) ==> Valid() && nodes == old(nodes)
      ensures child in old(nodes) && (parent == ZERO || child !in old(nodes)[parent].children) ==>
                && nodes == Recounted(old(nodes), child, parent)
                && (ReferenceFits(old(nodes), child, parent) ==> Valid() && nodes == Referred(old(nodes), child, parent))
                && (child !in disk && old(nodes)[child].parents == TWO16 - 1 && old(Roots(nodes, child)) < TWO16 ==> !Valid())
    {
      hide InvOn, Sizes, Before, DiskOkOn, Referred, Recounted, Drift, LengthsOk, Roots;
      DiskFacts(content, rank, disk, written);
      if child !in nodes {
        return;
      }
      if child in nodes[parent].children && parent != ZERO {
        return;
      }
      if ReferenceFits(nodes, child, parent) {
        if parent == ZERO {
          ReferMeta(content, rank, nodes, order, oldest, newest, written.Keys, child);
        } else {
          ReferParent(content, rank, nodes, order, oldest, newest, written.Keys, child, parent);
        }
        LengthsReferred(nodes, child, parent, lengths);
        ReferredSteps(nodes, child, parent);
      } else if child !in disk && nodes[child].parents == TWO16 - 1 && Roots(nodes, child) < TWO16 {
        ReferenceWraps(content, rank, nodes, order, oldest, newest, written.Keys, child, parent);
      }
      CountReference(child, parent);
    }

    /** Count a reference on both sides; the counters are 16 bits wide. */
    method CountReference(child: Hash, parent: Hash)
      requires child in nodes && parent in nodes
      modifies this`nodes
      ensures nodes == Recounted(old(nodes), child, parent)
    {
      nodes := nodes[child := nodes[child].(parents := (nodes[child].parents + 1) % TWO16)];
      var count := if child in nodes[parent].children then nodes[parent].children[child] else 0;
      nodes := nodes[parent := nodes[parent].(children := nodes[parent].children[child := (count + 1) % TWO16])];
    }

    /** A write of one node: the disk stays closed under what its nodes refer to. */
    method Put(h: Hash)
      requires DiskOk() && Inv(multiset{}, {}) && h in order && h in nodes && forall c :: c in Links(nodes[h]) ==> c in disk
      modifies this`disk, this`written
      ensures DiskOk() && Inv(multiset{}, {}) && disk.Keys == old(disk.Keys) + {h}
      ensures written == Recording(nodes, old(written), h)
    {
      hide InvOn, WellFounded, DiskClosed, Links, Recording;
      EntryFacts(content, rank, nodes, order, oldest, newest, written.Keys, h);
      PutClosed(content, nodes, written, h);
      disk := disk[h := nodes[h].node];
      written := Recording(nodes, written, h);
      DiskGrows(content, rank, nodes, order, oldest, newest, old(written).Keys, written.Keys, multiset{}, {});
    }

    /** First half of `Cap`: write nodes, oldest first, until the size falls to the limit or a write fails. */
    method FlushOldest(limit: int, writes: nat) returns (ok: bool, cur: Hash, ghost k: nat)
      requires Valid()
      modifies this`disk, this`written
      ensures Valid() && k <= |order| && disk.Keys == old(disk.Keys) + Members(order[..k])
      ensures Members(order[..k]) <= Recorded(nodes, written)
      ensures ok ==> cur == (if k < |order| then order[k] else ZERO)
      ensures ok ==> k == |order| || Total(nodes, order, nodesSize, k) <= limit
      ensures forall j :: 0 <= j < k ==> Total(nodes, order, nodesSize, j) > limit
    {
      hide InvOn, Links, Sizes, DiskOkOn, ListOk, Distinct, Total, Recorded, Recording, Drift, LengthsOk;
      Listed(content, rank, nodes, order, oldest, newest, written.Keys, multiset{}, {}, ZERO);
      HeadOf(nodes, order, oldest, newest);
      CountAll(content, rank, nodes, order, oldest, newest, written.Keys);
      var size := nodesSize + (|nodes| - 1) * 2 * HASH_LENGTH;
      cur := oldest;
      k := 0;
      TotalNone(nodes, order, nodesSize);
      var left := writes;
      while size > limit && cur != ZERO
        invariant k <= |order| && cur == if k < |order| then order[k] else ZERO
        invariant Inv(multiset{}, {}) && DiskOk() && disk.Keys == old(disk.Keys) + Members(order[..k])
        invariant Members(order[..k]) <= Recorded(nodes, written)
        invariant size == Total(nodes, order, nodesSize, k)
        invariant forall j :: 0 <= j < k ==> Total(nodes, order, nodesSize, j) > limit
        decreases |order| - k
      {
        DiskFacts(content, rank, disk, written);
        if left == 0 {
          return false, cur, k;
        }
        FlushStep(content, rank, nodes, order, oldest, newest, written.Keys, k);
        TotalNext(nodes, order, nodesSize, k);
        RecordedMore(nodes, written, cur);
        Put(cur);
        left := left - 1;
        size := size - (3 * HASH_LENGTH + nodes[cur].size);
        cur := nodes[cur].flushNext;
        k := k + 1;
      }
      ok := true;
    }

    /** Second half of `Cap`: forget the nodes just written. */
    method DropFlushed(cur: Hash, ghost k: nat)
      requires Valid() && k <= |order| && cur == (if k < |order| then order[k] else ZERO)
      requires Members(order[..k]) <= disk.Keys
      modifies this`nodes, this`oldest, this`order, this`nodesSize
      ensures Valid() && order == old(order)[k..] && Remains(old(nodes), nodes)
    {
      hide InvOn, Sizes, ListOk, Distinct, DiskOkOn, Remains, After, Drift, LengthsOk;
      DiskFacts(content, rank, disk, written);
      Listed(content, rank, nodes, order, oldest, newest, written.Keys, multiset{}, {}, ZERO);
      RemainsSelf(nodes);
      ghost var j := 0;
      while oldest != cur
        invariant 0 <= j <= k && order == old(order)[j..] && Inv(multiset{}, {})
        invariant nodesSize == Sizes(nodes, order) - TWO16 * Drift(history) && Remains(old(nodes), nodes)
        decreases |order|
      {
        DropNext(content, rank, nodes, order, oldest, newest, written.Keys, old(order), j, k, cur);
        PopHead(content, rank, nodes, order, oldest, newest, written.Keys);
        RemainsLess(old(nodes), nodes, oldest);
        var node := nodes[oldest];
        nodes := nodes - {oldest};
        oldest := node.flushNext;
        nodesSize := nodesSize - (HASH_LENGTH + node.size);
        order := order[1..];
        j := j + 1;
      }
      DropEnd(content, rank, nodes, order, oldest, newest, written.Keys, old(order), j, k, cur);
      if oldest != ZERO {
        HeadPrev(content, rank, nodes, order, oldest, newest, written.Keys);
        RemainsFlush(old(nodes), nodes, nodes[oldest := nodes[oldest].(flushPrev := ZERO)]);
        nodes := nodes[oldest := nodes[oldest].(flushPrev := ZERO)];
      }
      LengthsRemain(old(nodes), nodes, lengths);
    }

    /**
     * `Cap`: flush the oldest nodes to disk until the size falls to the limit. At most `writes` writes
     * succeed; when one fails the cache is left alone and the disk holds a closed prefix.
     */
    method Cap(limit: int, writes: nat) returns (ok: bool, ghost k: nat)
      requires Valid()
      modifies this`nodes, this`oldest, this`order, this`nodesSize, this`disk, this`written
      ensures Valid() && k <= |old(order)| && disk.Keys == old(disk.Keys) + Members(old(order)[..k])
      ensures Members(old(order)[..k]) <= Recorded(old(nodes), written)
      ensures !ok ==> nodes == old(nodes) && order == old(order)
      ensures ok ==> order == old(order)[k..] && Remains(old(nodes), nodes)
      ensures ok ==> order == [] || Total(nodes, order, nodesSize, 0) <= limit
      ensures forall j :: 0 <= j < k ==> old(Total(nodes, order, nodesSize, j)) > limit
    {
      hide InvOn, Sizes, ListOk, Distinct, DiskOkOn, Remains, Total, Drift, LengthsOk;
      var cur;
      ok, cur, k := FlushOldest(limit, writes);
      if !ok {
        return;
      }
      DropFlushed(cur, k);
      Listed(content, rank, nodes, order, oldest, newest, written.Keys, multiset{}, {}, ZERO);
      TotalRest(old(nodes), nodes, old(order), k, old(nodesSize), nodesSize, Drift(history));
    }

    /** `commit`: children first, then the node itself. */
    method CommitNode(hash: Hash, writes: nat) returns (ok: bool, left: nat)
      requires hash != ZERO && Inv(multiset{}, {}) && DiskOk()
      modifies this`disk, this`written
      ensures Inv(multiset{}, {}) && DiskOk() && OnlyUnder(rank, nodes, hash, old(disk).Keys, disk.Keys)
      ensures Recorded(nodes, old(written)) <= Recorded(nodes, written)
      ensures ok ==> AllUnder(rank, nodes, hash, Recorded(nodes, written))
      decreases rank(hash)
    {
      hide InvOn, Links, DiskOkOn, OnlyUnder, AllUnder, EachUnder, Recorded, Recording;
      if hash !in nodes {
        UnderMissing(rank, nodes, hash, disk.Keys, Recorded(nodes, written));
        return true, writes;
      }
      Listed(content, rank, nodes, order, oldest, newest, written.Keys, multiset{}, {}, hash);
      var cs := Childs(nodes[hash]);
      UnderNone(rank, nodes, hash, cs, disk.Keys, Recorded(nodes, written));
      left := writes;
      for i := 0 to |cs|
        invariant Inv(multiset{}, {}) && DiskOk() && OnlyUnder(rank, nodes, hash, old(disk).Keys, disk.Keys)
        invariant Recorded(nodes, old(written)) <= Recorded(nodes, written)
        invariant EachUnder(rank, nodes, cs[..i], Recorded(nodes, written))
      {
        assert cs[i] in multiset(cs);
        ghost var before, recorded := disk.Keys, Recorded(nodes, written);
        ok, left := CommitNode(cs[i], left);
        UnderNext(rank, nodes, hash, cs, i, old(disk).Keys, before, disk.Keys, recorded, Recorded(nodes, written));
        if !ok {
          return;
        }
      }
      assert cs[..|cs|] == cs;
      DiskFacts(content, rank, disk, written);
      RecordedWritten(nodes, written);
      CommitReady(content, rank, nodes, order, oldest, newest, written.Keys, hash, cs, Recorded(nodes, written));
      if left == 0 {
        return false, 0;
      }
      UnderAll(rank, nodes, hash, cs, old(disk).Keys, disk.Keys, Recorded(nodes, written));
      RecordedMore(nodes, written, hash);
      Put(hash);
      left := left - 1;
      ok := true;
    }

    /** `uncache`: forget a persisted node and everything below it. */
    method Uncache(hash: Hash, ghost flight: set<Hash>)
      requires hash != ZERO && Inv(multiset{}, flight) && PersistedUnder(rank, nodes, written.Keys, hash)
      requires forall f :: f in flight ==> rank(hash) < rank(f)
      modifies this`nodes, this`oldest, this`newest, this`order, this`nodesSize
      ensures Inv(multiset{}, flight) && Dropped(rank, old(nodes), nodes, hash) && hash !in nodes
      ensures order == Kept(old(order), Members(order))
      ensures forall f :: f in flight ==> f in nodes && f in old(nodes) && nodes[f] == old(nodes[f])
      ensures nodesSize - Sizes(nodes, order) == old(nodesSize - Sizes(nodes, order))
      decreases rank(hash), 1
    {
      hide InvOn, PersistedUnder, Dropped, Sizes, Kept, SameButFlush, Links, Without, ListOk, Plain;
      Listed(content, rank, nodes, order, oldest, newest, written.Keys, multiset{}, flight, hash);
      if hash !in nodes {
        KeptAll(order, Members(order));
        DroppedSame(rank, nodes, hash);
        return;
      }
      ghost var a, ao, flying := nodes, order, flight + {hash};
      PersistedHere(rank, nodes, written.Keys, hash);
      Unlink(hash);
      Uncached(content, rank, a, ao, old(oldest), old(newest), written.Keys, flight, hash, nodes, oldest, newest);
      DroppedNone(rank, a, nodes, hash);
      UnlinkSizes(a, ao, hash, nodes);
      var cs := Childs(nodes[hash]);
      ghost var b, bo := nodes, order;
      assert forall c :: c in cs ==> c in multiset(cs);
      UncacheAll(hash, cs, flying, a);
      KeptTwice(ao, Members(bo), Members(order));
      UncacheEnd(content, rank, nodes, order, oldest, newest, written.Keys, flying, hash, a, cs);
      assert flying - {hash} == flight;
      nodesSize := nodesSize - (HASH_LENGTH + nodes[hash].size);
      nodes := nodes - {hash};
    }

    /** Uncache the children `cs` of a node that is being forgotten. */
    method UncacheAll(hash: Hash, cs: seq<Hash>, ghost flight: set<Hash>, ghost a: Nodes)
      requires hash in flight && Inv(multiset{}, flight) && Dropped(rank, a, nodes, hash) && hash in a
      requires PersistedUnder(rank, a, written.Keys, hash) && multiset(cs) == Links(a[hash])
      requires forall c :: c in cs ==> c != ZERO && rank(c) < rank(hash)
      requires forall f :: f in flight ==> rank(hash) <= rank(f)
      modifies this`nodes, this`oldest, this`newest, this`order, this`nodesSize
      ensures Inv(multiset{}, flight) && Dropped(rank, a, nodes, hash) && forall c :: c in cs ==> c !in nodes
      ensures order == Kept(old(order), Members(order)) && Members(order) <= Members(old(order))
      ensures forall f :: f in flight ==> f in nodes && f in old(nodes) && nodes[f] == old(nodes[f])
      ensures nodesSize - Sizes(nodes, order) == old(nodesSize - Sizes(nodes, order))
      decreases rank(hash), 0
    {
      hide InvOn, PersistedUnder, Dropped, Sizes, Kept, Links, ListOk, Plain, Remains;
      KeptAll(order, Members(order));
      Listed(content, rank, nodes, order, oldest, newest, written.Keys, multiset{}, flight, hash);
      for i := 0 to |cs|
        invariant Inv(multiset{}, flight) && Dropped(rank, a, nodes, hash) && forall c :: c in cs[..i] ==> c !in nodes
        invariant order == Kept(old(order), Members(order)) && Members(order) <= Members(old(order))
        invariant forall f :: f in flight ==> f in nodes && nodes[f] == old(nodes[f])
        invariant nodesSize - Sizes(nodes, order) == old(nodesSize - Sizes(nodes, order))
      {
        var c := cs[i];
        assert c in multiset(cs);
        ghost var b, bo := nodes, order;
        UncacheReady(rank, a, b, written.Keys, hash, c);
        Uncache(c, flight);
        DroppedKeys(rank, b, nodes, c);
        DroppedChild(rank, a, b, nodes, hash, c);
        KeptMembers(bo, order);
        KeptTwice(old(order), Members(bo), Members(order));
      }
      assert cs[..|cs|] == cs;
    }

    /** `Commit`: write a trie to disk, children before parents, then forget it in the cache. */
    method Commit(hash: Hash, writes: nat) returns (ok: bool)
      requires Valid() && hash != ZERO
      modifies this`nodes, this`oldest, this`newest, this`order, this`nodesSize, this`disk, this`written
      ensures Valid() && OnlyUnder(rank, old(nodes), hash, old(disk).Keys, disk.Keys)
      ensures !ok ==> nodes == old(nodes) && order == old(order)
      ensures ok ==> AllUnder(rank, old(nodes), hash, Recorded(old(nodes), written)) && Remains(old(nodes), nodes)
      ensures ok ==> order == Kept(old(order), Members(order))
      ensures ok ==> forall p :: p in nodes <==> p in old(nodes) && !Under(rank, old(nodes), hash, p)
    {
      hide InvOn, OnlyUnder, AllUnder, PersistedUnder, Dropped, Remains, Sizes, Kept, DiskOkOn, Under, Recorded, Drift, LengthsOk;
      var left;
      ok, left := CommitNode(hash, writes);
      if !ok {
        return;
      }
      DiskFacts(content, rank, disk, written);
      RecordedWritten(nodes, written);
      CommitPersists(content, rank, nodes, order, oldest, newest, written.Keys, hash, Recorded(nodes, written));
      Uncache(hash, {});
      DroppedExactly(rank, old(nodes), nodes, hash);
      DroppedRemains(rank, old(nodes), nodes, hash);
      LengthsRemain(old(nodes), nodes, lengths);
    }

    /** `Node`: the cache first, then the disk; what comes back is what the hash stands for. */
    method Node(hash: Hash) returns (r: Option<Collapsed>)
      requires Valid() && hash != ZERO
      ensures r == if hash in order || hash in disk then Some(content(hash)) else None
    {
      if hash in nodes {
        assert RankedEntry(content, rank, hash, nodes[hash]);
        return Some(nodes[hash].node);
      }
      if hash in disk {
        return Some(disk[hash]);
      }
      return None;
    }

    /**
     * `Size`: three hashes and the data of every cached node, less what the 16-bit fields lose. It is exact if and only
     * if no blob ever inserted overflowed the addition and no blob now cached is longer than the length field.
     */
    method Size() returns (size: int)
      requires Valid()
      ensures size == Total(nodes, order, nodesSize, 0)
      ensures size == DataSize(lengths, order) + 2 * HASH_LENGTH * |order| - TWO16 * (Drift(history) + CutOff(lengths, order))
      ensures size == DataSize(lengths, order) + 2 * HASH_LENGTH * |order| <==>
              (forall l :: l in history ==> !Overflows(l)) && (forall h :: h in order ==> LengthOf(lengths, h) < TWO16)
    {
      hide InvOn, Sizes, DiskOkOn, Total, Drift, LengthsOk, DataSize, CutOff, LengthOf;
      CountAll(content, rank, nodes, order, oldest, newest, written.Keys);
      Listed(content, rank, nodes, order, oldest, newest, written.Keys, multiset{}, {}, ZERO);
      TotalNone(nodes, order, nodesSize);
      DataIsCut(nodes, lengths, order);
      NoDrift(history);
      NoneCut(lengths, order);
      size := nodesSize + (|nodes| - 1) * 2 * HASH_LENGTH;
      SizeParts(size, nodesSize, |order|, Sizes(nodes, order), DataSize(lengths, order), Drift(history), CutOff(lengths, order));
    }
  }
}
