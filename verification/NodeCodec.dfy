/** Trie nodes in memory and on disk (trie/node.go): the node types, the RLP form a node is hashed
    and stored in, and the decoder.

    A node whose encoding is shorter than a hash is embedded in its parent, any other child is
    replaced by its hash.  Decoding the stored form of a canonical tree is proved to return exactly
    that shape: the same keys and values, embedded children in place, hash references for the rest. */
module NodeCodec {
  import opened Common
  import opened RlpSpec
  import opened RlpRaw
  import opened HexPrefix
  import opened PatriciaTree

  /** Caching metadata of a node. */
  datatype Flag = Flag(hash: Option<Bytes>, gen: nat, dirty: bool)

  datatype Node =
    | Nil
    | Value(bytes: Bytes)
    | Short(key: Bytes, val: Node, flag: Flag)
    | Full(children: seq<Node>, flag: Flag)
    | HashRef(hash: Bytes)

  datatype DecodeError = EmptyBuffer | Malformed(e: Error) | BadCount | BadRefSize | OversizedEmbedded | EmptyKey

  const HASH_LEN: nat := 32

  // ---------------------------------------------------------------- decoding

  /** `decodeNode`.  An empty compact key, on which the source panics, is reported as `EmptyKey`. */
  function DecodeNode(hash: Option<Bytes>, buf: Bytes, gen: nat): (r: Result<Node, DecodeError>)
    ensures r.Ok? ==> r.value.Short? || r.value.Full?
    decreases |buf|, 2
  {
    if buf == [] then Err(EmptyBuffer) else
      var list := SplitList(buf);
      if list.Err? then Err(Malformed(list.error)) else
        var elems := list.value.content;
        if Count(elems) == Ok(2) then DecodeShort(hash, elems, gen)
        else if Count(elems) == Ok(17) then DecodeFull(hash, elems, gen)
        else Err(BadCount)
  }

  function DecodeShort(hash: Option<Bytes>, elems: Bytes, gen: nat): (r: Result<Node, DecodeError>)
    ensures r.Ok? ==> r.value.Short?
    decreases |elems|, 1
  {
    var kbuf := SplitString(elems);
    if kbuf.Err? then Err(Malformed(kbuf.error))
    else if kbuf.value.content == [] then Err(EmptyKey) else
      var flag, key, rest := Flag(hash, gen, false), CompactToHex(kbuf.value.content), kbuf.value.rest;
      if HasTerm(key) then
        var val := SplitString(rest);
        if val.Err? then Err(Malformed(val.error)) else Ok(Short(key, Value(val.value.content), flag))
      else
        var r := DecodeRef(rest, gen);
        if r.Err? then Err(r.error) else Ok(Short(key, r.value.0, flag))
  }

  function DecodeFull(hash: Option<Bytes>, elems: Bytes, gen: nat): (r: Result<Node, DecodeError>)
    ensures r.Ok? ==> r.value.Full? && |r.value.children| == 17
    decreases |elems|, 1
  {
    var cs := DecodeRefs(elems, 16, gen);
    if cs.Err? then Err(cs.error) else
      var val := SplitString(cs.value.1);
      if val.Err? then Err(Malformed(val.error)) else
        var last := if |val.value.content| > 0 then Value(val.value.content) else Nil;
        Ok(Full(cs.value.0 + [last], Flag(hash, gen, false)))
  }

  /** The first `n` child references and what follows them. */
  function DecodeRefs(elems: Bytes, n: nat, gen: nat): (r: Result<(seq<Node>, Bytes), DecodeError>)
    ensures r.Ok? ==> |r.value.0| == n && |r.value.1| <= |elems|
    decreases |elems|, 0, n
  {
    if n == 0 then Ok(([], elems)) else
      var front := DecodeRefs(elems, n - 1, gen);
      if front.Err? then Err(front.error) else
        var c := DecodeRef(front.value.1, gen);
        if c.Err? then Err(c.error) else Ok((front.value.0 + [c.value.0], c.value.1))
  }

  function DecodeRef(buf: Bytes, gen: nat): (r: Result<(Node, Bytes), DecodeError>)
    ensures r.Ok? ==> |r.value.1| <= |buf|
    decreases |buf|, 0, 0
  {
    var p := Split(buf);
    if p.Err? then Err(Malformed(p.error)) else
      var Parts(kind, val, rest) := p.value;
      if kind == KList then
        if |buf| - |rest| > HASH_LEN then Err(OversizedEmbedded) else
          var n := DecodeEmbedded(val, gen);
          if n.Err? then Err(n.error) else Ok((n.value, rest))
      else if kind == KString && |val| == 0 then Ok((Nil, rest))
      else if kind == KString && |val| == 32 then Ok((HashRef(val), rest))
      else Err(BadRefSize)
  }

  /** `decodeNode(nil, ..)` on an embedded list whose content has already been split off. */
  function DecodeEmbedded(elems: Bytes, gen: nat): Result<Node, DecodeError>
    decreases |elems|, 2
  {
    if Count(elems) == Ok(2) then DecodeShort(None, elems, gen)
    else if Count(elems) == Ok(17) then DecodeFull(None, elems, gen)
    else Err(BadCount)
  }

  /** A child reference: a list of up to 32 bytes in all is an embedded node, and of strings only the empty one and those of
      32 bytes refer to something. */
  lemma {:induction false} RefExact(p: Piece, rest: Bytes, gen: nat)
    requires Canonical(p) && |p.content| < TWO64
    ensures var r := DecodeRef(Shell(p) + rest, gen);
            && (r == Err(OversizedEmbedded) <== p.kind == KList && |Shell(p)| > 32)
            && (p.kind == KList && |Shell(p)| <= 32 ==>
                  match DecodeEmbedded(p.content, gen) case Ok(n) => r == Ok((n, rest)) case Err(e) => r == Err(e))
            && (p.kind == KString && p.content == [] ==> r == Ok((Nil, rest)))
            && (p.kind == KString && |p.content| == 32 ==> r == Ok((HashRef(p.content), rest)))
            && (p.kind == KByte || (p.kind == KString && |p.content| != 0 && |p.content| != 32) ==> r == Err(BadRefSize))
  {
    hide Shell, Canonical, Split, DecodeEmbedded;
    ShellSplits(p, rest);
    assert |Shell(p) + rest| - |rest| == |Shell(p)|;
  }

  /** An embedded node of 32 bytes, which should have been stored under its hash, is accepted. */
  lemma {:induction false} EmbeddedAtLimit(v: Bytes, gen: nat)
    requires |v| == 29
    ensures var enc := Encode(List([Str([0x20]), Str(v)]));
            |enc| == 32 && DecodeRef(enc, gen) == Ok((Short([TERM], Value(v), Flag(None, gen, false)), []))
  {
    hide DecodeRef, DecodeShort, DecodeFull, Count, EncodeAll;
    var items := [Str([0x20]), Str(v)];
    var p := Piece(KList, EncodeAll(items));
    LimitBytes(v);
    LimitShort(v, gen);
    CountComplete(items);
    assert Shell(p) == Encode(List(items)) && Shell(p) + [] == Shell(p);
    RefExact(p, [], gen);
  }

  lemma {:induction false} LimitBytes(v: Bytes)
    requires |v| == 29
    ensures EncodeAll([Str([0x20]), Str(v)]) == [0x20] + Encode(Str(v)) && |Encode(Str(v))| == 30
    ensures |Encode(List([Str([0x20]), Str(v)]))| == 32
  {
    var items := [Str([0x20]), Str(v)];
    assert items[1..] == [Str(v)] && [Str(v)][1..] == [];
    calc {
      EncodeAll(items);
      Encode(Str([0x20])) + EncodeAll([Str(v)]);
      [0x20] + (Encode(Str(v)) + EncodeAll([]));
      { assert Encode(Str(v)) + [] == Encode(Str(v)); }
      [0x20] + Encode(Str(v));
    }
  }

  lemma {:induction false} LimitShort(v: Bytes, gen: nat)
    requires |v| == 29
    ensures DecodeShort(None, [0x20] + Encode(Str(v)), gen) == Ok(Short([TERM], Value(v), Flag(None, gen, false)))
  {
    hide Split, Nibbles, DecodeRef, HasTerm, CompactToHex;
    SplitComplete(Str([0x20]), Encode(Str(v)));
    SplitComplete(Str(v), []);
    assert Encode(Str(v)) + [] == Encode(Str(v));
    LimitKey();
  }

  lemma {:induction false} LimitKey()
    ensures CompactToHex([0x20]) == [TERM] && HasTerm([TERM])
  {
    assert KeyHex([0x20]) == [2, 0, TERM];
  }

  lemma {:induction false} EmbeddedIsNode(buf: Bytes, gen: nat)
    requires SplitList(buf).Ok?
    ensures DecodeEmbedded(SplitList(buf).value.content, gen) == DecodeNode(None, buf, gen)
  {
  }

  // ---------------------------------------------------------------- the stored form of a tree

  /** Hashes are 32 bytes long. */
  ghost predicate HashLen(H: Bytes -> Bytes)
  {
    forall x: Bytes :: |H(x)| == HASH_LEN
  }

  /** The collapsed node: children replaced by references. */
  function Body(H: Bytes -> Bytes, t: Tree): Item
    decreases t, 1
  {
    match t
    case Empty => Str([])
    case Leaf(v) => Str(v)
    case Ext(k, c) => List([Str(Compact(k)), Ref(H, c)])
    case Branch(cs) => List(Refs(H, cs))
  }

  function Refs(H: Bytes -> Bytes, cs: seq<Tree>): (r: seq<Item>)
    ensures |r| == |cs|
    ensures forall i :: 0 <= i < |cs| ==> r[i] == Ref(H, cs[i])
    decreases cs
  {
    if cs == [] then [] else Refs(H, cs[..|cs| - 1]) + [Ref(H, cs[|cs| - 1])]
  }

  function Blob(H: Bytes -> Bytes, t: Tree): Bytes
    decreases t, 2
  {
    Encode(Body(H, t))
  }

  /** How a node appears in its parent: values as they are, small nodes embedded, others by hash. */
  function Ref(H: Bytes -> Bytes, t: Tree): Item
    decreases t, 3
  {
    if t.Empty? || t.Leaf? || |Blob(H, t)| < HASH_LEN then Body(H, t) else Str(H(Blob(H, t)))
  }

  /** Every stored length is representable. */
  ghost predicate Fits(H: Bytes -> Bytes, t: Tree)
  {
    && |Blob(H, t)| < TWO64
    && (t.Ext? ==> Fits(H, t.child))
    && (t.Branch? ==> forall i :: 0 <= i < |t.children| ==> Fits(H, t.children[i]))
  }

  // ---------------------------------------------------------------- what decoding yields

  /** The node decoded from the stored form of `t`. */
  function Loaded(H: Bytes -> Bytes, t: Tree, hash: Option<Bytes>, gen: nat): Node
    decreases t, 0
  {
    match t
    case Empty => Nil
    case Leaf(v) => Value(v)
    case Ext(k, c) => Short(k, LoadedRef(H, c, gen), Flag(hash, gen, false))
    case Branch(cs) => Full(LoadedRefs(H, cs, gen), Flag(hash, gen, false))
  }

  function LoadedRefs(H: Bytes -> Bytes, cs: seq<Tree>, gen: nat): (r: seq<Node>)
    ensures |r| == |cs|
    ensures forall i :: 0 <= i < |cs| ==> r[i] == LoadedRef(H, cs[i], gen)
    decreases cs
  {
    if cs == [] then [] else LoadedRefs(H, cs[..|cs| - 1], gen) + [LoadedRef(H, cs[|cs| - 1], gen)]
  }

  function LoadedRef(H: Bytes -> Bytes, t: Tree, gen: nat): Node
    decreases t, 1
  {
    if t.Empty? || t.Leaf? || |Blob(H, t)| < HASH_LEN then Loaded(H, t, None, gen) else HashRef(H(Blob(H, t)))
  }

  // ---------------------------------------------------------------- round trip

  lemma {:induction false} SplitStr(v: Bytes, rest: Bytes)
    requires |Encode(Str(v))| < TWO64
    ensures SplitString(Encode(Str(v)) + rest) == Ok(Parts(KindOf(Str(v)), v, rest))
  {
    SplitComplete(Str(v), rest);
  }

  lemma {:induction false} ListBody(items: seq<Item>, rest: Bytes)
    requires |Encode(List(items))| < TWO64
    ensures |EncodeAll(items)| < TWO64
    ensures Split(Encode(List(items)) + rest) == Ok(Parts(KList, EncodeAll(items), rest))
    ensures SplitList(Encode(List(items)) + rest) == Split(Encode(List(items)) + rest)
    ensures Count(EncodeAll(items)) == Ok(|items|)
  {
    SplitComplete(List(items), rest);
    CountComplete(items);
  }

  lemma {:induction false} EncodePair(a: Item, b: Item)
    ensures EncodeAll([a, b]) == Encode(a) + Encode(b)
  {
    assert [a, b][1..] == [b] && [b][1..] == [];
    assert EncodeAll([b]) == Encode(b) + EncodeAll([]);
  }

  /** The elements of a stored node decode to its loaded form. */
  lemma {:induction false} DecodeElems(H: Bytes -> Bytes, t: Tree, hash: Option<Bytes>, gen: nat)
    requires HashLen(H) && Canon(t) && !t.Empty? && Fits(H, t)
    ensures Body(H, t).List? && |Blob(H, t)| < TWO64
    ensures var elems := EncodeAll(Body(H, t).items);
            && (t.Ext? ==> Count(elems) == Ok(2) && DecodeShort(hash, elems, gen) == Ok(Loaded(H, t, hash, gen)))
            && (t.Branch? ==> Count(elems) == Ok(17) && DecodeFull(hash, elems, gen) == Ok(Loaded(H, t, hash, gen)))
    decreases t, 2
  {
    ListBody(Body(H, t).items, []);
    if t.Ext? {
      DecodeExt(H, t, hash, gen);
    } else {
      DecodeBranch(H, t, hash, gen);
    }
  }

  /** Values and absent children stand for themselves. */
  lemma {:induction false} SimpleRef(H: Bytes -> Bytes, t: Tree, gen: nat)
    ensures t.Leaf? ==> Ref(H, t) == Str(t.value) && LoadedRef(H, t, gen) == Value(t.value)
    ensures t.Empty? ==> Ref(H, t) == Str([]) && LoadedRef(H, t, gen) == Nil
  {
    assert t.Leaf? ==> Body(H, t) == Str(t.value) && Loaded(H, t, None, gen) == Value(t.value);
    assert t.Empty? ==> Body(H, t) == Str([]) && Loaded(H, t, None, gen) == Nil;
  }

  lemma {:induction false} CompactNonempty(k: Bytes)
    ensures Compact(k) != []
  {
  }

  lemma {:induction false} DecodeExt(H: Bytes -> Bytes, t: Tree, hash: Option<Bytes>, gen: nat)
    requires HashLen(H) && Canon(t) && t.Ext? && Fits(H, t)
    ensures DecodeShort(hash, EncodeAll(Body(H, t).items), gen) == Ok(Loaded(H, t, hash, gen))
    decreases t, 1
  {
    hide Encode, EncodeAll, CompactToHex, Compact, DecodeRef, Split;
    var k, c := t.key, t.child;
    var kitem, ref := Str(Compact(k)), Ref(H, c);
    EncodePair(kitem, ref);
    assert Body(H, t) == List([kitem, ref]);
    assert Blob(H, t) == Encode(Body(H, t));
    ListSizes([kitem, ref]);
    assert [kitem, ref][0] == kitem && [kitem, ref][1] == ref;
    SimpleRef(H, c, gen);
    SplitStr(Compact(k), Encode(ref));
    CompactNonempty(k);
    CompactRoundTrip(k);
    if HasTerm(k) {
      SplitStr(c.value, []);
      assert Encode(ref) + [] == Encode(ref);
    } else {
      DecodeChild(H, c, [], gen);
      assert Encode(ref) + [] == Encode(ref);
    }
  }

  lemma {:induction false} ListSizes(items: seq<Item>)
    ensures |EncodeAll(items)| <= |Encode(List(items))|
    ensures forall i :: 0 <= i < |items| ==> |Encode(items[i])| <= |EncodeAll(items)|
  {
    forall i | 0 <= i < |items| ensures |Encode(items[i])| <= |EncodeAll(items)| {
      assert items == items[..i] + ([items[i]] + items[i + 1..]);
      EncodeAllConcat(items[..i], [items[i]] + items[i + 1..]);
      assert ([items[i]] + items[i + 1..])[1..] == items[i + 1..];
    }
  }

  /** A reference decodes to what it refers to: nothing, an embedded node or a hash. */
  lemma {:induction false} DecodeChild(H: Bytes -> Bytes, c: Tree, rest: Bytes, gen: nat)
    requires HashLen(H) && Canon(c) && Fits(H, c)
    ensures DecodeRef(Encode(Ref(H, c)) + rest, gen) == Ok((LoadedRef(H, c, gen), rest))
    decreases c, 3
  {
    hide Encode, EncodeAll, DecodeShort, DecodeFull, Split;
    var ref := Ref(H, c);
    var buf := Encode(ref) + rest;
    if c.Empty? {
      StrSize([]);
      SplitComplete(Str([]), rest);
    } else if |Blob(H, c)| < HASH_LEN {
      DecodeElems(H, c, None, gen);
      ListBody(Body(H, c).items, rest);
    } else {
      var h := H(Blob(H, c));
      StrSize(h);
      SplitComplete(Str(h), rest);
    }
  }

  lemma {:induction false} StrSize(v: Bytes)
    requires |v| <= 32
    ensures |Encode(Str(v))| <= 33
  {
  }

  lemma {:induction false} DecodeBranch(H: Bytes -> Bytes, t: Tree, hash: Option<Bytes>, gen: nat)
    requires HashLen(H) && Canon(t) && t.Branch? && Fits(H, t)
    ensures DecodeFull(hash, EncodeAll(Body(H, t).items), gen) == Ok(Loaded(H, t, hash, gen))
    decreases t, 1
  {
    hide Encode, EncodeAll, DecodeRefs, SplitString;
    var cs := t.children;
    var refs := Refs(H, cs);
    DecodeChildren(H, t, 16, gen);
    LastRef(refs);
    ListSizes(refs);
    var last := Ref(H, cs[16]);
    var v := if cs[16].Empty? then [] else cs[16].value;
    SimpleRef(H, cs[16], gen);
    assert Blob(H, t) == Encode(Body(H, t));
    assert refs[16] == last == Str(v);
    SplitStr(v, []);
    assert Encode(last) + [] == Encode(last);
    assert LoadedRefs(H, cs, gen) == LoadedRefs(H, cs, gen)[..16] + [LoadedRef(H, cs[16], gen)];
  }

  lemma {:induction false} LastRef(refs: seq<Item>)
    requires |refs| == 17
    ensures EncodeAll(refs[16..]) == Encode(refs[16])
  {
    assert refs[16..] == [refs[16]] && [refs[16]][1..] == [];
    assert EncodeAll([refs[16]]) == Encode(refs[16]) + EncodeAll([]);
  }

  lemma {:induction false} BranchChildren(H: Bytes -> Bytes, t: Tree)
    requires Canon(t) && t.Branch? && Fits(H, t)
    ensures |t.children| == 17 && forall i :: 0 <= i < 16 ==> Canon(t.children[i]) && Fits(H, t.children[i])
  {
  }

  lemma {:induction false} DecodeChildren(H: Bytes -> Bytes, t: Tree, n: nat, gen: nat)
    requires HashLen(H) && Canon(t) && t.Branch? && Fits(H, t) && n <= 16
    ensures DecodeRefs(EncodeAll(Refs(H, t.children)), n, gen)
         == Ok((LoadedRefs(H, t.children, gen)[..n], EncodeAll(Refs(H, t.children)[n..])))
    decreases t, 0, n
  {
    hide Encode, DecodeRef, Refs, LoadedRefs, Canon, Fits;
    var cs := t.children;
    var refs, loaded := Refs(H, cs), LoadedRefs(H, cs, gen);
    BranchChildren(H, t);
    if n == 0 {
      assert refs[0..] == refs && loaded[..0] == [];
    } else {
      DecodeChildren(H, t, n - 1, gen);
      DecodeChild(H, cs[n - 1], EncodeAll(refs[n..]), gen);
      assert refs[n - 1..][0] == refs[n - 1] && refs[n - 1..][1..] == refs[n..];
      assert loaded[..n] == loaded[..n - 1] + [loaded[n - 1]];
    }
  }

  /** Decoding the stored form of a canonical tree, whatever follows it, returns its loaded form. */
  lemma {:induction false} NodeRoundTrip(H: Bytes -> Bytes, t: Tree, hash: Option<Bytes>, gen: nat, rest: Bytes)
    requires HashLen(H) && Canon(t) && !t.Empty? && Fits(H, t)
    ensures DecodeNode(hash, Blob(H, t) + rest, gen) == Ok(Loaded(H, t, hash, gen))
  {
    hide Encode, EncodeAll, DecodeShort, DecodeFull, SplitList;
    DecodeElems(H, t, hash, gen);
    ListBody(Body(H, t).items, rest);
    BlobNonempty(Body(H, t));
  }

  lemma {:induction false} BlobNonempty(it: Item)
    ensures Encode(it) != []
  {
  }
}
