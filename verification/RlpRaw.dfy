/** Splitting RLP values off a byte slice without decoding them (rlp/raw.go).

    `Split` accepts a prefix exactly when it is a canonical header followed by its content; on the
    encoding of an item it returns the item's kind and content whatever follows. */
module RlpRaw {
  import opened Common
  import opened RlpSpec

  datatype Kind = KByte | KString | KList

  datatype Error = UnexpectedEOF | CanonSize | ValueTooLarge | ExpectedString | ExpectedList

  datatype Head = Head(kind: Kind, tagsize: nat, contentsize: nat)

  datatype Parts = Parts(kind: Kind, content: Bytes, rest: Bytes)

  function ReadSize(b: Bytes, slen: nat): Result<nat, Error>
    requires 1 <= slen
  {
    if slen > |b| then Err(UnexpectedEOF)
    else if FromBigEndian(b[..slen]) < 56 || b[0] == 0 then Err(CanonSize)
    else Ok(FromBigEndian(b[..slen]))
  }

  function ReadKind(buf: Bytes): (r: Result<Head, Error>)
    ensures r.Ok? ==> 0 < r.value.tagsize + r.value.contentsize <= |buf|
    ensures r.Ok? && r.value.kind != KByte ==> 0 < r.value.tagsize
  {
    if buf == [] then Err(UnexpectedEOF) else
      var b := buf[0];
      var h: Result<Head, Error> :=
        if b < 0x80 then Ok(Head(KByte, 0, 1))
        else if b < 0xB8 then
          if b == 0x81 && |buf| > 1 && buf[1] < 128 then Err(CanonSize) else Ok(Head(KString, 1, b - 0x80))
        else if b < 0xC0 then LongHead(KString, buf, b - 0xB7)
        else if b < 0xF8 then Ok(Head(KList, 1, b - 0xC0))
        else LongHead(KList, buf, b - 0xF7);
      if h.Err? then h
      else if h.value.contentsize > |buf| - h.value.tagsize then Err(ValueTooLarge)
      else h
  }

  function LongHead(kind: Kind, buf: Bytes, slen: nat): (r: Result<Head, Error>)
    requires buf != [] && 1 <= slen
    ensures r.Ok? ==> r.value.tagsize <= |buf|
  {
    var s := ReadSize(buf[1..], slen);
    if s.Err? then Err(s.error) else Ok(Head(kind, slen + 1, s.value))
  }

  function Split(b: Bytes): (r: Result<Parts, Error>)
    ensures r.Ok? ==> |r.value.rest| < |b| && |r.value.content| + |r.value.rest| <= |b|
    ensures r.Ok? && r.value.kind != KByte ==> |r.value.content| + |r.value.rest| < |b|
  {
    var h := ReadKind(b);
    if h.Err? then Err(h.error) else
      var Head(k, ts, cs) := h.value;
      Ok(Parts(k, b[ts..ts + cs], b[ts + cs..]))
  }

  function SplitString(b: Bytes): Result<Parts, Error>
  {
    var p := Split(b);
    if p.Ok? && p.value.kind == KList then Err(ExpectedString) else p
  }

  function SplitList(b: Bytes): Result<Parts, Error>
  {
    var p := Split(b);
    if p.Ok? && p.value.kind != KList then Err(ExpectedList) else p
  }

  /** The number of values in `b`, as `CountValues` reports it; zero with an error. */
  function Count(b: Bytes): Result<nat, Error>
    decreases |b|
  {
    if b == [] then Ok(0) else
      var h := ReadKind(b);
      if h.Err? then Err(h.error) else
        var n := Count(b[h.value.tagsize + h.value.contentsize..]);
        if n.Err? then n else Ok(n.value + 1)
  }

  method CountValues(b: Bytes) returns (n: nat, err: Option<Error>)
    ensures err.None? <==> Count(b).Ok?
    ensures err.None? ==> Count(b) == Ok(n)
    ensures err.Some? ==> n == 0 && Count(b) == Err(err.value)
  {
    var rest := b;
    n := 0;
    while |rest| > 0
      invariant Count(rest).Ok? <==> Count(b).Ok?
      invariant Count(b).Ok? ==> Count(b).value == n + Count(rest).value
      invariant Count(b).Err? ==> Count(rest) == Count(b)
      decreases |rest|
    {
      var h := ReadKind(rest);
      if h.Err? {
        return 0, Some(h.error);
      }
      rest := rest[h.value.tagsize + h.value.contentsize..];
      n := n + 1;
    }
    err := None;
  }

  // ---------------------------------------------------------------- only canonical values are accepted

  lemma {:induction false} LongHeadCanonical(kind: Kind, buf: Bytes, slen: nat, small: Byte, large: Byte)
    requires buf != [] && 1 <= slen <= 8 && LongHead(kind, buf, slen).Ok?
    requires small <= 0xC0 && large <= 0xF7 && buf[0] == large + slen
    ensures var h := LongHead(kind, buf, slen).value;
            h.tagsize <= |buf| && buf[..h.tagsize] == Header(small, large, h.contentsize)
  {
    var h := LongHead(kind, buf, slen).value;
    var digits := buf[1..][..slen];
    FromBigEndianInverse(digits);
    assert buf[..slen + 1] == [buf[0]] + digits;
    assert BigEndian(h.contentsize) == digits;
  }

  /** An accepted string is the canonical encoding of its content. */
  lemma {:induction false} SplitStringSound(b: Bytes)
    requires Split(b).Ok? && Split(b).value.kind != KList
    ensures b == Encode(Str(Split(b).value.content)) + Split(b).value.rest
  {
    var Head(k, ts, cs) := ReadKind(b).value;
    var c, r := Split(b).value.content, Split(b).value.rest;
    assert b == b[..ts] + c + r;
    if b[0] < 0x80 {
      assert c == [b[0]];
    } else if b[0] < 0xB8 {
      assert b[..1] == [b[0]];
      if cs == 1 { assert c[0] == b[1]; }
    } else {
      LongHeadCanonical(KString, b, b[0] - 0xB7, 0x80, 0xB7);
    }
  }

  /** An accepted list starts with the canonical header of its content. */
  lemma {:induction false} SplitListSound(b: Bytes)
    requires Split(b).Ok? && Split(b).value.kind == KList
    ensures b == Header(0xC0, 0xF7, |Split(b).value.content|) + Split(b).value.content + Split(b).value.rest
  {
    var Head(k, ts, cs) := ReadKind(b).value;
    var c, r := Split(b).value.content, Split(b).value.rest;
    assert b == b[..ts] + c + r;
    if b[0] < 0xF8 {
      assert b[..1] == [b[0]];
    } else {
      LongHeadCanonical(KList, b, b[0] - 0xF7, 0xC0, 0xF7);
    }
  }

  // ---------------------------------------------------------------- every encoding is accepted

  function KindOf(it: Item): Kind
  {
    match it
    case Str(b) => if |b| == 1 && b[0] < 0x80 then KByte else KString
    case List(_) => KList
  }

  function Payload(it: Item): Bytes
  {
    match it
    case Str(b) => b
    case List(items) => EncodeAll(items)
  }

  function SmallTag(k: Kind): Byte { if k == KList then 0xC0 else 0x80 }

  function LargeTag(k: Kind): Byte { if k == KList then 0xF7 else 0xB7 }

  lemma {:induction false} EncodeForm(it: Item)
    ensures KindOf(it) == KByte ==> Encode(it) == Payload(it) && |Payload(it)| == 1 && Payload(it)[0] < 0x80
    ensures KindOf(it) != KByte ==>
              Encode(it) == Header(SmallTag(KindOf(it)), LargeTag(KindOf(it)), |Payload(it)|) + Payload(it)
  {
  }

  lemma {:induction false} LongHeadComplete(kind: Kind, buf: Bytes, size: nat, small: Byte, large: Byte, tail: Bytes)
    requires (small == 0x80 && large == 0xB7) || (small == 0xC0 && large == 0xF7)
    requires 56 <= size < TWO64 && buf == Header(small, large, size) + tail
    ensures buf != [] && large + 1 <= buf[0] <= large + 8
    ensures LongHead(kind, buf, buf[0] - large) == Ok(Head(kind, |Header(small, large, size)|, size))
  {
    HeaderShape(small, large, size);
    var h := Header(small, large, size);
    var slen := |h| - 1;
    assert buf[0] == h[0] == large + slen;
    assert buf[1..][..slen] == h[1..];
    BigEndianInverse(size);
  }

  /** Splitting the encoding of an item yields its kind, its content and exactly what follows it. */
  lemma {:induction false} SplitComplete(it: Item, rest: Bytes)
    requires |Encode(it)| < TWO64
    ensures Split(Encode(it) + rest) == Ok(Parts(KindOf(it), Payload(it), rest))
  {
    hide Encode, EncodeAll, Header, LongHead;
    EncodeForm(it);
    var k, p := KindOf(it), Payload(it);
    if k == KByte {
      var b := p + rest;
      assert b[0] == p[0] && b[0..1] == p && b[1..] == rest;
    } else {
      var h := Header(SmallTag(k), LargeTag(k), |p|);
      Assoc(h, p, rest);
      SplitAt(h, p, rest);
      if k == KString && |p| == 1 { assert p[0] >= 0x80; }
      HeadComplete(k, p, rest);
    }
  }

  lemma {:induction false} HeadComplete(k: Kind, p: Bytes, rest: Bytes)
    requires k != KByte && |p| < TWO64 && (k == KString && |p| == 1 ==> p[0] >= 0x80)
    ensures var h := Header(SmallTag(k), LargeTag(k), |p|);
            ReadKind(h + (p + rest)) == Ok(Head(k, |h|, |p|))
  {
    hide LongHead;
    var h := Header(SmallTag(k), LargeTag(k), |p|);
    var b := h + (p + rest);
    HeaderShape(SmallTag(k), LargeTag(k), |p|);
    if |p| < 56 {
      if |p| == 1 { assert b[1] == p[0]; }
    } else {
      LongHeadComplete(k, b, |p|, SmallTag(k), LargeTag(k), p + rest);
    }
  }

  lemma {:induction false} SplitAt(h: Bytes, p: Bytes, rest: Bytes)
    ensures (h + (p + rest))[|h|..|h| + |p|] == p
    ensures (h + (p + rest))[|h| + |p|..] == rest
  {
  }

  lemma {:induction false} CountComplete(items: seq<Item>)
    requires |EncodeAll(items)| < TWO64
    ensures Count(EncodeAll(items)) == Ok(|items|)
  {
    if items != [] {
      var b := EncodeAll(items);
      SplitComplete(items[0], EncodeAll(items[1..]));
      EncodeShape(items[0]);
      CountComplete(items[1..]);
      var h := ReadKind(b).value;
      assert b[h.tagsize + h.contentsize..] == EncodeAll(items[1..]);
    }
  }

  // ---------------------------------------------------------------- counting any input

  /** One value as `CountValues` sees it: a header and its content, whatever a list's content is. */
  datatype Piece = Piece(kind: Kind, content: Bytes)

  ghost predicate Canonical(p: Piece) {
    match p.kind
    case KByte => |p.content| == 1 && p.content[0] < 0x80
    case KString => |p.content| == 1 ==> p.content[0] >= 0x80
    case KList => true
  }

  ghost function Shell(p: Piece): Bytes {
    if p.kind == KByte then p.content else Header(SmallTag(p.kind), LargeTag(p.kind), |p.content|) + p.content
  }

  ghost function Shells(ps: seq<Piece>): Bytes {
    if ps == [] then [] else Shell(ps[0]) + Shells(ps[1..])
  }

  ghost predicate AllCanonical(ps: seq<Piece>) {
    forall i :: 0 <= i < |ps| ==> Canonical(ps[i])
  }

  lemma {:induction false} ShellSplits(p: Piece, rest: Bytes)
    requires Canonical(p) && |p.content| < TWO64
    ensures Split(Shell(p) + rest) == Ok(Parts(p.kind, p.content, rest)) && Shell(p) != []
  {
    hide Header, LongHead;
    var k, c := p.kind, p.content;
    if k == KByte {
      var b := c + rest;
      assert b[0] == c[0] && b[0..1] == c && b[1..] == rest;
    } else {
      var h := Header(SmallTag(k), LargeTag(k), |c|);
      HeaderShape(SmallTag(k), LargeTag(k), |c|);
      Assoc(h, c, rest);
      SplitAt(h, c, rest);
      HeadComplete(k, c, rest);
    }
  }

  lemma {:induction false} SplitShell(b: Bytes)
    requires Split(b).Ok?
    ensures var p := Piece(Split(b).value.kind, Split(b).value.content); Canonical(p) && b == Shell(p) + Split(b).value.rest
  {
    var v := Split(b).value;
    if v.kind == KList {
      SplitListSound(b);
    } else {
      SplitStringSound(b);
      SplitKinds(b);
    }
  }

  lemma {:induction false} SplitKinds(b: Bytes)
    requires Split(b).Ok? && Split(b).value.kind != KList
    ensures var v := Split(b).value; v.kind == KByte <==> |v.content| == 1 && v.content[0] < 0x80
  {
    var h := ReadKind(b).value;
    var c := Split(b).value.content;
    if b[0] >= 0x80 && |c| == 1 {
      assert c[0] == b[h.tagsize];
    }
  }

  /** Counting succeeds exactly on sequences of canonical headers with their content, and gives their number. */
  lemma {:induction false} CountExact(b: Bytes) returns (ps: seq<Piece>)
    requires |b| < TWO64
    ensures Count(b).Ok? ==> AllCanonical(ps) && Shells(ps) == b && Count(b) == Ok(|ps|)
    ensures forall qs :: AllCanonical(qs) && Shells(qs) == b ==> Count(b) == Ok(|qs|)
    decreases |b|
  {
    hide ReadKind, Header, Canonical;
    ps := [];
    if Count(b).Ok? && b != [] {
      var v := Split(b).value;
      SplitShell(b);
      var rest := CountExact(v.rest);
      ps := [Piece(v.kind, v.content)] + rest;
      assert ps[1..] == rest;
    }
    forall qs | AllCanonical(qs) && Shells(qs) == b
      ensures Count(b) == Ok(|qs|)
    {
      ShellsCount(qs);
    }
  }

  lemma {:induction false} ShellsCount(qs: seq<Piece>)
    requires AllCanonical(qs) && |Shells(qs)| < TWO64
    ensures Count(Shells(qs)) == Ok(|qs|)
  {
    hide ReadKind, Header, Canonical;
    if qs != [] {
      ShellSize(qs[0]);
      ShellSplits(qs[0], Shells(qs[1..]));
      ShellsCount(qs[1..]);
    }
  }

  lemma {:induction false} ShellSize(p: Piece)
    ensures |p.content| <= |Shell(p)|
  {
  }
}
