/** The streaming RLP decoder (rlp/decode.go), restricted to decoding into byte strings and lists.

    A `Stream` reads from an input that may be limited and keeps a stack of open lists.  Decoding is
    proved exact: it succeeds if and only if what may be read starts with the encoding of an item, it
    then returns that item and consumes precisely its encoding, and on every path no list on the stack
    is read past its end or past the end of the list around it. */
module RlpStream {
  import opened Common
  import opened RlpSpec
  import opened RlpRaw

  datatype StreamError =
    | EOL | EOF | UnexpectedEnd | NonCanonicalSize | InputTooShort | ElemTooLarge
    | WantString | WantList | NotInList | NotAtEOL | MoreThanOneValue

  datatype ListPos = ListPos(pos: nat, size: nat)

  // ---------------------------------------------------------------- cursors

  /** Where a stream stands: unread input, input limit, open lists. */
  datatype Cursor = Cursor(input: Bytes, limited: bool, remaining: nat, stack: seq<ListPos>)

  function Min(a: nat, b: nat): nat { if a <= b then a else b }

  /** No open list is read past its end, and each fits into what is left of the list around it. */
  ghost predicate Sound(c: Cursor)
  {
    && |c.input| < TWO64
    && (forall i :: 0 <= i < |c.stack| ==> c.stack[i].pos <= c.stack[i].size < TWO64)
    && (forall i :: 0 < i < |c.stack| ==> c.stack[i - 1].pos + c.stack[i].size <= c.stack[i - 1].size)
  }

  /** How many bytes may be read before the input, its limit or the innermost list ends. */
  ghost function Room(c: Cursor): (n: nat)
    requires Sound(c)
    ensures n <= |c.input|
  {
    var a := if c.limited then Min(|c.input|, c.remaining) else |c.input|;
    if c.stack == [] then a else
      var tos := c.stack[|c.stack| - 1];
      Min(a, tos.size - tos.pos)
  }

  ghost function Window(c: Cursor): (w: Bytes)
    requires Sound(c)
    ensures |w| == Room(c)
  {
    c.input[..Room(c)]
  }

  function Bump(stack: seq<ListPos>, n: nat): seq<ListPos>
  {
    if stack == [] then [] else
      var tos := stack[|stack| - 1];
      stack[|stack| - 1 := ListPos(tos.pos + n, tos.size)]
  }

  /** The cursor after `n` readable bytes. */
  ghost function Consume(c: Cursor, n: nat): Cursor
    requires Sound(c) && n <= Room(c)
  {
    Cursor(c.input[n..], c.limited, if c.limited then c.remaining - n else c.remaining, Bump(c.stack, n))
  }

  ghost predicate AtListEnd(c: Cursor)
  {
    c.stack != [] && c.stack[|c.stack| - 1].pos == c.stack[|c.stack| - 1].size
  }

  lemma {:induction false} ConsumeSound(c: Cursor, n: nat)
    requires Sound(c) && n <= Room(c)
    ensures Sound(Consume(c, n))
    ensures Room(Consume(c, n)) == Room(c) - n
    ensures Window(Consume(c, n)) == Window(c)[n..]
    ensures Window(c) == c.input[..n] + Window(Consume(c, n))
  {
    var r := Room(c);
    BumpSound(c, n);
    assert c.input[n..][..r - n] == c.input[..r][n..];
    assert c.input[..r] == c.input[..n] + c.input[..r][n..];
  }

  lemma {:induction false} BumpSound(c: Cursor, n: nat)
    requires Sound(c) && n <= Room(c)
    ensures Sound(Consume(c, n))
  {
    var d := Consume(c, n);
    assert forall i :: 0 <= i < |c.stack| - 1 ==> d.stack[i] == c.stack[i];
  }

  lemma {:induction false} ConsumeTwice(c: Cursor, m: nat, n: nat)
    requires Sound(c) && m + n <= Room(c)
    ensures Sound(Consume(c, m)) && n <= Room(Consume(c, m))
    ensures Consume(Consume(c, m), n) == Consume(c, m + n)
  {
    ConsumeSound(c, m);
    assert c.input[m..][n..] == c.input[m + n..];
  }

  // ---------------------------------------------------------------- what a window can start with

  /** No item's encoding starts the window. */
  ghost predicate NoItem(w: Bytes)
  {
    forall it: Item :: |Encode(it)| < TWO64 ==> !(Encode(it) <= w)
  }

  /** The header bytes of a value of the given kind and size. */
  function HeadBytes(k: Kind, size: nat, b: Byte): Bytes
  {
    match k
    case KByte => [b]
    case KString => Header(0x80, 0xB7, size)
    case KList => Header(0xC0, 0xF7, size)
  }

  lemma {:induction false} NoItemEmpty(w: Bytes)
    requires w == []
    ensures NoItem(w)
  {
    forall it: Item | |Encode(it)| < TWO64 ensures !(Encode(it) <= w) {
      EncodeShape(it);
    }
  }

  /** Tag of a short or long string or list header. */
  ghost predicate LongTag(b: Byte)
  {
    0xB8 <= b < 0xC0 || 0xF8 <= b
  }

  function TagBase(b: Byte): Byte
  {
    if b < 0xC0 then 0xB7 else 0xF7
  }

  lemma {:induction false} LongHeaderOf(it: Item, w: Bytes)
    requires |Encode(it)| < TWO64 && Encode(it) <= w && LongTag(w[0])
    ensures var size := |Payload(it)|;
            && 56 <= size < TWO64 && 2 <= |BigEndian(size)| + 1 <= |w| && w[1..1 + |BigEndian(size)|] == BigEndian(size)
            && w[0] == TagBase(w[0]) + |BigEndian(size)| && w[1] != 0
  {
    EncodeShape(it);
    var p := Payload(it);
    assert Encode(it)[0] == w[0];
    var small, large := if it.Str? then 0x80 else 0xC0, if it.Str? then 0xB7 else 0xF7;
    HeaderShape(small, large, |p|);
    var h := Header(small, large, |p|);
    assert Encode(it) == h + p;
    assert w[..|h|] == h;
    assert w[1..|h|] == h[1..];
  }

  /** A long header that is cut off, has a leading zero or a size below 56 starts no encoding. */
  lemma {:induction false} BadLongHeader(w: Bytes, slen: nat)
    requires w != [] && LongTag(w[0]) && slen == w[0] - TagBase(w[0])
    requires |w| < 1 + slen || w[1] == 0 || FromBigEndian(w[1..1 + slen]) < 56
    ensures NoItem(w)
  {
    forall it: Item | |Encode(it)| < TWO64 ensures !(Encode(it) <= w) {
      if Encode(it) <= w {
        LongHeaderOf(it, w);
        BigEndianInverse(|Payload(it)|);
      }
    }
  }

  /** A long header with no leading zero and a size of at least 56 is the canonical one. */
  lemma {:induction false} GoodLongHeader(b: Byte, digits: Bytes, small: Byte, large: Byte)
    requires small <= 0xC0 && large <= 0xF7 && 1 <= |digits| <= 8 && b == large + |digits|
    requires digits[0] != 0 && FromBigEndian(digits) >= 56
    ensures Header(small, large, FromBigEndian(digits)) == [b] + digits
    ensures FromBigEndian(digits) < TWO64
  {
    FromBigEndianInverse(digits);
    BigEndianWidth(FromBigEndian(digits), 8);
    Pow256Eight();
  }

  /** A well-formed header fixes the kind and the content of any item whose encoding starts there. */
  lemma {:induction false} HeadDetermines(it: Item, k: Kind, size: nat, b: Byte, w: Bytes)
    requires |Encode(it)| < TWO64 && size < TWO64 && (k == KByte ==> b < 0x80)
    requires Encode(it) <= HeadBytes(k, size, b) + w
    ensures KindOf(it) == k
    ensures k == KByte ==> it == Str([b])
    ensures k != KByte ==> |Payload(it)| == size && Payload(it) <= w
  {
    hide Encode, EncodeAll, Header;
    EncodeForm(it);
    var whole := HeadBytes(k, size, b) + w;
    FirstByte(k, size, b);
    EncodeShape(it);
    assert whole[0] == Encode(it)[0] == HeadBytes(k, size, b)[0];
    var tail := whole[|Encode(it)|..];
    assert whole == Encode(it) + tail;
    if k == KByte {
      assert it.bytes == [b];
    } else {
      var p := Payload(it);
      Assoc(Header(SmallTag(k), LargeTag(k), |p|), p, tail);
      HeaderPrefixFree(SmallTag(k), LargeTag(k), size, w, |p|, p + tail);
    }
  }

  lemma {:induction false} FirstByte(k: Kind, size: nat, b: Byte)
    requires size < TWO64 && (k == KByte ==> b < 0x80)
    ensures var h := HeadBytes(k, size, b);
            h != [] && (k == KByte <==> h[0] < 0x80) && (k == KList <==> h[0] >= 0xC0)
  {
    HeaderShape(SmallTag(k), LargeTag(k), size);
  }

  /** Content that does not fit into the window. */
  lemma {:induction false} ContentTooLong(k: Kind, size: nat, b: Byte, w: Bytes)
    requires k != KByte && size < TWO64 && |w| < size
    ensures NoItem(HeadBytes(k, size, b) + w)
  {
    forall it: Item | |Encode(it)| < TWO64 ensures !(Encode(it) <= HeadBytes(k, size, b) + w) {
      if Encode(it) <= HeadBytes(k, size, b) + w { HeadDetermines(it, k, size, b, w); }
    }
  }

  /** A one-byte string whose byte should have stood for itself. */
  lemma {:induction false} SingleByteString(b: Byte, w: Bytes)
    requires w != [] && w[0] < 0x80
    ensures NoItem(HeadBytes(KString, 1, b) + w)
  {
    forall it: Item | |Encode(it)| < TWO64 ensures !(Encode(it) <= HeadBytes(KString, 1, b) + w) {
      if Encode(it) <= HeadBytes(KString, 1, b) + w {
        HeadDetermines(it, KString, 1, b, w);
      }
    }
  }

  /** Items decoded one after the other are the first items of any list encoded there. */
  lemma {:induction false} ItemsPrefix(xs: seq<Item>, ys: seq<Item>)
    requires |EncodeAll(ys)| < TWO64 && EncodeAll(xs) <= EncodeAll(ys)
    ensures xs <= ys && EncodeAll(ys[|xs|..]) == EncodeAll(ys)[|EncodeAll(xs)|..]
    decreases xs
  {
    if xs != [] {
      EncodeShape(xs[0]);
      var ex, ey := EncodeAll(xs), EncodeAll(ys);
      if ys == [] { assert false; }
      assert ey == ex + ey[|ex|..];
      Assoc(Encode(xs[0]), EncodeAll(xs[1..]), ey[|ex|..]);
      EncodePrefixFree(xs[0], EncodeAll(xs[1..]) + ey[|ex|..], ys[0], EncodeAll(ys[1..]));
      ItemsPrefix(xs[1..], ys[1..]);
      assert ys[1..][|xs[1..]|..] == ys[|xs|..];
    }
  }

  lemma {:induction false} ListTail(w: Bytes, size: nat, e: Bytes, rest: Bytes)
    requires w == e + rest && |e| <= size <= |w|
    ensures w[..size][|e|..] == rest[..size - |e|]
  {
  }

  lemma {:induction false} FirstOfRest(xs: seq<Item>, ys: seq<Item>, size: nat, rest: Bytes)
    requires |EncodeAll(ys)| == size < TWO64 && |EncodeAll(xs)| < size <= |EncodeAll(xs)| + |rest|
    requires EncodeAll(ys) == (EncodeAll(xs) + rest)[..size]
    ensures |xs| < |ys| && Encode(ys[|xs|]) <= rest[..size - |EncodeAll(xs)|] && |Encode(ys[|xs|])| < TWO64
  {
    ListTail(EncodeAll(xs) + rest, size, EncodeAll(xs), rest);
    assert (EncodeAll(xs) + rest)[..size][..|EncodeAll(xs)|] == EncodeAll(xs);
    ItemsPrefix(xs, ys);
    var zs := ys[|xs|..];
    assert zs != [] && zs[0] == ys[|xs|];
  }

  /** A list whose next element cannot be decoded: `w` is the content read so far and the rest. */
  lemma {:induction false} BadElement(size: nat, b: Byte, xs: seq<Item>, rest: Bytes, inner: Bytes)
    requires size < TWO64 && |EncodeAll(xs)| < size
    requires NoItem(inner)
    requires inner == rest[..Min(|rest|, size - |EncodeAll(xs)|)]
    ensures NoItem(HeadBytes(KList, size, b) + (EncodeAll(xs) + rest))
  {
    hide HeadBytes, Encode, EncodeAll;
    var w := EncodeAll(xs) + rest;
    forall it: Item | |Encode(it)| < TWO64 ensures !(Encode(it) <= HeadBytes(KList, size, b) + w) {
      if Encode(it) <= HeadBytes(KList, size, b) + w {
        HeadDetermines(it, KList, size, b, w);
        ListTail(w, size, EncodeAll(xs), rest);
        FirstOfRest(xs, it.items, size, rest);
      }
    }
  }

  /** A long header cut off by the window or with a leading zero. */
  lemma {:induction false} BadSize(c: Cursor, b: Byte, slen: nat)
    requires Sound(c) && 1 <= Room(c) && LongTag(b) && c.input[0] == b && slen == b - TagBase(b)
    requires slen > Room(c) - 1 || c.input[1] == 0
    ensures NoItem(Window(c))
  {
    var w := Window(c);
    assert w[0] == b;
    if |w| >= 1 + slen { assert w[1] == c.input[1]; }
    BadLongHeader(w, slen);
  }

  lemma {:induction false} SingleDigit(digits: Bytes)
    requires digits != [] && FromBigEndian(digits) != 0
    ensures |digits| == 1 ==> digits[0] != 0
  {
    assert digits[..0] == [] && FromBigEndian([]) == 0;
  }

  /** A header whose content exceeds the window behind it. */
  lemma {:induction false} TooLong(c: Cursor, k: Kind, n: nat, b: Byte)
    requires Sound(c) && k != KByte && n < TWO64
    requires var head := HeadBytes(k, n, b); head <= Window(c) && n > Room(c) - |head|
    ensures NoItem(Window(c))
  {
    hide NoItem, Room, HeadBytes;
    var head := HeadBytes(k, n, b);
    assert Window(c) == head + Window(c)[|head|..];
    ContentTooLong(k, n, b, Window(c)[|head|..]);
  }

  lemma {:induction false} HeadRoom(c: Cursor, n: nat)
    requires Sound(c) && n <= Room(c)
    ensures var d := Consume(c, n);
            && (c.limited ==> Room(c) - n <= d.remaining)
            && (c.stack != [] ==> Room(c) - n <= d.stack[|d.stack| - 1].size - d.stack[|d.stack| - 1].pos)
  {
  }

  // ---------------------------------------------------------------- steps over whole values

  ghost predicate NoString(w: Bytes)
  {
    forall b: Bytes :: |Encode(Str(b))| < TWO64 ==> !(Encode(Str(b)) <= w)
  }

  ghost predicate NoList(w: Bytes)
  {
    forall items: seq<Item> :: |Encode(List(items))| < TWO64 ==> !(Encode(List(items)) <= w)
  }

  /** From `c`, precisely the encoding of `it` was read. */
  ghost predicate TookItem(c: Cursor, it: Item, d: Cursor)
  {
    Sound(c) && Encode(it) <= Window(c) && d == Consume(c, |Encode(it)|)
  }

  lemma {:induction false} NoItemNoString(w: Bytes)
    requires NoItem(w)
    ensures NoString(w) && NoList(w)
  {
  }

  lemma {:induction false} OneByte(c: Cursor, b: Byte)
    requires Sound(c) && b < 0x80 && [b] <= Window(c)
    ensures TookItem(c, Str([b]), Consume(c, 1))
  {
  }

  lemma {:induction false} BadContent(c: Cursor, n: nat, b: Byte)
    requires Sound(c) && n < TWO64
    requires var head := HeadBytes(KString, n, b);
             head <= Window(c) && (n > Room(c) - |head| || (n == 1 && c.input[|head|] < 128))
    ensures NoString(Window(c))
  {
    hide NoString, NoItem, Room;
    var head := HeadBytes(KString, n, b);
    if n > Room(c) - |head| {
      TooLong(c, KString, n, b);
    } else {
      assert Window(c) == head + Window(c)[|head|..];
      SingleByteString(b, Window(c)[|head|..]);
    }
    NoItemNoString(Window(c));
  }

  lemma {:induction false} GoodContent(c: Cursor, n: nat, b: Byte, content: Bytes)
    requires Sound(c) && n < TWO64
    requires var head := HeadBytes(KString, n, b);
             && head <= Window(c) && n <= Room(c) - |head| && content == c.input[|head|..][..n]
             && !(n == 1 && content[0] < 128)
    ensures var head := HeadBytes(KString, n, b);
            && n <= Room(Consume(c, |head|)) && TookItem(c, Str(content), Consume(Consume(c, |head|), n))
  {
    hide Room, Header, Sound, Consume;
    var head := HeadBytes(KString, n, b);
    ConsumeTwice(c, |head|, n);
    assert Encode(Str(content)) == head + content;
    assert Window(c)[..|head| + n] == head + content;
  }

  lemma {:induction false} ListIsNoString(c: Cursor, n: nat, b: Byte)
    requires Sound(c) && n < TWO64 && HeadBytes(KList, n, b) <= Window(c)
    ensures NoString(Window(c))
  {
    hide Room;
    var head := HeadBytes(KList, n, b);
    var w := Window(c)[|head|..];
    assert Window(c) == head + w;
    forall s: Bytes | |Encode(Str(s))| < TWO64 ensures !(Encode(Str(s)) <= Window(c)) {
      if Encode(Str(s)) <= Window(c) { HeadDetermines(Str(s), KList, n, b, w); }
    }
  }

  lemma {:induction false} StringIsNoList(c: Cursor, k: Kind, n: nat, b: Byte)
    requires Sound(c) && n < TWO64 && k != KList && (k == KByte ==> b < 0x80) && HeadBytes(k, n, b) <= Window(c)
    ensures NoList(Window(c))
  {
    hide Room;
    var head := HeadBytes(k, n, b);
    var w := Window(c)[|head|..];
    assert Window(c) == head + w;
    forall items: seq<Item> | |Encode(List(items))| < TWO64 ensures !(Encode(List(items)) <= Window(c)) {
      if Encode(List(items)) <= Window(c) { HeadDetermines(List(items), k, n, b, w); }
    }
  }

  /** A header of the given kind was read, and no value of that kind starts there. */
  lemma {:induction false} NothingThere(c: Cursor, k: Kind, n: nat, b: Byte)
    requires Sound(c) && n < TWO64 && (k == KByte ==> b < 0x80) && HeadBytes(k, n, b) <= Window(c)
    requires if k == KList then NoList(Window(c)) else NoString(Window(c))
    ensures NoItem(Window(c))
  {
    hide Room;
    var head := HeadBytes(k, n, b);
    var w := Window(c)[|head|..];
    assert Window(c) == head + w;
    forall it: Item | |Encode(it)| < TWO64 ensures !(Encode(it) <= Window(c)) {
      if Encode(it) <= Window(c) { HeadDetermines(it, k, n, b, w); }
    }
  }

  /** From `c`, the header of a list of `n` bytes was read and the list entered. */
  ghost predicate EnteredList(c: Cursor, n: nat, d: Cursor)
  {
    && Sound(c) && n < TWO64 && HeadBytes(KList, n, 0) <= Window(c)
    && var c' := Consume(c, |HeadBytes(KList, n, 0)|);
    && (c'.stack != [] ==> n <= c'.stack[|c'.stack| - 1].size - c'.stack[|c'.stack| - 1].pos)
    && d == c'.(stack := c'.stack + [ListPos(0, n)])
  }

  lemma {:induction false} Enter(c: Cursor, n: nat, b: Byte)
    requires Sound(c) && n < TWO64 && HeadBytes(KList, n, b) <= Window(c)
    requires var c' := Consume(c, |HeadBytes(KList, n, b)|);
             c'.stack != [] ==> n <= c'.stack[|c'.stack| - 1].size - c'.stack[|c'.stack| - 1].pos
    ensures var c' := Consume(c, |HeadBytes(KList, n, b)|);
            var d := c'.(stack := c'.stack + [ListPos(0, n)]);
            EnteredList(c, n, d) && Sound(d)
  {
    hide Room, Consume;
    assert HeadBytes(KList, n, b) == HeadBytes(KList, n, 0);
    ConsumeSound(c, |HeadBytes(KList, n, b)|);
    PushSound(Consume(c, |HeadBytes(KList, n, b)|), n);
  }

  ghost function LeftList(c: Cursor): Cursor
    requires c.stack != []
  {
    c.(stack := Bump(c.stack[..|c.stack| - 1], c.stack[|c.stack| - 1].size))
  }

  /** From `c`, precisely the encodings of `items` were read one after the other. */
  ghost predicate TookItems(c: Cursor, items: seq<Item>, d: Cursor)
  {
    Sound(c) && EncodeAll(items) <= Window(c) && d == Consume(c, |EncodeAll(items)|)
  }

  lemma {:induction false} Entered(c: Cursor, n: nat, d: Cursor)
    requires EnteredList(c, n, d)
    ensures Sound(c) && Sound(d) && |d.input| < |c.input| && n < TWO64
    ensures var head := HeadBytes(KList, n, 0);
            && head <= Window(c) && Window(c) == head + Window(c)[|head|..]
            && Room(d) == Min(|Window(c)[|head|..]|, n)
            && Window(d) == Window(c)[|head|..][..Room(d)]
    ensures TookItems(d, [], d)
    ensures n == 0 ==> AtListEnd(d)
  {
    hide HeadBytes;
    var head := HeadBytes(KList, n, 0);
    FirstByte(KList, n, 0);
    ConsumeSound(c, |head|);
    var c' := Consume(c, |head|);
    PushSound(c', n);
    assert c'.input[..Room(c')][..Room(d)] == c'.input[..Room(d)];
    assert EncodeAll([]) == [];
    assert d.input[0..] == d.input && Bump(d.stack, 0) == d.stack;
  }

  lemma {:induction false} PushSound(c: Cursor, n: nat)
    requires Sound(c) && n < TWO64
    requires c.stack != [] ==> n <= c.stack[|c.stack| - 1].size - c.stack[|c.stack| - 1].pos
    ensures Sound(c.(stack := c.stack + [ListPos(0, n)]))
    ensures Room(c.(stack := c.stack + [ListPos(0, n)])) == Min(Room(c), n)
  {
  }

  lemma {:induction false} TookNext(c: Cursor, items: seq<Item>, d: Cursor, it: Item, e: Cursor)
    requires TookItems(c, items, d) && TookItem(d, it, e)
    ensures TookItems(c, items + [it], e) && |e.input| < |d.input|
  {
    hide Room, Encode, EncodeAll, Consume, Sound;
    var m, n := |EncodeAll(items)|, |Encode(it)|;
    ConsumeSound(c, m);
    ConsumeTwice(c, m, n);
    assert |d.input| == |c.input| - m by { ConsumedInput(c, m); }
    assert |e.input| == |d.input| - n by { ConsumedInput(d, n); }
    EncodeAllConcat(items, [it]);
    assert EncodeAll([it]) == Encode(it) by { Singleton(it); }
    EncodeNonempty(it);
    assert EncodeAll(items) + Encode(it) <= Window(c);
  }

  lemma {:induction false} ConsumedInput(c: Cursor, n: nat)
    requires Sound(c) && n <= Room(c)
    ensures |Consume(c, n).input| == |c.input| - n
  {
  }

  lemma {:induction false} EncodeNonempty(it: Item)
    ensures Encode(it) != []
  {
  }

  lemma {:induction false} Singleton(it: Item)
    ensures EncodeAll([it]) == Encode(it)
  {
    assert EncodeAll([it][1..]) == [];
  }

  lemma {:induction false} ElementFails(c: Cursor, n: nat, c1: Cursor, items: seq<Item>, d: Cursor)
    requires EnteredList(c, n, c1) && TookItems(c1, items, d)
    requires !AtListEnd(d) && Sound(d) && NoItem(Window(d))
    ensures NoList(Window(c))
  {
    hide NoItem, NoList, EncodeAll, Encode, HeadBytes, EnteredList, Sound, Room, Window, Consume, AtListEnd;
    var e := EncodeAll(items);
    Entered(c, n, c1);
    InnerEnd(c, n, c1, |e|);
    ConsumeSound(c1, |e|);
    var w := Window(c)[|HeadBytes(KList, n, 0)|..];
    InnerWindow(w, n, Window(c1), e);
    BadElement(n, 0, items, w[|e|..], Window(d));
    NoItemNoString(Window(c));
  }

  lemma {:induction false} InnerWindow(w: Bytes, n: nat, inner: Bytes, e: Bytes)
    requires inner == w[..Min(|w|, n)] && e <= inner
    ensures w == e + w[|e|..]
    ensures inner[|e|..] == w[|e|..][..Min(|w[|e|..]|, n - |e|)]
  {
  }

  lemma {:induction false} InnerEnd(c: Cursor, n: nat, c1: Cursor, m: nat)
    requires EnteredList(c, n, c1) && Sound(c1) && m <= Room(c1)
    ensures m <= n && (AtListEnd(Consume(c1, m)) <==> m == n)
  {
  }

  lemma {:induction false} ListDone(c: Cursor, n: nat, c1: Cursor, items: seq<Item>, d: Cursor)
    requires EnteredList(c, n, c1) && TookItems(c1, items, d) && AtListEnd(d)
    ensures TookItem(c, List(items), LeftList(d))
  {
    hide EncodeAll, HeadBytes, EnteredList, Header, Sound, Room, Window, Consume, LeftList;
    Entered(c, n, c1);
    InnerEnd(c, n, c1, |EncodeAll(items)|);
    var head := HeadBytes(KList, n, 0);
    assert head == Header(0xC0, 0xF7, n) by { ListHead(n); }
    assert Encode(List(items)) == head + EncodeAll(items);
    Leaving(c, n, c1, d);
    assert head + EncodeAll(items) <= Window(c);
  }

  lemma {:induction false} ListHead(n: nat)
    ensures HeadBytes(KList, n, 0) == Header(0xC0, 0xF7, n)
  {
  }

  lemma {:induction false} Leaving(c: Cursor, n: nat, c1: Cursor, d: Cursor)
    requires EnteredList(c, n, c1) && Sound(c1) && n <= Room(c1) && d == Consume(c1, n)
    ensures d.stack != [] && |HeadBytes(KList, n, 0)| + n <= Room(c)
    ensures LeftList(d) == Consume(c, |HeadBytes(KList, n, 0)| + n)
  {
    hide HeadBytes;
    var head := |HeadBytes(KList, n, 0)|;
    ConsumeSound(c, head);
    var c' := Consume(c, head);
    PushSound(c', n);
    ConsumeTwice(c, head, n);
    assert d.stack[..|d.stack| - 1] == c'.stack;
    assert c1.input[n..] == c'.input[n..];
  }

  // ---------------------------------------------------------------- the stream

  class Stream {
    var input: Bytes
    var limited: bool
    var remaining: nat
    var kind: Option<Kind>
    var size: nat
    var byteval: Byte
    var kinderr: Option<StreamError>
    var stack: seq<ListPos>

    /** Where the value ahead starts, while its header has been read but not its content. */
    ghost var start: Cursor

    ghost function At(): Cursor
      reads this
    {
      Cursor(input, limited, remaining, stack)
    }

    /** The position a caller sees: peeking at a header does not move it. */
    ghost function Pos(): Cursor
      reads this
    {
      if kind.Some? then start else At()
    }

    ghost predicate Settled()
      reads this
    {
      Sound(At()) && size < TWO64
    }

    ghost predicate Pending()
      reads this
    {
      && Sound(start) && kind.Some? && size < TWO64 && (kind == Some(KByte) ==> byteval < 0x80 && size == 0)
      && var head := HeadBytes(kind.value, size, byteval);
      && head <= Window(start) && At() == Consume(start, |head|)
      && (stack != [] ==> size <= stack[|stack| - 1].size - stack[|stack| - 1].pos)
    }

    ghost predicate Valid()
      reads this
    {
      && Settled()
      && (kind.Some? ==>
            && Sound(start) && !AtListEnd(start)
            && (kinderr.None? ==> Pending())
            && (kinderr.Some? ==> kinderr != Some(EOL) && NoItem(Window(start))))
    }

    /** `NewStream` over a byte reader: a positive limit is taken, zero means the whole reader. */
    constructor (r: Bytes, inputLimit: nat)
      requires |r| < TWO64
      ensures Valid() && kind.None? && stack == [] && input == r && limited
      ensures remaining == if inputLimit > 0 then inputLimit else |r|
    {
      input, limited, stack, size, kind, kinderr, byteval := r, true, [], 0, None, None, 0;
      remaining := if inputLimit > 0 then inputLimit else |r|;
    }

    /** `willRead`: account for `n` bytes in the innermost list and in the input limit. */
    method WillRead(n: nat) returns (err: Option<StreamError>)
      requires Settled()
      modifies this`kind, this`stack, this`remaining
      ensures kind.None? && Settled()
      ensures err != Some(EOL)
      ensures err.None? ==> stack == Bump(old(stack), n)
                            && remaining == (if limited then old(remaining) - n else old(remaining))
                            && (limited ==> n <= old(remaining))
      ensures err.None? <==> (old(stack) != [] ==> n <= old(stack)[|old(stack)| - 1].size - old(stack)[|old(stack)| - 1].pos)
                             && (limited ==> n <= old(remaining))
    {
      kind := None;
      if |stack| > 0 {
        var tos := stack[|stack| - 1];
        if n > tos.size - tos.pos {
          return Some(ElemTooLarge);
        }
        stack := stack[|stack| - 1 := ListPos(tos.pos + n, tos.size)];
      }
      if limited {
        if n > remaining {
          return Some(InputTooShort);
        }
        remaining := remaining - n;
      }
      err := None;
    }

    /** `readFull`: exactly `n` bytes or an error. */
    method ReadFull(n: nat) returns (r: Result<Bytes, StreamError>)
      requires Settled()
      modifies this`kind, this`stack, this`remaining, this`input
      ensures kind.None? && Settled()
      ensures r != Err(EOL) && (r.Ok? <==> n <= Room(old(At())))
      ensures r.Ok? ==> r.value == old(input)[..n] && At() == Consume(old(At()), n)
    {
      var err := WillRead(n);
      if err.Some? {
        return Err(err.value);
      }
      if n > |input| {
        input := [];
        return Err(UnexpectedEnd);
      }
      r := Ok(input[..n]);
      input := input[n..];
    }

    /** `readByte`. */
    method ReadByte() returns (r: Result<Byte, StreamError>)
      requires Settled()
      modifies this`kind, this`stack, this`remaining, this`input
      ensures kind.None? && Settled()
      ensures r != Err(EOL) && (r.Ok? <==> 1 <= Room(old(At())))
      ensures r.Ok? ==> r.value == old(input)[0] && At() == Consume(old(At()), 1)
    {
      var b := ReadFull(1);
      r := if b.Ok? then Ok(b.value[0]) else Err(b.error);
    }

    /** `readUint` on a size of `slen` bytes: no leading zero when there is more than one. */
    method ReadUint(slen: nat) returns (r: Result<nat, StreamError>)
      requires Settled() && 1 <= slen <= 8
      modifies this`kind, this`stack, this`remaining, this`input
      ensures kind.None? && Settled()
      ensures r.Ok? ==> slen <= Room(old(At())) && At() == Consume(old(At()), slen)
                        && r.value == FromBigEndian(old(input)[..slen]) && (slen > 1 ==> old(input)[0] != 0)
      ensures r.Err? ==> r != Err(EOL) && (slen > Room(old(At())) || old(input)[0] == 0)
    {
      if slen == 1 {
        var b := ReadByte();
        if b.Err? {
          return Err(b.error);
        }
        assert old(input)[..1][..0] == [] && FromBigEndian([]) == 0;
        return Ok(b.value);
      }
      var digits := ReadFull(slen);
      if digits.Err? {
        return Err(digits.error);
      }
      if digits.value[0] == 0 {
        return Err(NonCanonicalSize);
      }
      r := Ok(FromBigEndian(digits.value));
    }
  
    /** `readKind`: the header of the next value. */
    method ReadKind() returns (k: Kind, n: nat, err: Option<StreamError>)
      requires Settled()
      modifies this`kind, this`stack, this`remaining, this`input, this`byteval
      ensures kind.None? && Settled()
      ensures err.None? ==> n < TWO64 && (k == KByte ==> byteval < 0x80 && n == 0)
                            && HeadBytes(k, n, byteval) <= Window(old(At()))
                            && At() == Consume(old(At()), |HeadBytes(k, n, byteval)|)
      ensures err.Some? ==> err != Some(EOL) && NoItem(Window(old(At()))) && n < TWO64
    {
      hide NoItem, Sound;
      ghost var c0 := At();
      var first := ReadByte();
      if first.Err? {
        NoItemEmpty(Window(c0));
        return KByte, 0, Some(if |stack| == 0 then EOF else first.error);
      }
      var b := first.value;
      byteval := 0;
      ghost var w := Window(c0);
      assert w[0] == b && w[..1] == [b];
      if b < 0x80 {
        byteval := b;
        return KByte, 0, None;
      } else if b < 0xB8 {
        return KString, b - 0x80, None;
      } else if b < 0xC0 {
        k := KString;
        n, err := ReadLongSize(b, c0);
      } else if b < 0xF8 {
        return KList, b - 0xC0, None;
      } else {
        k := KList;
        n, err := ReadLongSize(b, c0);
      }
    }

    /** The size bytes of a long header whose tag `b` was just read from `c0`. */
    method ReadLongSize(b: Byte, ghost c0: Cursor) returns (n: nat, err: Option<StreamError>)
      requires Settled() && Sound(c0) && 1 <= Room(c0) && LongTag(b) && c0.input[0] == b && At() == Consume(c0, 1)
      modifies this`kind, this`stack, this`remaining, this`input
      ensures kind.None? && Settled()
      ensures err.None? ==>
                var head := HeadBytes(if b < 0xC0 then KString else KList, n, 0);
                n < TWO64 && head <= Window(c0) && At() == Consume(c0, |head|)
      ensures err.Some? ==> err != Some(EOL) && NoItem(Window(c0)) && n < TWO64
    {
      hide NoItem, Sound, Header, FromBigEndian, Room;
      ConsumeSound(c0, 1);
      var slen := b - TagBase(b);
      ghost var w := Window(c0);
      assert w[0] == b;
      var r := ReadUint(slen);
      if r.Err? {
        BadSize(c0, b, slen);
        return 0, Some(r.error);
      }
      ghost var digits := c0.input[1..][..slen];
      ConsumeTwice(c0, 1, slen);
      assert w[1..1 + slen] == digits;
      if r.value < 56 {
        BadLongHeader(w, slen);
        return r.value, Some(NonCanonicalSize);
      }
      SingleDigit(digits);
      GoodLongHeader(b, digits, if b < 0xC0 then 0x80 else 0xC0, TagBase(b));
      assert w[..1 + slen] == [b] + digits;
      n, err := r.value, None;
    }
  
    /** `Kind`: look at the next value's header, reading it on the first call only. */
    method NextKind() returns (k: Kind, n: nat, err: Option<StreamError>)
      requires Valid()
      modifies this
      ensures Valid() && Pos() == old(Pos()) && limited == old(limited)
      ensures err == Some(EOL) <==> AtListEnd(old(Pos()))
      ensures err == Some(EOL) ==> kind.None?
      ensures err.None? ==> kind == Some(k) && size == n && kinderr.None?
      ensures err.Some? && err != Some(EOL) ==> NoItem(Window(Pos()))
    {
      hide NoItem, Sound, Pending;
      if kind.None? {
        kinderr := None;
        if |stack| > 0 && stack[|stack| - 1].pos == stack[|stack| - 1].size {
          return KByte, 0, Some(EOL);
        }
        FetchKind();
      }
      k, n, err := kind.value, size, kinderr;
    }

    /** The part of `Kind` that reads a header and checks that its content fits. */
    method FetchKind()
      requires Settled() && !AtListEnd(At())
      modifies this
      ensures Valid() && kind.Some? && start == old(At()) && limited == old(limited)
    {
      hide NoItem, Sound, Room, HeadBytes, Window;
      ghost var c := At();
      var k, n, err := ReadKind();
      start, kind, size, kinderr := c, Some(k), n, err;
      if err.None? {
        HeadRoom(c, |HeadBytes(k, n, byteval)|);
        if |stack| == 0 {
          if limited && n > remaining {
            TooLong(c, k, n, byteval);
            kinderr := Some(InputTooShort);
          }
        } else if n > stack[|stack| - 1].size - stack[|stack| - 1].pos {
          TooLong(c, k, n, byteval);
          kinderr := Some(ElemTooLarge);
        }
      }
    }

    /** `Bytes`: the next value, which must be a string. */
    method ReadBytes() returns (r: Result<Bytes, StreamError>)
      requires Valid()
      modifies this
      ensures Settled() && limited == old(limited)
      ensures r == Err(EOL) <==> AtListEnd(old(Pos()))
      ensures r == Err(EOL) ==> kind.None? && At() == old(Pos())
      ensures r.Ok? ==> kind.None? && TookItem(old(Pos()), Str(r.value), At())
      ensures r.Err? && r != Err(EOL) ==> NoString(Window(old(Pos())))
    {
      hide NoItem, Sound, Room, NoString;
      ghost var c := Pos();
      var k, n, err := NextKind();
      if err.Some? {
        if err != Some(EOL) { NoItemNoString(Window(c)); }
        return Err(err.value);
      }
      match k
      case KByte =>
        kind := None;
        OneByte(c, byteval);
        return Ok([byteval]);
      case KString =>
        ConsumeSound(c, |HeadBytes(k, n, byteval)|);
        var b := ReadFull(n);
        if b.Err? || (n == 1 && b.value[0] < 128) {
          BadContent(c, n, byteval);
          return Err(if b.Err? then b.error else NonCanonicalSize);
        }
        GoodContent(c, n, byteval, b.value);
        return b;
      case KList =>
        ListIsNoString(c, n, byteval);
        return Err(WantString);
    }
  
    /** `List`: enter the next value, which must be a list. */
    method OpenList() returns (r: Result<nat, StreamError>)
      requires Valid()
      modifies this
      ensures Settled() && limited == old(limited)
      ensures r == Err(EOL) <==> AtListEnd(old(Pos()))
      ensures r == Err(EOL) ==> kind.None? && At() == old(Pos())
      ensures r.Ok? ==> kind.None? && EnteredList(old(Pos()), r.value, At())
      ensures r.Err? && r != Err(EOL) ==> NoList(Window(old(Pos())))
    {
      hide NoItem, NoList, Room, Sound, EnteredList, HeadBytes;
      ghost var c := Pos();
      var k, n, err := NextKind();
      if err.Some? {
        if err != Some(EOL) { NoItemNoString(Window(c)); }
        return Err(err.value);
      }
      if k != KList {
        StringIsNoList(c, k, n, byteval);
        return Err(WantList);
      }
      Enter(c, n, byteval);
      stack := stack + [ListPos(0, n)];
      kind := None;
      size := 0;
      r := Ok(n);
    }

    /** `ListEnd`: leave the innermost list, which must have been read to its end. */
    method ListEnd() returns (err: Option<StreamError>)
      requires Settled()
      modifies this
      ensures Settled() && limited == old(limited)
      ensures err == Some(NotInList) <==> old(stack) == []
      ensures err.None? <==> AtListEnd(old(At()))
      ensures err.None? ==> kind.None? && At() == LeftList(old(At()))
      ensures err.Some? ==> err != Some(EOL)
    {
      if |stack| == 0 {
        return Some(NotInList);
      }
      var tos := stack[|stack| - 1];
      if tos.pos != tos.size {
        return Some(NotAtEOL);
      }
      stack := stack[..|stack| - 1];
      if |stack| > 0 {
        var top := stack[|stack| - 1];
        stack := stack[|stack| - 1 := ListPos(top.pos + tos.size, top.size)];
      }
      kind := None;
      size := 0;
      err := None;
    }

    /** `decodeInterface`: a list becomes the list of its elements, anything else a byte string. */
    method DecodeInterface() returns (r: Result<Item, StreamError>)
      requires Valid()
      modifies this
      ensures Settled() && limited == old(limited)
      ensures r == Err(EOL) <==> AtListEnd(old(Pos()))
      ensures r == Err(EOL) ==> kind.None? && At() == old(Pos())
      ensures r.Ok? ==> kind.None? && TookItem(old(Pos()), r.value, At())
      ensures r.Err? && r != Err(EOL) ==> NoItem(Window(old(Pos())))
      decreases |Pos().input|, 1
    {
      hide NoItem, NoString, NoList, Sound, Room, Encode;
      ghost var c := Pos();
      var k, n, err := NextKind();
      if err.Some? {
        return Err(err.value);
      }
      ghost var b := byteval;
      if k == KList {
        var items := DecodeListSlice();
        if items.Err? {
          NothingThere(c, k, n, b);
          return Err(items.error);
        }
        return Ok(List(items.value));
      }
      var bytes := ReadBytes();
      if bytes.Err? {
        NothingThere(c, k, n, b);
        return Err(bytes.error);
      }
      r := Ok(Str(bytes.value));
    }

    /** `decodeListSlice`: elements until the end of the list. */
    method DecodeListSlice() returns (r: Result<seq<Item>, StreamError>)
      requires Valid()
      modifies this
      ensures Settled() && limited == old(limited)
      ensures r == Err(EOL) <==> AtListEnd(old(Pos()))
      ensures r == Err(EOL) ==> kind.None? && At() == old(Pos())
      ensures r.Ok? ==> kind.None? && TookItem(old(Pos()), List(r.value), At())
      ensures r.Err? && r != Err(EOL) ==> NoList(Window(old(Pos())))
      decreases |Pos().input|, 0
    {
      hide NoItem, NoString, NoList, Sound, Room, Encode, EncodeAll, EnteredList;
      ghost var c := Pos();
      var size := OpenList();
      if size.Err? {
        return Err(size.error);
      }
      ghost var n, c1 := size.value, At();
      Entered(c, n, c1);
      var items: seq<Item> := [];
      if size.value != 0 {
        while true
          invariant Settled() && kind.None? && limited == old(limited)
          invariant TookItems(c1, items, At())
          decreases |input|
        {
          ghost var d := At();
          var it := DecodeInterface();
          if it == Err(EOL) {
            break;
          }
          if it.Err? {
            ElementFails(c, n, c1, items, d);
            return Err(it.error);
          }
          TookNext(c1, items, d, it.value, At());
          items := items + [it.value];
        }
      }
      ListDone(c, n, c1, items, At());
      var err := ListEnd();
      r := Ok(items);
    }
  }

  /** `DecodeBytes`: the input must be one value and nothing else.  Decoding is the exact inverse of
      encoding: what is accepted is the canonical encoding of the result, and no encoding is refused. */
  method DecodeBytes(b: Bytes) returns (r: Result<Item, StreamError>)
    requires |b| < TWO64
    ensures r.Ok? ==> b == Encode(r.value)
    ensures r.Err? ==> forall it: Item :: Encode(it) != b
  {
    hide Encode;
    var s := new Stream(b, |b|);
    ghost var c := s.At();
    assert Window(c) == b;
    r := s.DecodeInterface();
    if r.Ok? && |s.input| > 0 {
      TrailingData(b, r.value, s.input);
      return Err(MoreThanOneValue);
    }
    assert r.Ok? ==> b[..|Encode(r.value)|] == b;
  }

  lemma {:induction false} TrailingData(b: Bytes, it: Item, rest: Bytes)
    requires |b| < TWO64 && Encode(it) <= b && rest == b[|Encode(it)|..] && rest != []
    ensures forall other: Item :: Encode(other) != b
  {
    hide Encode;
    forall other: Item ensures Encode(other) != b {
      if Encode(other) == b {
        assert Encode(it) + rest == Encode(other) + [];
        EncodePrefixFree(it, rest, other, []);
      }
    }
  }

  /** Decoding an encoding gives the item back. */
  method RoundTrip(it: Item) returns (r: Result<Item, StreamError>)
    requires |Encode(it)| < TWO64
    ensures r == Ok(it)
  {
    r := DecodeBytes(Encode(it));
    if r.Ok? {
      EncodePrefixFree(r.value, [], it, []);
    }
  }
}
