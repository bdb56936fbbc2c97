/** The one-pass RLP encoder (rlp/encode.go).

    String data and list headers are collected apart: a list header is only known once its list is
    closed, so `lheads` records where each header belongs and `ToBytes`, `ToWriter` and `EncReader`
    splice them in.  All three are proved to produce `RlpSpec.Encode`. */
module RlpEncBuf {
  import opened Common
  import opened RlpSpec

  /** `offset` is a position in the string data, `size` the content length once the list is closed. */
  datatype ListHead = ListHead(offset: nat, size: nat)

  // ---------------------------------------------------------------- integers and headers

  /** The bytes `putint` writes, case by case. */
  function PutInt(i: nat): Bytes
    requires i < TWO64
  {
    if i < 0x100 then [i]
    else if i < 0x1_0000 then [i / 0x100, i % 256]
    else if i < 0x100_0000 then [i / 0x1_0000, i / 0x100 % 256, i % 256]
    else if i < 0x1_0000_0000 then [i / 0x100_0000, i / 0x1_0000 % 256, i / 0x100 % 256, i % 256]
    else if i < 0x100_0000_0000 then
      [i / 0x1_0000_0000, i / 0x100_0000 % 256, i / 0x1_0000 % 256, i / 0x100 % 256, i % 256]
    else if i < 0x1_0000_0000_0000 then
      [i / 0x100_0000_0000, i / 0x1_0000_0000 % 256, i / 0x100_0000 % 256, i / 0x1_0000 % 256, i / 0x100 % 256, i % 256]
    else if i < 0x100_0000_0000_0000 then
      [i / 0x1_0000_0000_0000, i / 0x100_0000_0000 % 256, i / 0x1_0000_0000 % 256, i / 0x100_0000 % 256,
       i / 0x1_0000 % 256, i / 0x100 % 256, i % 256]
    else
      [i / 0x100_0000_0000_0000, i / 0x1_0000_0000_0000 % 256, i / 0x100_0000_0000 % 256, i / 0x1_0000_0000 % 256,
       i / 0x100_0000 % 256, i / 0x1_0000 % 256, i / 0x100 % 256, i % 256]
  }

  /** Dropping the last digit of `PutInt` divides by 256. */
  lemma {:induction false} PutIntStep(i: nat)
    requires 0x100 <= i < TWO64
    ensures PutInt(i) == PutInt(i / 256) + [i % 256]
  {
    Quotients(i);
  }

  lemma {:induction false} Quotients(i: nat)
    ensures i / 256 / 0x100 == i / 0x1_0000 && i / 256 / 0x1_0000 == i / 0x100_0000 && i / 256 / 0x100_0000 == i / 0x1_0000_0000
    ensures i / 256 / 0x1_0000_0000 == i / 0x100_0000_0000 && i / 256 / 0x100_0000_0000 == i / 0x1_0000_0000_0000
    ensures i / 256 / 0x1_0000_0000_0000 == i / 0x100_0000_0000_0000
  {
  }

  lemma {:induction false} PutIntIsBigEndian(i: nat)
    requires 0 < i < TWO64
    ensures PutInt(i) == BigEndian(i)
  {
    if i < 0x100 {
      assert BigEndian(i / 256) == [];
    } else {
      PutIntStep(i);
      PutIntIsBigEndian(i / 256);
    }
  }

  /** The bytes `puthead` writes. */
  function PutHead(small: Byte, large: Byte, size: nat): Bytes
    requires small <= 0xC0 && size < TWO64
  {
    if size < 56 then [small + size] else [(large + |PutInt(size)|) % 256] + PutInt(size)
  }

  lemma {:induction false} PutHeadIsHeader(small: Byte, large: Byte, size: nat)
    requires small <= 0xC0 && size < TWO64
    ensures PutHead(small, large, size) == Header(small, large, size)
  {
    if size >= 56 { PutIntIsBigEndian(size); }
  }

  /** `intsize`: shift right by eight until nothing is left. */
  method IntSize(n: nat) returns (size: nat)
    ensures size == if n == 0 then 1 else |BigEndian(n)|
  {
    var i := n;
    size := 1;
    i := i / 256;
    while i != 0
      invariant n > 0 ==> |BigEndian(n)| == size + |BigEndian(i)|
      invariant n == 0 ==> size == 1 && i == 0
    {
      size := size + 1;
      i := i / 256;
    }
  }

  // ---------------------------------------------------------------- what a finished buffer denotes

  /** String data of an item: its encoding with every list header left out. */
  function Data(it: Item): Bytes
    decreases it, 0
  {
    match it
    case Str(_) => Encode(it)
    case List(items) => DataAll(items)
  }

  function DataAll(items: seq<Item>): Bytes
    decreases items
  {
    if items == [] then [] else DataAll(items[..|items| - 1]) + Data(items[|items| - 1])
  }

  /** The list headers of an item whose string data starts at `off`, in order of opening. */
  function Heads(it: Item, off: nat): seq<ListHead>
    decreases it, 0
  {
    match it
    case Str(_) => []
    case List(items) => [ListHead(off, |EncodeAll(items)|)] + HeadsAll(items, off)
  }

  function HeadsAll(items: seq<Item>, off: nat): seq<ListHead>
    decreases items
  {
    if items == [] then [] else
      var front := items[..|items| - 1];
      HeadsAll(front, off) + Heads(items[|items| - 1], off + |DataAll(front)|)
  }

  function HeadSum(heads: seq<ListHead>): nat
  {
    if heads == [] then 0 else HeadSum(heads[..|heads| - 1]) + |Header(0xC0, 0xF7, heads[|heads| - 1].size)|
  }

  /** Headers in order of position, none past `bound`. */
  ghost predicate Ordered(heads: seq<ListHead>, bound: nat)
  {
    && (forall i :: 0 <= i < |heads| ==> heads[i].offset <= bound && heads[i].size < TWO64)
    && (forall i, j :: 0 <= i < j < |heads| ==> heads[i].offset <= heads[j].offset)
  }

  ghost predicate Within(heads: seq<ListHead>, bound: nat)
  {
    heads == [] || heads[|heads| - 1].offset <= bound
  }

  /** The string data with the headers spliced in. */
  ghost function Render(str: Bytes, heads: seq<ListHead>): Bytes
    decreases heads
  {
    if heads == [] || heads[|heads| - 1].offset > |str| then str else
      var last := heads[|heads| - 1];
      (Render(str[..last.offset], heads[..|heads| - 1]) + Header(0xC0, 0xF7, last.size)) + str[last.offset..]
  }

  lemma {:induction false} RenderLength(str: Bytes, heads: seq<ListHead>)
    requires Ordered(heads, |str|)
    ensures |Render(str, heads)| == |str| + HeadSum(heads)
    decreases heads
  {
    if heads != [] {
      RenderLength(str[..heads[|heads| - 1].offset], heads[..|heads| - 1]);
    }
  }

  lemma {:induction false} RenderData(str: Bytes, heads: seq<ListHead>, d: Bytes)
    requires Within(heads, |str|)
    ensures Render(str + d, heads) == Render(str, heads) + d
  {
    if heads != [] {
      var off := heads[|heads| - 1].offset;
      assert (str + d)[..off] == str[..off];
      assert (str + d)[off..] == str[off..] + d;
    }
  }

  lemma {:induction false} RenderHead(str: Bytes, heads: seq<ListHead>, size: nat)
    ensures Render(str, heads + [ListHead(|str|, size)]) == Render(str, heads) + Header(0xC0, 0xF7, size)
  {
    var all := heads + [ListHead(|str|, size)];
    assert all[..|all| - 1] == heads;
    assert str[..|str|] == str;
  }

  /** Appending an item's data and headers to a buffer appends its encoding to what it denotes. */
  lemma {:induction false} RenderItem(str: Bytes, heads: seq<ListHead>, it: Item)
    requires Within(heads, |str|)
    ensures Within(heads + Heads(it, |str|), |str + Data(it)|)
    ensures Render(str + Data(it), heads + Heads(it, |str|)) == Render(str, heads) + Encode(it)
    decreases it, 0
  {
    hide Render, Header, BigEndian;
    match it
    case Str(_) =>
      assert heads + Heads(it, |str|) == heads;
      RenderData(str, heads, Data(it));
    case List(items) =>
      var size := |EncodeAll(items)|;
      RenderHead(str, heads, size);
      RenderItems(str, heads + [ListHead(|str|, size)], items);
      Assoc(heads, [ListHead(|str|, size)], HeadsAll(items, |str|));
      Assoc(Render(str, heads), Header(0xC0, 0xF7, size), EncodeAll(items));
  }

  lemma {:induction false} RenderItems(str: Bytes, heads: seq<ListHead>, items: seq<Item>)
    requires Within(heads, |str|)
    ensures Within(heads + HeadsAll(items, |str|), |str + DataAll(items)|)
    ensures Render(str + DataAll(items), heads + HeadsAll(items, |str|)) == Render(str, heads) + EncodeAll(items)
    decreases items
  {
    hide Render, Header, BigEndian, Encode, Data, Heads;
    if items == [] {
      assert heads + [] == heads && str + [] == str;
    } else {
      var front, last := items[..|items| - 1], items[|items| - 1];
      EncodeAllSnoc(items);
      RenderItems(str, heads, front);
      RenderItem(str + DataAll(front), heads + HeadsAll(front, |str|), last);
      Assoc(str, DataAll(front), Data(last));
      Assoc(heads, HeadsAll(front, |str|), Heads(last, |str + DataAll(front)|));
      Assoc(Render(str, heads), EncodeAll(front), Encode(last));
    }
  }

  lemma {:induction false} EncodeAllSnoc(items: seq<Item>)
    requires items != []
    ensures EncodeAll(items) == EncodeAll(items[..|items| - 1]) + Encode(items[|items| - 1])
  {
    var front, last := items[..|items| - 1], items[|items| - 1];
    assert items == front + [last];
    EncodeAllConcat(front, [last]);
    assert EncodeAll([last]) == Encode(last) + EncodeAll([]);
  }

  lemma {:induction false} HeadSumConcat(a: seq<ListHead>, b: seq<ListHead>)
    ensures HeadSum(a + b) == HeadSum(a) + HeadSum(b)
  {
    if b == [] {
      assert a + b == a;
    } else {
      var ab := a + b;
      HeadSumConcat(a, b[..|b| - 1]);
      assert ab[..|ab| - 1] == a + b[..|b| - 1] && ab[|ab| - 1] == b[|b| - 1];
    }
  }

  /** Data plus headers account for every byte of the encoding. */
  lemma {:induction false} EncodeLength(it: Item, off: nat)
    ensures |Encode(it)| == |Data(it)| + HeadSum(Heads(it, off))
    decreases it, 0
  {
    match it
    case Str(_) =>
    case List(items) =>
      EncodeAllLength(items, off);
      var head := [ListHead(off, |EncodeAll(items)|)];
      HeadSumConcat(head, HeadsAll(items, off));
      assert head[..0] == [];
  }

  lemma {:induction false} EncodeAllLength(items: seq<Item>, off: nat)
    ensures |EncodeAll(items)| == |DataAll(items)| + HeadSum(HeadsAll(items, off))
    decreases items
  {
    hide Data, Heads, Encode;
    if items != [] {
      var front, last := items[..|items| - 1], items[|items| - 1];
      var mid := off + |DataAll(front)|;
      EncodeAllLength(front, off);
      EncodeLength(last, mid);
      EncodeAllSnoc(items);
      HeadSumConcat(HeadsAll(front, off), Heads(last, mid));
    }
  }

  lemma {:induction false} NextItem(items: seq<Item>, i: nat, off: nat)
    requires i < |items|
    ensures DataAll(items[..i + 1]) == DataAll(items[..i]) + Data(items[i])
    ensures var mid := off + |DataAll(items[..i])|;
            && HeadsAll(items[..i + 1], off) == HeadsAll(items[..i], off) + Heads(items[i], mid)
            && HeadSum(HeadsAll(items[..i + 1], off)) == HeadSum(HeadsAll(items[..i], off)) + HeadSum(Heads(items[i], mid))
  {
    hide Data, Heads, HeadSum;
    var front, next := items[..i], items[..i + 1];
    assert next[..|next| - 1] == front && next[i] == items[i];
    HeadSumConcat(HeadsAll(front, off), Heads(items[i], off + |DataAll(front)|));
  }

  lemma {:induction false} ItemSize(items: seq<Item>, i: nat)
    requires i < |items|
    ensures |Encode(items[i])| <= |EncodeAll(items)|
  {
    var next := items[..i + 1];
    assert items == next + items[i + 1..];
    EncodeAllConcat(next, items[i + 1..]);
    EncodeAllSnoc(next);
  }

  lemma {:induction false} ClosedHead(before: seq<ListHead>, open: ListHead, closed: ListHead, after: seq<ListHead>)
    ensures (before + [open] + after)[|before| := closed] == before + ([closed] + after)
    ensures HeadSum([closed]) == |Header(0xC0, 0xF7, closed.size)|
  {
  }

  ghost predicate Between(lo: nat, heads: seq<ListHead>, hi: nat)
  {
    Ordered(heads, hi) && (forall i :: 0 <= i < |heads| ==> lo <= heads[i].offset)
  }

  lemma {:induction false} HeadsOrdered(it: Item, off: nat)
    requires |Encode(it)| < TWO64
    ensures Between(off, Heads(it, off), off + |Data(it)|)
    decreases it, 0
  {
    hide Data, Encode, Between;
    match it
    case Str(_) => assert Between(off, [], off + |Data(it)|) by { EmptyBetween(off, off + |Data(it)|); }
    case List(items) =>
      ListSize(items);
      HeadsAllOrdered(items, off);
      BetweenConcat(off, [ListHead(off, |EncodeAll(items)|)], off, HeadsAll(items, off), off + |DataAll(items)|);
  }

  lemma {:induction false} EmptyBetween(lo: nat, hi: nat)
    ensures Between(lo, [], hi)
  {
  }

  lemma {:induction false} ListSize(items: seq<Item>)
    ensures |EncodeAll(items)| < |Encode(List(items))|
    ensures Data(List(items)) == DataAll(items)
  {
  }

  lemma {:induction false} HeadsAllOrdered(items: seq<Item>, off: nat)
    requires |EncodeAll(items)| < TWO64
    ensures Between(off, HeadsAll(items, off), off + |DataAll(items)|)
    decreases items
  {
    hide Data, Heads, Encode, Between;
    if items == [] {
      EmptyBetween(off, off);
    } else {
      var front, last := items[..|items| - 1], items[|items| - 1];
      var mid := off + |DataAll(front)|;
      EncodeAllSnoc(items);
      HeadsAllOrdered(front, off);
      HeadsOrdered(last, mid);
      BetweenConcat(off, HeadsAll(front, off), mid, Heads(last, mid), mid + |Data(last)|);
    }
  }

  lemma {:induction false} BetweenConcat(lo: nat, a: seq<ListHead>, mid: nat, b: seq<ListHead>, hi: nat)
    requires Between(lo, a, mid) && Between(mid, b, hi) && lo <= mid <= hi
    ensures Between(lo, a + b, hi)
  {
  }

  /** What `EncodeItem` leaves in an empty buffer is a finished buffer denoting the encoding. */
  lemma {:induction false} WholeItem(it: Item)
    requires |Encode(it)| < TWO64
    ensures Ordered(Heads(it, 0), |Data(it)|)
    ensures Render(Data(it), Heads(it, 0)) == Encode(it)
    ensures |Data(it)| + HeadSum(Heads(it, 0)) == |Encode(it)|
  {
    hide Data, Heads, Encode, HeadSum, Ordered;
    RenderItem([], [], it);
    HeadsOrdered(it, 0);
    EncodeLength(it, 0);
    assert [] + Data(it) == Data(it) && [] + Heads(it, 0) == Heads(it, 0);
    assert Render([], []) + Encode(it) == Encode(it);
  }

  /** A reading position: `i` headers and `pos` data bytes have been passed. */
  ghost predicate At(str: Bytes, heads: seq<ListHead>, i: nat, pos: nat)
  {
    && Ordered(heads, |str|) && i <= |heads| && pos <= |str|
    && Within(heads[..i], pos) && (i < |heads| ==> pos <= heads[i].offset)
  }

  /** What has been passed at a reading position. */
  ghost function Passed(str: Bytes, heads: seq<ListHead>, i: nat, pos: nat): Bytes
    requires At(str, heads, i, pos)
  {
    Render(str[..pos], heads[..i])
  }

  /** What lies ahead of a reading position. */
  ghost function Ahead(str: Bytes, heads: seq<ListHead>, i: nat, pos: nat): Bytes
    requires At(str, heads, i, pos)
    decreases |heads| - i
  {
    if i == |heads| then str[pos..] else
      str[pos..heads[i].offset] + (Header(0xC0, 0xF7, heads[i].size) + Ahead(str, heads, i + 1, heads[i].offset))
  }

  lemma {:induction false} PassData(str: Bytes, heads: seq<ListHead>, i: nat, pos: nat, next: nat)
    requires At(str, heads, i, pos) && pos <= next <= (if i < |heads| then heads[i].offset else |str|)
    ensures At(str, heads, i, next)
    ensures Passed(str, heads, i, next) == Passed(str, heads, i, pos) + str[pos..next]
    ensures Ahead(str, heads, i, pos) == str[pos..next] + Ahead(str, heads, i, next)
  {
    assert str[..next] == str[..pos] + str[pos..next];
    RenderData(str[..pos], heads[..i], str[pos..next]);
    if i == |heads| {
      assert str[pos..] == str[pos..next] + str[next..];
    } else {
      var off := heads[i].offset;
      assert str[pos..off] == str[pos..next] + str[next..off];
      Assoc(str[pos..next], str[next..off],
            Header(0xC0, 0xF7, heads[i].size) + Ahead(str, heads, i + 1, off));
    }
  }

  lemma {:induction false} PassHead(str: Bytes, heads: seq<ListHead>, i: nat)
    requires i < |heads| && At(str, heads, i, heads[i].offset)
    ensures At(str, heads, i + 1, heads[i].offset)
    ensures Passed(str, heads, i + 1, heads[i].offset)
         == Passed(str, heads, i, heads[i].offset) + Header(0xC0, 0xF7, heads[i].size)
    ensures Ahead(str, heads, i, heads[i].offset)
         == Header(0xC0, 0xF7, heads[i].size) + Ahead(str, heads, i + 1, heads[i].offset)
  {
    var pos := heads[i].offset;
    assert heads[..i + 1] == heads[..i] + [ListHead(|str[..pos]|, heads[i].size)];
    RenderHead(str[..pos], heads[..i], heads[i].size);
    assert str[pos..pos] == [];
  }

  lemma {:induction false} PassAll(str: Bytes, heads: seq<ListHead>)
    requires Ordered(heads, |str|)
    ensures At(str, heads, 0, 0) && Passed(str, heads, 0, 0) == []
    ensures At(str, heads, |heads|, |str|) && Passed(str, heads, |heads|, |str|) == Render(str, heads)
    ensures Ahead(str, heads, |heads|, |str|) == []
  {
    assert str[..|str|] == str && heads[..|heads|] == heads;
  }

  /** Passed and ahead together are the whole, at every reading position. */
  lemma {:induction false} PassedAhead(str: Bytes, heads: seq<ListHead>, i: nat, pos: nat)
    requires At(str, heads, i, pos)
    ensures Passed(str, heads, i, pos) + Ahead(str, heads, i, pos) == Render(str, heads)
    decreases |heads| - i
  {
    if i == |heads| {
      PassData(str, heads, i, pos, |str|);
      PassAll(str, heads);
    } else {
      var off := heads[i].offset;
      PassData(str, heads, i, pos, off);
      PassHead(str, heads, i);
      PassedAhead(str, heads, i + 1, off);
      var p, d, h := Passed(str, heads, i, pos), str[pos..off], Header(0xC0, 0xF7, heads[i].size);
      var rest := Ahead(str, heads, i + 1, off);
      Assoc(p + d, h, rest);
      Assoc(p, d, h + rest);
    }
  }

  /** One round of the splicing loops: data up to the next header, then the header. */
  lemma {:induction false} SpliceStep(str: Bytes, heads: seq<ListHead>, i: nat, pos: nat)
    requires At(str, heads, i, pos) && i < |heads|
    ensures pos <= heads[i].offset <= |str| && heads[i].size < TWO64
    ensures At(str, heads, i, heads[i].offset) && At(str, heads, i + 1, heads[i].offset)
    ensures Passed(str, heads, i, heads[i].offset) == Passed(str, heads, i, pos) + str[pos..heads[i].offset]
    ensures Passed(str, heads, i + 1, heads[i].offset)
         == Passed(str, heads, i, heads[i].offset) + PutHead(0xC0, 0xF7, heads[i].size)
    ensures Passed(str, heads, i, heads[i].offset) <= Render(str, heads)
    ensures Passed(str, heads, i + 1, heads[i].offset) <= Render(str, heads)
  {
    PassData(str, heads, i, pos, heads[i].offset);
    PassHead(str, heads, i);
    PassedAhead(str, heads, i, heads[i].offset);
    PassedAhead(str, heads, i + 1, heads[i].offset);
    PutHeadIsHeader(0xC0, 0xF7, heads[i].size);
  }

  lemma {:induction false} SpliceEnd(str: Bytes, heads: seq<ListHead>, pos: nat)
    requires At(str, heads, |heads|, pos)
    ensures pos <= |str| && Passed(str, heads, |heads|, pos) + str[pos..] == Render(str, heads)
  {
    PassedAhead(str, heads, |heads|, pos);
  }

  // ---------------------------------------------------------------- the buffer

  /** An `io.Writer` that may run out of room: it keeps what fits and reports the rest as an error. */
  class Sink {
    var written: Bytes
    const room: nat

    constructor (room: nat)
      ensures written == [] && this.room == room
    {
      written := [];
      this.room := room;
    }

    method Write(p: Bytes) returns (n: nat, ok: bool)
      requires |written| <= room
      modifies this
      ensures n == (if |p| <= room - old(|written|) then |p| else room - old(|written|))
      ensures ok == (n == |p|)
      ensures written == old(written) + p[..n] && |written| <= room
    {
      n := if |p| <= room - |written| then |p| else room - |written|;
      written := written + p[..n];
      ok := n == |p|;
    }
  }

  class EncBuf {
    var str: Bytes
    var lheads: seq<ListHead>
    var lhsize: nat

    constructor ()
      ensures str == [] && lheads == [] && lhsize == 0
    {
      str, lheads, lhsize := [], [], 0;
    }

    /** All lists closed: the header positions are ordered and `lhsize` is their total size. */
    ghost predicate Finished()
      reads this
    {
      Ordered(lheads, |str|) && lhsize == HeadSum(lheads)
    }

    ghost function Contents(): Bytes
      reads this
      requires Finished()
    {
      Render(str, lheads)
    }

    function Size(): nat
      reads this
    {
      |str| + lhsize
    }

    method EncodeStringHeader(size: nat)
      requires size < TWO64
      modifies this`str
      ensures str == old(str) + Header(0x80, 0xB7, size)
    {
      PutHeadIsHeader(0x80, 0xB7, size);
      if size < 56 {
        str := str + [0x80 + size];
      } else {
        HeaderShape(0x80, 0xB7, size);
        var digits := PutInt(size);
        str := str + ([0xB7 + |digits|] + digits);
      }
    }

    method EncodeString(b: Bytes)
      requires |b| < TWO64
      modifies this`str
      ensures str == old(str) + Encode(Str(b))
    {
      if |b| == 1 && b[0] <= 0x7F {
        str := str + [b[0]];
        assert [b[0]] == b;
      } else {
        EncodeStringHeader(|b|);
        str := str + b;
      }
    }

    /** `list`: remember where the header goes and how many header bytes precede it. */
    method OpenList() returns (lh: nat)
      modifies this`lheads
      ensures lh == |old(lheads)| && lheads == old(lheads) + [ListHead(|str|, lhsize)]
    {
      lh := |lheads|;
      lheads := lheads + [ListHead(|str|, lhsize)];
    }

    /** `listEnd`: everything written since `OpenList` is the content of the list. */
    method CloseList(lh: nat)
      requires lh < |lheads|
      requires lheads[lh].offset + lheads[lh].size <= |str| + lhsize
      modifies this`lheads, this`lhsize
      ensures var size := |str| + old(lhsize) - old(lheads[lh]).offset - old(lheads[lh]).size;
              && lheads == old(lheads)[lh := ListHead(old(lheads[lh]).offset, size)]
              && lhsize == old(lhsize) + |Header(0xC0, 0xF7, size)|
    {
      var head := lheads[lh];
      var size := Size() - head.offset - head.size;
      lheads := lheads[lh := ListHead(head.offset, size)];
      if size < 56 {
        lhsize := lhsize + 1;
      } else {
        var digits := IntSize(size);
        lhsize := lhsize + 1 + digits;
      }
    }

    /** The type-driven writers restricted to byte strings and lists: one pass, headers deferred. */
    method EncodeItem(it: Item)
      requires |Encode(it)| < TWO64
      modifies this
      ensures str == old(str) + Data(it)
      ensures lheads == old(lheads) + Heads(it, |old(str)|)
      ensures lhsize == old(lhsize) + HeadSum(Heads(it, |old(str)|))
      decreases it
    {
      hide Header, BigEndian, EncodeAll;
      match it
      case Str(b) =>
        EncodeString(b);
      case List(items) =>
        ghost var off, heads0, lhsize0 := |str|, lheads, lhsize;
        var lh := OpenList();
        var i := 0;
        while i < |items|
          invariant 0 <= i <= |items| && lh == |heads0|
          invariant str == old(str) + DataAll(items[..i])
          invariant lheads == heads0 + [ListHead(off, lhsize0)] + HeadsAll(items[..i], off)
          invariant lhsize == lhsize0 + HeadSum(HeadsAll(items[..i], off))
        {
          NextItem(items, i, off);
          ItemSize(items, i);
          EncodeItem(items[i]);
          Assoc(old(str), DataAll(items[..i]), Data(items[i]));
          Assoc(heads0 + [ListHead(off, lhsize0)], HeadsAll(items[..i], off), Heads(items[i], off + |DataAll(items[..i])|));
          i := i + 1;
        }
        assert items[..i] == items;
        EncodeAllLength(items, off);
        HeadSumConcat([ListHead(off, |EncodeAll(items)|)], HeadsAll(items, off));
        CloseList(lh);
        ClosedHead(heads0, ListHead(off, lhsize0), ListHead(off, |EncodeAll(items)|), HeadsAll(items, off));
    }

    /** `EncodeToBytes` and friends start from an empty buffer. */
    method EncodeWhole(it: Item)
      requires str == [] && lheads == [] && lhsize == 0
      requires |Encode(it)| < TWO64
      modifies this
      ensures Finished() && Contents() == Encode(it) && Size() == |Encode(it)|
    {
      hide Encode, Render, Data, Heads, Ordered, HeadSum;
      EncodeItem(it);
      WholeItem(it);
      assert str == Data(it) && lheads == Heads(it, 0);
    }

    /** `toBytes`: splice into a buffer of exactly `Size()` bytes. */
    method ToBytes() returns (out: array<Byte>)
      requires Finished()
      ensures fresh(out) && out[..] == Contents() && out.Length == Size()
    {
      hide At, Ordered, Passed, Render, HeadSum, PutHead;
      var str, lheads := str, lheads;
      RenderLength(str, lheads);
      out := new Byte[Size()];
      ghost var whole := Render(str, lheads);
      var strpos: nat, pos: nat, i: nat := 0, 0, 0;
      PassAll(str, lheads);
      while i < |lheads|
        invariant i <= |lheads| && out.Length == |whole|
        invariant At(str, lheads, i, strpos) && pos <= out.Length
        invariant out[..pos] == Passed(str, lheads, i, strpos)
      {
        var head := lheads[i];
        SpliceStep(str, lheads, i, strpos);
        CopyInto(out, pos, str[strpos..head.offset]);
        pos := pos + (head.offset - strpos);
        strpos := head.offset;
        var enc := PutHead(0xC0, 0xF7, head.size);
        CopyInto(out, pos, enc);
        pos := pos + |enc|;
        i := i + 1;
      }
      SpliceEnd(str, lheads, strpos);
      CopyInto(out, pos, str[strpos..]);
      assert out[..out.Length] == out[..];
    }

    /** `toWriter`: a failing write stops the encoder after a prefix; otherwise everything is written. */
    method ToWriter(sink: Sink) returns (ok: bool)
      requires Finished() && |sink.written| <= sink.room
      modifies sink
      ensures ok ==> sink.written == old(sink.written) + Contents()
      ensures sink.written <= old(sink.written) + Contents()
      ensures ok <==> |old(sink.written) + Contents()| <= sink.room
    {
      hide At, Ordered, Passed, Render, HeadSum, PutHead;
      var str, lheads := str, lheads;
      ghost var before, whole := sink.written, Render(str, lheads);
      var strpos: nat, i: nat := 0, 0;
      PassAll(str, lheads);
      while i < |lheads|
        invariant i <= |lheads| && |sink.written| <= sink.room
        invariant At(str, lheads, i, strpos)
        invariant sink.written == before + Passed(str, lheads, i, strpos)
      {
        var head := lheads[i];
        SpliceStep(str, lheads, i, strpos);
        Assoc(before, Passed(str, lheads, i, strpos), str[strpos..head.offset]);
        if head.offset - strpos > 0 {
          var n, written := sink.Write(str[strpos..head.offset]);
          if !written {
            return false;
          }
          strpos := strpos + n;
        }
        assert sink.written == before + Passed(str, lheads, i, head.offset);
        var enc := PutHead(0xC0, 0xF7, head.size);
        Assoc(before, Passed(str, lheads, i, head.offset), enc);
        var _, written := sink.Write(enc);
        if !written {
          return false;
        }
        i := i + 1;
      }
      SpliceEnd(str, lheads, strpos);
      Assoc(before, Passed(str, lheads, i, strpos), str[strpos..]);
      ok := true;
      if strpos < |str| {
        var n;
        n, ok := sink.Write(str[strpos..]);
      }
    }
  }

  /** Go's `copy(out[pos:], src)` where `src` fits. */
  method CopyInto(out: array<Byte>, pos: nat, src: Bytes)
    requires pos + |src| <= out.Length
    modifies out
    ensures out[..pos + |src|] == old(out[..pos]) + src
  {
    forall k | 0 <= k < |src| { out[pos + k] := src[k]; }
  }

  // ---------------------------------------------------------------- reading in chunks

  /** `encReader`: hands out the encoding piece by piece, whatever buffer sizes the caller uses. */
  class EncReader {
    var buf: EncBuf?
    var lhpos: nat
    var strpos: nat
    var piece: Option<Bytes>

    ghost predicate Valid()
      reads this, buf
    {
      buf != null ==>
        At(buf.str, buf.lheads, lhpos, strpos) && (piece.Some? ==> piece.value != [])
    }

    /** What is still to be read: a pending piece and everything after the reading position. */
    ghost function Rest(): Bytes
      reads this, buf
      requires Valid()
    {
      if buf == null then [] else
        (if piece.Some? then piece.value else []) + Ahead(buf.str, buf.lheads, lhpos, strpos)
    }

    constructor (buf: EncBuf)
      requires buf.Finished()
      ensures Valid() && Rest() == buf.Contents() && this.buf == buf
    {
      this.buf, lhpos, strpos, piece := buf, 0, 0, None;
      new;
      PassAll(buf.str, buf.lheads);
      PassedAhead(buf.str, buf.lheads, 0, 0);
    }

    /** `next`: the piece to be read now, or nothing at the end. */
    method Next() returns (p: Option<Bytes>)
      requires Valid()
      modifies this`lhpos, this`strpos
      ensures buf == null ==> p == None && lhpos == old(lhpos) && strpos == old(strpos)
      ensures buf != null ==> At(buf.str, buf.lheads, lhpos, strpos)
      ensures buf != null && p.None? ==> old(Rest()) == []
      ensures buf != null && p.Some? ==>
                p.value != [] && old(Rest()) == p.value + Ahead(buf.str, buf.lheads, lhpos, strpos)
    {
      if buf == null {
        return None;
      }
      var str, lheads := buf.str, buf.lheads;
      if piece.Some? {
        p := piece;
      } else if lhpos < |lheads| {
        var head := lheads[lhpos];
        if head.offset > strpos {
          p := Some(str[strpos..head.offset]);
          PassData(str, lheads, lhpos, strpos, head.offset);
          strpos := head.offset;
        } else {
          PutHeadIsHeader(0xC0, 0xF7, head.size);
          PassHead(str, lheads, lhpos);
          lhpos := lhpos + 1;
          p := Some(PutHead(0xC0, 0xF7, head.size));
        }
      } else if strpos < |str| {
        PassData(str, lheads, lhpos, strpos, |str|);
        p := Some(str[strpos..]);
        strpos := |str|;
      } else {
        p := None;
      }
    }

    /** `Read`: fills `b` as far as the encoding lasts; end of file exactly when it is exhausted. */
    method Read(b: array<Byte>) returns (n: nat, eof: bool)
      requires Valid()
      modifies this, b
      ensures Valid() && n <= b.Length && n <= |old(Rest())|
      ensures b[..n] == old(Rest())[..n] && Rest() == old(Rest())[n..]
      ensures eof <==> n == |old(Rest())|
      ensures !eof ==> n == b.Length
    {
      hide At, Ahead;
      n := 0;
      ghost var all := Rest();
      while true
        invariant Valid() && n <= b.Length && n <= |all|
        invariant b[..n] == all[..n] && Rest() == all[n..]
        decreases |all| - n
      {
        var p := Next();
        piece := p;
        if p.None? {
          buf := null;
          return n, true;
        }
        var nn := if |p.value| <= b.Length - n then |p.value| else b.Length - n;
        CopyInto(b, n, p.value[..nn]);
        TakeStep(all, n, p.value, nn, Ahead(buf.str, buf.lheads, lhpos, strpos));
        n := n + nn;
        if nn < |p.value| {
          piece := Some(p.value[nn..]);
          return n, false;
        }
        piece := None;
      }
    }
  }

  lemma {:induction false} TakeStep(all: Bytes, n: nat, p: Bytes, nn: nat, ahead: Bytes)
    requires n <= |all| && all[n..] == p + ahead && nn <= |p|
    ensures n + nn <= |all|
    ensures all[..n] + p[..nn] == all[..n + nn]
    ensures p[nn..] + ahead == all[n + nn..]
    ensures nn == |p| ==> [] + ahead == all[n + nn..]
  {
    assert all == all[..n] + (p[..nn] + (p[nn..] + ahead));
  }
}
