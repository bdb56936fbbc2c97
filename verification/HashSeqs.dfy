/** Hashes, and sequences of them without repetition. */
module HashSeqs {

  /** A hash as a number; the zero hash is the one used for "none". */
  type Hash = nat

  const ZERO: Hash := 0

  ghost predicate Distinct(s: seq<Hash>) {
    forall i, j :: 0 <= i < j < |s| ==> s[i] != s[j]
  }

  ghost function IndexOf(s: seq<Hash>, x: Hash): (i: nat)
    requires x in s
    ensures i < |s| && s[i] == x
  {
    if s[0] == x then 0 else 1 + IndexOf(s[1..], x)
  }

  ghost function Cut(s: seq<Hash>, i: nat): seq<Hash>
    requires i < |s|
  {
    s[..i] + s[i + 1..]
  }

  ghost function Without(s: seq<Hash>, x: Hash): seq<Hash>
    requires x in s
  {
    Cut(s, IndexOf(s, x))
  }

  /** The members of `s` that lie in `keep`, in order. */
  ghost function Kept(s: seq<Hash>, keep: set<Hash>): seq<Hash> {
    if s == [] then [] else
      Kept(s[..|s| - 1], keep) + if s[|s| - 1] in keep then [s[|s| - 1]] else []
  }

  lemma {:induction false} CutLength(s: seq<Hash>, i: nat)
    requires i < |s|
    ensures |Cut(s, i)| == |s| - 1
  {
  }

  lemma {:induction false} CutAt(s: seq<Hash>, i: nat, j: nat)
    requires i < |s| && j < |s| - 1
    ensures |Cut(s, i)| == |s| - 1 && Cut(s, i)[j] == s[if j < i then j else j + 1]
    ensures Cut(s, i)[j] in s
  {
  }

  lemma {:induction false} CutMembers(s: seq<Hash>, i: nat)
    requires i < |s| && Distinct(s)
    ensures Distinct(Cut(s, i))
    ensures forall h :: h in Cut(s, i) <==> h in s && h != s[i]
  {
  }

  lemma {:induction false} KeptAll(s: seq<Hash>, keep: set<Hash>)
    requires forall h :: h in s ==> h in keep
    ensures Kept(s, keep) == s
  {
    if s != [] {
      KeptAll(s[..|s| - 1], keep);
    }
  }

  lemma {:induction false} KeptConcat(a: seq<Hash>, b: seq<Hash>, keep: set<Hash>)
    ensures Kept(a + b, keep) == Kept(a, keep) + Kept(b, keep)
  {
    if b == [] {
      assert a + b == a;
    } else {
      KeptConcat(a, b[..|b| - 1], keep);
      assert (a + b)[..|a + b| - 1] == a + b[..|b| - 1];
    }
  }

  lemma {:induction false} KeptOne(x: Hash, keep: set<Hash>)
    ensures Kept([x], keep) == if x in keep then [x] else []
  {
  }

  lemma {:induction false} KeptTwice(s: seq<Hash>, k: set<Hash>, l: set<Hash>)
    requires l <= k
    ensures Kept(Kept(s, k), l) == Kept(s, l)
  {
    if s != [] {
      var x := s[|s| - 1];
      KeptTwice(s[..|s| - 1], k, l);
      if x in k {
        KeptConcat(Kept(s[..|s| - 1], k), [x], l);
        KeptOne(x, l);
      } else {
        assert Kept(s, k) == Kept(s[..|s| - 1], k);
      }
    }
  }

  lemma {:induction false} KeptWithout(s: seq<Hash>, x: Hash, keep: set<Hash>)
    requires x in s && x !in keep
    ensures Kept(Without(s, x), keep) == Kept(s, keep)
  {
    hide Kept;
    var i := IndexOf(s, x);
    var l, r := s[..i], s[i + 1..];
    assert s == l + ([x] + r);
    KeptConcat(l, [x] + r, keep);
    KeptConcat([x], r, keep);
    KeptConcat(l, r, keep);
    KeptOne(x, keep);
    assert [] + Kept(r, keep) == Kept(r, keep);
  }

  ghost function Members(s: seq<Hash>): set<Hash> {
    set h | h in s
  }

  lemma {:induction false} WithoutMembers(s: seq<Hash>, x: Hash)
    requires Distinct(s) && x in s
    ensures Distinct(Without(s, x))
    ensures forall h :: h in Without(s, x) <==> h in s && h != x
  {
  }

  lemma {:induction false} KeptOthers(s: seq<Hash>, x: Hash)
    requires Distinct(s) && x in s
    ensures Without(s, x) == Kept(s, Members(Without(s, x)))
  {
    hide Without, Distinct, Kept;
    var o := Without(s, x);
    WithoutMembers(s, x);
    KeptWithout(s, x, Members(o));
    KeptAll(o, Members(o));
  }

  lemma {:induction false} KeptMembers(s: seq<Hash>, t: seq<Hash>)
    requires t == Kept(s, Members(t))
    ensures Members(t) <= Members(s)
  {
    forall h | h in t
      ensures h in s
    {
      KeptFrom(s, Members(t), h);
    }
  }

  lemma {:induction false} KeptFrom(s: seq<Hash>, keep: set<Hash>, h: Hash)
    requires h in Kept(s, keep)
    ensures h in s && h in keep
  {
    if s[|s| - 1] != h || h !in keep {
      KeptFrom(s[..|s| - 1], keep, h);
    }
  }

  lemma {:induction false} CountMembers(s: seq<Hash>)
    requires Distinct(s)
    ensures |Members(s)| == |s|
  {
    if s == [] {
      assert Members(s) == {};
    } else {
      var i := s[..|s| - 1];
      CountMembers(i);
      assert Members(s) == Members(i) + {s[|s| - 1]};
    }
  }

  lemma {:induction false} TakeNext(s: seq<Hash>, i: nat, m: multiset<Hash>)
    requires i < |s|
    ensures m + multiset(s[i..]) == m + multiset(s[i + 1..]) + multiset{s[i]}
  {
    assert s[i..] == [s[i]] + s[i + 1..];
  }
}
