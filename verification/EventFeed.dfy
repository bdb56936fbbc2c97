/**
 * Broadcasting a value to all subscribed channels (event/feed.go).
 *
 * Select cases live in one array. `Send` works on a prefix of it, in place: a delivered case is
 * swapped behind the prefix, a removed one shifts the array. Which channel is ready, and who
 * subscribes or unsubscribes meanwhile, is chosen by the environment.
 */
module EventFeed {
  import opened Common

  type Channel = nat

  /** The case at index zero, which receives unsubscriptions. */
  const REMOVE_SUB: Channel := 0

  /**
   * What happened during one `Send`, in order. A channel is removed from the cases, even if it has joined again after
   * the unsubscription looked into the inbox; or it leaves the inbox.
   */
  datatype Event = Delivered(channel: Channel) | Removed(channel: Channel) | Joined(channel: Channel) | Left(channel: Channel)

  /** The channels delivered to, with repetition. */
  ghost function Deliveries(log: seq<Event>): multiset<Channel> {
    if log == [] then multiset{} else
      Deliveries(log[..|log| - 1]) + if log[|log| - 1].Delivered? then multiset{log[|log| - 1].channel} else multiset{}
  }

  /** After a run of events: what is subscribed and waits, what is subscribed and served, and who has joined meanwhile. */
  datatype Progress = Progress(waiting: multiset<Channel>, served: multiset<Channel>, inbox: multiset<Channel>)

  /** A removal takes a waiting case, else a served one. */
  ghost function After(p: Progress, e: Event): Progress {
    match e
    case Delivered(c) => p.(waiting := p.waiting - multiset{c}, served := p.served + multiset{c})
    case Joined(c) => p.(inbox := p.inbox + multiset{c})
    case Left(c) => p.(inbox := p.inbox - multiset{c})
    case Removed(c) =>
      if c in p.waiting then p.(waiting := p.waiting - multiset{c})
      else p.(served := p.served - multiset{c})
  }

  /** An event concerns a case that is there: a delivery a waiting one, a removal any. */
  ghost predicate Allowed(p: Progress, e: Event) {
    match e
    case Delivered(c) => c in p.waiting
    case Joined(_) => true
    case Left(c) => c in p.inbox
    case Removed(c) => c in p.waiting || c in p.served
  }

  ghost function AfterAll(p: Progress, log: seq<Event>): Progress {
    if log == [] then p else After(AfterAll(p, log[..|log| - 1]), log[|log| - 1])
  }

  ghost predicate Possible(p: Progress, log: seq<Event>) {
    log == [] || (Possible(p, log[..|log| - 1]) && Allowed(AfterAll(p, log[..|log| - 1]), log[|log| - 1]))
  }

  /** The channels removed while they still waited, with repetition. */
  ghost function Dropped(p: Progress, log: seq<Event>): multiset<Channel> {
    if log == [] then multiset{} else
      Dropped(p, log[..|log| - 1]) + DroppedBy(AfterAll(p, log[..|log| - 1]), log[|log| - 1])
  }

  ghost function DroppedBy(p: Progress, e: Event): multiset<Channel> {
    if e.Removed? && e.channel in p.waiting then multiset{e.channel} else multiset{}
  }

  /** Nothing is lost and nothing doubled: every case was delivered to, dropped before that, or still waits. */
  lemma {:induction false} Conservation(p: Progress, log: seq<Event>)
    requires Possible(p, log)
    ensures AfterAll(p, log).waiting + Deliveries(log) + Dropped(p, log) == p.waiting
  {
    if log != [] {
      Conservation(p, log[..|log| - 1]);
    }
  }

  lemma {:induction false} LogNext(p: Progress, log: seq<Event>, e: Event)
    requires Possible(p, log) && Allowed(AfterAll(p, log), e)
    ensures Possible(p, log + [e]) && AfterAll(p, log + [e]) == After(AfterAll(p, log), e)
    ensures |Deliveries(log + [e])| == |Deliveries(log)| + if e.Delivered? then 1 else 0
  {
  }

  /** The cases of a feed during `Send`: the prefix up to `n` waits, the rest is served. */
  ghost predicate Split(s: seq<Channel>, n: nat, p: Progress) {
    0 < n <= |s| && multiset(s[1..n]) == p.waiting && multiset(s[n..]) == p.served
  }

  lemma {:induction false} SplitInbox(s: seq<Channel>, n: nat, p: Progress, q: Progress)
    requires Split(s, n, p) && q.waiting == p.waiting && q.served == p.served
    ensures Split(s, n, q)
  {
  }

  lemma {:induction false} SwapOut(s: seq<Channel>, n: nat, i: nat, p: Progress)
    requires Split(s, n, p) && 1 <= i < n
    ensures s[i] in p.waiting
    ensures Split(s[i := s[n - 1]][n - 1 := s[i]], n - 1, After(p, Delivered(s[i])))
  {
    hide Split;
    if i == n - 1 {
      SwapLast(s, n, p);
    } else {
      SwapInner(s, n, i, p);
    }
  }

  lemma {:induction false} SwapLast(s: seq<Channel>, n: nat, p: Progress)
    requires Split(s, n, p) && 1 < n
    ensures s[n - 1] in p.waiting && s[n - 1 := s[n - 1]][n - 1 := s[n - 1]] == s
    ensures Split(s, n - 1, After(p, Delivered(s[n - 1])))
  {
    assert s[1..n] == s[1..n - 1] + [s[n - 1]];
    assert s[n - 1..] == [s[n - 1]] + s[n..];
  }

  lemma {:induction false} SwapInner(s: seq<Channel>, n: nat, i: nat, p: Progress)
    requires Split(s, n, p) && 1 <= i < n - 1
    ensures s[i] in p.waiting
    ensures Split(s[i := s[n - 1]][n - 1 := s[i]], n - 1, After(p, Delivered(s[i])))
  {
    var t, x, y := s[i := s[n - 1]][n - 1 := s[i]], s[i], s[n - 1];
    var u := s[1..n - 1];
    assert s[1..n] == u + [y];
    assert t[1..n - 1] == u[i - 1 := y];
    assert multiset(u[i - 1 := y]) == multiset(u) - multiset{x} + multiset{y};
    assert u[i - 1] == x;
    assert t[n - 1..] == [x] + s[n..];
  }

  lemma {:induction false} CutWaiting(s: seq<Channel>, n: nat, i: nat, p: Progress)
    requires Split(s, n, p) && 1 <= i < n
    ensures s[i] in p.waiting && Split(s[..i] + s[i + 1..], n - 1, After(p, Removed(s[i])))
  {
    var t := s[..i] + s[i + 1..];
    assert s[1..n] == s[1..i] + [s[i]] + s[i + 1..n];
    assert t[1..n - 1] == s[1..i] + s[i + 1..n];
    assert t[n - 1..] == s[n..];
  }

  lemma {:induction false} CutServed(s: seq<Channel>, n: nat, i: nat, p: Progress)
    requires Split(s, n, p) && n <= i < |s| && s[i] !in s[1..n]
    ensures s[i] in p.served && s[i] !in p.waiting && Split(s[..i] + s[i + 1..], n, After(p, Removed(s[i])))
  {
    var t := s[..i] + s[i + 1..];
    assert s[n..] == s[n..i] + [s[i]] + s[i + 1..];
    assert t[n..] == s[n..i] + s[i + 1..];
    assert t[1..n] == s[1..n];
  }

  method IndexIn(s: seq<Channel>, c: Channel) returns (i: nat)
    requires c in s
    ensures i < |s| && s[i] == c
  {
    i := 0;
    while i < |s| && s[i] != c
      invariant i <= |s| && c !in s[..i]
    {
      assert s[..i + 1] == s[..i] + [s[i]];
      i := i + 1;
    }
    assert s[..|s|] == s;
  }

  lemma {:induction false} CutCounts(s: seq<Channel>, i: nat)
    requires i < |s|
    ensures multiset(s[..i] + s[i + 1..]) == multiset(s) - multiset{s[i]}
    ensures forall c :: c in s[..i] + s[i + 1..] ==> c in s
  {
    assert s == s[..i] + [s[i]] + s[i + 1..];
  }

  lemma {:induction false} InCases(cs: seq<Channel>, inbox: seq<Channel>, c: Channel)
    requires c in multiset(cs) + multiset(inbox) && c !in inbox
    ensures c in cs && multiset(inbox)[c] == 0
  {
    assert c !in multiset(inbox);
  }

  lemma {:induction false} RemoveCounts(s: seq<Channel>, i: nat)
    requires 1 <= i < |s|
    ensures multiset((s[..i] + s[i + 1..])[1..]) == multiset(s[1..]) - multiset{s[i]}
    ensures forall c :: c in (s[..i] + s[i + 1..])[1..] ==> c in s[1..]
    ensures (s[..i] + s[i + 1..])[0] == s[0]
  {
    var t := s[..i] + s[i + 1..];
    assert t[1..] == s[1..i] + s[i + 1..];
    assert s[1..] == s[1..i] + [s[i]] + s[i + 1..];
  }

  /** The first case of a channel is cut: a waiting one if there is any. */
  lemma {:induction false} CutFirst(s: seq<Channel>, n: nat, i: nat, p: Progress)
    requires Split(s, n, p) && 1 <= i < |s| && s[i] !in s[..i]
    ensures s[i] in p.waiting || s[i] in p.served
    ensures Split(s[..i] + s[i + 1..], if i < n then n - 1 else n, After(p, Removed(s[i])))
  {
    if i < n {
      CutWaiting(s, n, i, p);
    } else {
      assert forall c :: c in s[1..n] ==> c in s[..i];
      CutServed(s, n, i, p);
    }
  }

  /** Before the first delivery everybody waits. */
  lemma {:induction false} Start(s: seq<Channel>, p: Progress)
    requires s != [] && p == Progress(multiset(s[1..]), multiset{}, multiset{})
    ensures Split(s, |s|, p) && Possible(p, []) && AfterAll(p, []) == p && |Deliveries([])| == 0
  {
    assert s[1..|s|] == s[1..] && s[|s|..] == [];
  }

  /** With only the unsubscription case left, everybody has been served. */
  lemma {:induction false} Ended(s: seq<Channel>, p: Progress)
    requires Split(s, 1, p)
    ensures p == Progress(multiset{}, multiset(s[1..]), p.inbox)
  {
  }

  lemma {:induction false} Kept(s: seq<Channel>, t: seq<Channel>, n: nat, i: nat)
    requires 1 <= i < n <= |s| && t == s[i := s[n - 1]][n - 1 := s[i]]
    ensures t[0] == s[0] && forall c :: c in t[1..] ==> c in s[1..]
  {
  }

  lemma {:induction false} FoundInside(s: seq<Channel>, c: Channel, i: int)
    requires s != [] && s[0] != c && c in s[1..]
    requires if i == -1 then c !in s else 0 <= i < |s| && s[i] == c
    ensures 1 <= i < |s|
  {
  }

  class Feed {
    var cases: array<Channel>
    var len: nat
    var inbox: seq<Channel>

    ghost predicate Valid()
      reads this, cases
    {
      0 < len <= cases.Length && cases[0] == REMOVE_SUB && REMOVE_SUB !in cases[1..len] && REMOVE_SUB !in inbox
    }

    /** All subscriptions: those in the select cases and those not yet taken over from the inbox. */
    ghost function Subscribers(): multiset<Channel>
      reads this, cases
      requires 0 < len <= cases.Length
    {
      multiset(cases[1..len]) + multiset(inbox)
    }

    constructor ()
      ensures Valid() && Subscribers() == multiset{} && fresh(cases)
    {
      cases := new Channel[1](_ => REMOVE_SUB);
      len, inbox := 1, [];
    }

    /** `Subscribe`: the next send will pick the channel up. */
    method Subscribe(channel: Channel)
      requires Valid() && channel != REMOVE_SUB
      modifies this`inbox
      ensures Valid() && Subscribers() == old(Subscribers()) + multiset{channel}
    {
      inbox := inbox + [channel];
    }

    /** `find`: the first case of a channel. */
    method Find(channel: Channel) returns (index: int)
      requires 0 < len <= cases.Length
      ensures index == -1 ==> channel !in cases[..len]
      ensures index != -1 ==> 0 <= index < len && cases[index] == channel && channel !in cases[..index]
    {
      for i := 0 to len
        invariant channel !in cases[..i]
      {
        if cases[i] == channel {
          return i;
        }
      }
      return -1;
    }

    /** `delete`: shift the later cases down by one, in place. */
    method Delete(index: nat)
      requires 0 < len <= cases.Length && index < len
      modifies this`len, cases
      ensures len == old(len) - 1 && cases[..len] == old(cases[..len])[..index] + old(cases[..len])[index + 1..]
    {
      ghost var s := cases[..len];
      for i := index to len - 1
        invariant len == old(len)
        invariant forall k :: 0 <= k < i ==> cases[k] == s[if k < index then k else k + 1]
        invariant forall k :: i <= k < len ==> cases[k] == s[k]
      {
        cases[i] := cases[i + 1];
      }
      len := len - 1;
      assert |cases[..len]| == |s[..index] + s[index + 1..]|;
    }

    /** `deactivate`: swap a case to the end of the prefix. */
    method Deactivate(index: nat, n: nat)
      requires index < n <= len <= cases.Length
      modifies cases
      ensures cases[..len] == old(cases[..len])[index := old(cases[n - 1])][n - 1 := old(cases[index])]
    {
      cases[index], cases[n - 1] := cases[n - 1], cases[index];
    }

    /** `remove` while no send is in progress: from the inbox if the channel is there, else from the cases. */
    method Remove(channel: Channel)
      requires Valid() && channel != REMOVE_SUB && channel in Subscribers()
      modifies this`inbox, this`len, cases
      ensures Valid() && Subscribers() == old(Subscribers()) - multiset{channel}
    {
      if channel in inbox {
        var i := IndexIn(inbox, channel);
        CutCounts(inbox, i);
        inbox := inbox[..i] + inbox[i + 1..];
        return;
      }
      RemoveCase(channel);
    }

    /** Delete the first case of a channel that is not in the inbox. */
    method RemoveCase(channel: Channel)
      requires Valid() && channel != REMOVE_SUB && channel in Subscribers() && channel !in inbox
      modifies this`len, cases
      ensures Valid() && Subscribers() == old(Subscribers()) - multiset{channel}
    {
      ghost var s, t := cases[..len], cases[1..len];
      assert s[1..] == t;
      InCases(t, inbox, channel);
      var index := Find(channel);
      FoundInside(s, channel, index);
      RemoveCounts(s, index);
      Delete(index);
      ghost var u := cases[1..len];
      assert u == cases[..len][1..];
      assert multiset(u) + multiset(inbox) == multiset(t) + multiset(inbox) - multiset{channel};
    }

    /** Take over the inbox: the cases grow into a larger array. */
    method TakeInbox()
      requires Valid()
      modifies this
      ensures Valid() && inbox == [] && fresh(cases) && cases[..len] == old(cases[..len] + inbox)
    {
      var grown := new Channel[len + |inbox|](i requires 0 <= i < len + |inbox| && len <= cases.Length reads this, cases =>
                                              if i < len then cases[i] else inbox[i - len]);
      cases, len, inbox := grown, len + |inbox|, [];
      assert cases[..len] == old(cases[..len] + inbox);
      assert cases[1..len] == old(cases[1..len] + inbox);
    }

    /**
     * `Send`: whatever the interleaving of ready channels, subscriptions and unsubscriptions, the run ends with nobody
     * waiting, has delivered once per case that was not removed first, and leaves the cases still subscribed; who has
     * joined meanwhile is in the inbox and was not served.
     */
    method Send() returns (nsent: nat, ghost log: seq<Event>)
      requires Valid()
      modifies this, cases
      ensures Valid()
      ensures var start := Progress(old(Subscribers()), multiset{}, multiset{});
              && Possible(start, log) && nsent == |Deliveries(log)|
              && AfterAll(start, log) == Progress(multiset{}, multiset(cases[1..len]), multiset(inbox))
              && Deliveries(log) + Dropped(start, log) == old(Subscribers())
    {
      hide Possible, AfterAll, Deliveries, Dropped, Split;
      ghost var start := Progress(Subscribers(), multiset{}, multiset{});
      ghost var taken := cases[..len] + inbox;
      assert taken[1..] == cases[1..len] + inbox;
      TakeInbox();
      log, nsent := [], 0;
      var n := len;
      Start(taken, start);
      while true
        invariant Sending(start, log, n, nsent) && fresh(cases)
        decreases len + n
      {
        n, nsent, log := FastPath(n, nsent, start, log);
        if n == 1 {
          break;
        }
        log := Meanwhile(n, nsent, start, log);
        n, nsent, log := SelectOne(n, nsent, start, log);
      }
      Conservation(start, log);
      Ended(cases[..len], AfterAll(start, log));
      assert cases[1..len] == cases[..len][1..];
    }

    /** Others subscribe, and unsubscribe before they were taken over: this touches the inbox only. */
    method Meanwhile(n: nat, nsent: nat, ghost start: Progress, ghost log0: seq<Event>) returns (ghost log: seq<Event>)
      requires Sending(start, log0, n, nsent)
      modifies this`inbox
      ensures Sending(start, log, n, nsent)
    {
      hide Sending;
      log := log0;
      var steps: int := *;
      while steps > 0
        invariant Sending(start, log, n, nsent)
      {
        var channel: int, leaves: bool := *, *;
        if leaves && channel in inbox {
          log := Leave(channel, n, nsent, start, log);
        } else if channel > REMOVE_SUB {
          log := Join(channel, n, nsent, start, log);
        }
        steps := steps - 1;
      }
    }

    method Join(channel: Channel, n: nat, nsent: nat, ghost start: Progress, ghost log0: seq<Event>) returns (ghost log: seq<Event>)
      requires Sending(start, log0, n, nsent) && channel != REMOVE_SUB
      modifies this`inbox
      ensures Sending(start, log, n, nsent)
    {
      hide Possible, AfterAll, Deliveries, Split;
      ghost var p := AfterAll(start, log0);
      LogNext(start, log0, Joined(channel));
      SplitInbox(cases[..len], n, p, After(p, Joined(channel)));
      log := log0 + [Joined(channel)];
      inbox := inbox + [channel];
    }

    method Leave(channel: Channel, n: nat, nsent: nat, ghost start: Progress, ghost log0: seq<Event>) returns (ghost log: seq<Event>)
      requires Sending(start, log0, n, nsent) && channel in inbox
      modifies this`inbox
      ensures Sending(start, log, n, nsent)
    {
      hide Possible, AfterAll, Deliveries, Split;
      ghost var p := AfterAll(start, log0);
      var k := IndexIn(inbox, channel);
      CutCounts(inbox, k);
      assert channel in multiset(inbox);
      LogNext(start, log0, Left(channel));
      SplitInbox(cases[..len], n, p, After(p, Left(channel)));
      log := log0 + [Left(channel)];
      inbox := inbox[..k] + inbox[k + 1..];
    }

    /** During a send: the first `n` cases wait, the others are served. */
    ghost predicate Sending(start: Progress, log: seq<Event>, n: nat, nsent: nat)
      reads this, cases
    {
      && 0 < n <= len <= cases.Length && cases[0] == REMOVE_SUB && REMOVE_SUB !in cases[1..len]
      && Possible(start, log) && Split(cases[..len], n, AfterAll(start, log)) && nsent == |Deliveries(log)|
      && multiset(inbox) == AfterAll(start, log).inbox && REMOVE_SUB !in inbox
    }

    /** Try every waiting channel without blocking. */
    method FastPath(n0: nat, nsent0: nat, ghost start: Progress, ghost log0: seq<Event>) returns (n: nat, nsent: nat, ghost log: seq<Event>)
      requires Sending(start, log0, n0, nsent0)
      modifies cases
      ensures Sending(start, log, n, nsent) && n <= n0
    {
      hide Possible, AfterAll, Deliveries, Split;
      n, nsent, log := n0, nsent0, log0;
      var i := 1;
      while i < n
        invariant Sending(start, log, n, nsent) && 1 <= i <= n <= n0
        decreases n - i
      {
        var ready: bool := *;
        if ready {
          log := Deliver(i, n, nsent, start, log);
          n, nsent := n - 1, nsent + 1;
        } else {
          i := i + 1;
        }
      }
    }

    /** A send to the waiting channel at `i` succeeds. */
    method Deliver(i: nat, n: nat, ghost nsent: nat, ghost start: Progress, ghost log0: seq<Event>) returns (ghost log: seq<Event>)
      requires Sending(start, log0, n, nsent) && 1 <= i < n
      modifies cases
      ensures Sending(start, log, n - 1, nsent + 1)
    {
      hide Possible, AfterAll, Deliveries, Split;
      ghost var s, p := cases[..len], AfterAll(start, log0);
      SwapOut(s, n, i, p);
      log := log0 + [Delivered(s[i])];
      LogNext(start, log0, Delivered(s[i]));
      Deactivate(i, n);
      Kept(s, cases[..len], n, i);
      assert cases[1..len] == cases[..len][1..];
    }

    /** Block until a channel is ready or an unsubscription arrives; exactly one of them is taken. */
    method SelectOne(n0: nat, nsent0: nat, ghost start: Progress, ghost log0: seq<Event>) returns (n: nat, nsent: nat, ghost log: seq<Event>)
      requires Sending(start, log0, n0, nsent0) && n0 > 1
      modifies this`len, cases
      ensures Sending(start, log, n, nsent) && n <= n0 && len <= old(len) && len + n < old(len) + n0
    {
      hide Possible, AfterAll, Deliveries, Split;
      n, nsent, log := n0, nsent0, log0;
      var chosen: nat :| chosen < n;
      if chosen == 0 {
        assert cases[1] in cases[1..len];
        var channel: Channel :| channel in cases[1..len];
        n, log := Unsubscribed(n, nsent, channel, start, log);
      } else {
        log := Deliver(chosen, n, nsent, start, log);
        n, nsent := n - 1, nsent + 1;
      }
    }

    /** A channel is unsubscribed during the send, through the first case; it may have joined again meanwhile. */
    method Unsubscribed(n0: nat, ghost nsent: nat, channel: Channel, ghost start: Progress, ghost log0: seq<Event>)
      returns (n: nat, ghost log: seq<Event>)
      requires Sending(start, log0, n0, nsent) && channel in cases[1..len]
      modifies this`len, cases
      ensures Sending(start, log, n, nsent) && n <= n0 && len == old(len) - 1
    {
      hide Possible, AfterAll, Deliveries, Split;
      ghost var s, p := cases[..len], AfterAll(start, log0);
      var index := Find(channel);
      FoundInside(s, channel, index);
      CutFirst(s, n0, index, p);
      RemoveCounts(s, index);
      Delete(index);
      assert cases[1..len] == cases[..len][1..] && s[1..] == old(cases[1..len]);
      n := if index < n0 then n0 - 1 else n0;
      log := log0 + [Removed(channel)];
      LogNext(start, log0, Removed(channel));
    }
  }
}
