/**
 * Conservation of bytes over whole runs of the co-simulation checker. A ledger splits the bytes
 * the reference model touched into one group per DUT access taken off the queue, and a last group
 * for the access still at its head.
 */
module CosimLedger {
  import opened CosimMatcher

  datatype Event = Notified(info: Access) | Iss(access: IssAccess) | Fixup(pmpOk: bool)

  /** One byte touched by the reference model. */
  datatype Touch = Touch(store: bool, addr: int, value: Byte)

  /** A DUT access off the queue, the touches charged to it and the lanes they cover. */
  datatype Group = Group(info: Access, touches: seq<Touch>, lanes: Lanes)

  datatype Ledger = Ledger(queue: seq<Pending>, closed: seq<Group>, open: seq<Touch>)

  const EMPTY := Ledger([], [], [])

  function Touches(a: IssAccess): seq<Touch> {
    seq(|a.bytes|, k requires 0 <= k < |a.bytes| => Touch(a.store, a.addr + k, a.bytes[k]))
  }

  /** The checker accepts e: no error is recorded. */
  predicate Accepted(q: seq<Pending>, e: Event) {
    match e
    case Notified(_) => true
    case Iss(a) => a.Valid() && !Judge(q, a).1.Failed?
    case Fixup(pmpOk) => DropsHead(q) ==> pmpOk
  }

  /** Moves the accesses that e takes off the queue into the ledger. */
  function Settle(l: Ledger, e: Event): Ledger
    requires Accepted(l.queue, e)
  {
    match e
    case Notified(info) => l.(queue := l.queue + [Pending(info, {})])
    case Iss(a) =>
      var q := Judge(l.queue, a).0;
      if |q| == |l.queue| then l.(queue := q, open := l.open + Touches(a))
      else
        var head := Group(l.queue[0].info, l.open + Touches(a), l.queue[0].seen + a.Touched());
        var second := if |q| + 1 == |l.queue| then [] else [Group(l.queue[1].info, [], {})];
        Ledger(q, l.closed + [head] + second, [])
    case Fixup(_) =>
      if DropsHead(l.queue)
      then Ledger(l.queue[1..], l.closed + [Group(l.queue[0].info, l.open, l.queue[0].seen)], []) else l
  }

  /** No event of the run makes the checker report an error. */
  predicate AllAccepted(l: Ledger, events: seq<Event>)
    decreases |events|
  {
    events != [] ==> Accepted(l.queue, events[0]) && AllAccepted(Settle(l, events[0]), events[1..])
  }

  function Replay(l: Ledger, events: seq<Event>): Ledger
    requires AllAccepted(l, events)
    decreases |events|
  {
    if events == [] then l else Replay(Settle(l, events[0]), events[1..])
  }

  // ---------------------------------------------------------------------------------------------
  // What the ledger promises

  /** The touches meet exactly the given lanes of the access, each once and with its value. */
  predicate Accounts(touches: seq<Touch>, info: Access, lanes: Lanes) {
    && (forall i :: 0 <= i < |touches| ==> Meets(touches[i], info, lanes))
    && (forall i, j :: 0 <= i < j < |touches| ==> touches[i].addr != touches[j].addr)
    && (forall l :: l in lanes ==> Hit(touches, info.addr + l))
  }

  predicate Meets(t: Touch, info: Access, lanes: Lanes) {
    t.store == info.store && t.addr - info.addr in lanes
    && (Unchecked(info) || t.value == info.data[t.addr - info.addr])
  }

  predicate Hit(touches: seq<Touch>, addr: int) {
    exists i :: 0 <= i < |touches| && touches[i].addr == addr
  }

  /** Why an access may leave the queue without all its enabled lanes touched. */
  predicate Excused(closed: seq<Group>, i: nat)
    requires i < |closed|
  {
    var g := closed[i];
    || (g.info.error && Misaligned(g.info))
    || (g.info.misalignedSecond && g.info.firstSawError)
    || (i > 0 && g.touches == [] && g.info.misalignedSecond && NeedsSecond(closed[i - 1].info)
        && g.info.addr == NextWord(closed[i - 1].info.addr))
  }

  predicate GroupOk(closed: seq<Group>, i: nat)
    requires i < |closed|
  {
    var g := closed[i];
    && Accounts(g.touches, g.info, g.lanes)
    && g.lanes <= g.info.be
    && (g.lanes == g.info.be || Excused(closed, i))
  }

  /** be_spike: a proper subset at the head of a misaligned access in progress, empty elsewhere. */
  predicate QueueOk(q: seq<Pending>) {
    && (forall i :: 1 <= i < |q| ==> q[i].seen == {})
    && (q != [] ==> q[0].seen <= q[0].info.be && (q[0].info.be != {} ==> q[0].seen < q[0].info.be))
    && (q != [] && q[0].seen != {} ==> Misaligned(q[0].info) && !q[0].info.error)
  }

  predicate LedgerOk(l: Ledger) {
    && QueueOk(l.queue)
    && (forall i :: 0 <= i < |l.closed| ==> GroupOk(l.closed, i))
    && (if l.queue == [] then l.open == [] else Accounts(l.open, l.queue[0].info, l.queue[0].seen))
  }

  function Gives(e: Event): seq<Touch> {
    if e.Iss? then Touches(e.access) else []
  }

  function Brings(e: Event): seq<Access> {
    if e.Notified? then [e.info] else []
  }

  /** All bytes the reference model touches in a run, in order. */
  function TouchesOf(events: seq<Event>): seq<Touch> {
    if events == [] then [] else Gives(events[0]) + TouchesOf(events[1..])
  }

  /** All accesses the DUT makes in a run, in order. */
  function Notifications(events: seq<Event>): seq<Access> {
    if events == [] then [] else Brings(events[0]) + Notifications(events[1..])
  }

  function Charged(groups: seq<Group>): seq<Touch> {
    if groups == [] then [] else groups[0].touches + Charged(groups[1..])
  }

  function Taken(groups: seq<Group>): seq<Access> {
    seq(|groups|, i requires 0 <= i < |groups| => groups[i].info)
  }

  function Waiting(q: seq<Pending>): seq<Access> {
    seq(|q|, i requires 0 <= i < |q| => q[i].info)
  }

  lemma ChargedAppend(a: seq<Group>, b: seq<Group>)
    ensures Charged(a + b) == Charged(a) + Charged(b)
  {
    if a == [] {
      assert a + b == b;
    } else {
      assert (a + b)[1..] == a[1..] + b;
      ChargedAppend(a[1..], b);
    }
  }

  // ---------------------------------------------------------------------------------------------
  // One event

  lemma MeetsMore(t: Touch, info: Access, m: Lanes, n: Lanes)
    requires Meets(t, info, m) && m <= n
    ensures Meets(t, info, n)
  {
  }

  lemma HitMore(s: seq<Touch>, t: seq<Touch>, addr: int)
    requires Hit(s, addr) || Hit(t, addr)
    ensures Hit(s + t, addr)
  {
    if Hit(s, addr) {
      var i :| 0 <= i < |s| && s[i].addr == addr;
      assert (s + t)[i].addr == addr;
    } else {
      var i :| 0 <= i < |t| && t[i].addr == addr;
      assert (s + t)[|s| + i].addr == addr;
    }
  }

  lemma MeetsApart(s: Touch, t: Touch, info: Access, m: Lanes, n: Lanes)
    requires Meets(s, info, m) && Meets(t, info, n) && m !! n
    ensures s.addr != t.addr
  {
  }

  /** Touches of disjoint lanes add up. */
  lemma AccountsAdd(s: seq<Touch>, t: seq<Touch>, info: Access, m: Lanes, n: Lanes)
    requires Accounts(s, info, m) && Accounts(t, info, n) && m !! n
    ensures Accounts(s + t, info, m + n)
  {
    hide Meets, Hit;
    forall i | 0 <= i < |s + t|
      ensures Meets((s + t)[i], info, m + n)
    {
      MeetsMore((s + t)[i], info, if i < |s| then m else n, m + n);
    }
    forall l | l in m + n
      ensures Hit(s + t, info.addr + l)
    {
      HitMore(s, t, info.addr + l);
    }
    forall i, j | 0 <= i < j < |s + t|
      ensures (s + t)[i].addr != (s + t)[j].addr
    {
      if i < |s| <= j {
        MeetsApart(s[i], t[j - |s|], info, m, n);
      }
    }
  }

  /** An access accounts for the lanes it touches. */
  lemma OwnAccounts(info: Access, a: IssAccess)
    requires a.Valid() && a.Word() == info.addr && a.store == info.store && DataAgrees(info, a)
    ensures Accounts(Touches(a), info, a.Touched())
  {
    var base, n := a.Lane(), |a.bytes|;
    assert info.addr + base == a.addr;
    OwnLanes(info, a, base, a.Touched());
  }

  lemma OwnLanes(info: Access, a: IssAccess, base: int, lanes: Lanes)
    requires 0 <= base && base + |a.bytes| <= 4 && info.addr + base == a.addr && a.store == info.store
    requires forall l :: 0 <= l < 4 ==> (l in lanes <==> base <= l < base + |a.bytes|)
    requires Unchecked(info) || forall k :: 0 <= k < |a.bytes| ==> info.data[base + k] == a.bytes[k]
    ensures Accounts(Touches(a), info, lanes)
  {
    hide Unchecked, Meets, Hit;
    forall i | 0 <= i < |a.bytes|
      ensures Meets(Touches(a)[i], info, lanes)
    {
      OwnMeets(info, a, base, lanes, i);
    }
    forall l | l in lanes
      ensures Hit(Touches(a), info.addr + l)
    {
      HitAt(Touches(a), l - base);
    }
  }

  lemma HitAt(s: seq<Touch>, i: nat)
    requires i < |s|
    ensures Hit(s, s[i].addr)
  {
  }

  lemma OwnMeets(info: Access, a: IssAccess, base: int, lanes: Lanes, i: nat)
    requires 0 <= base && base + |a.bytes| <= 4 && info.addr + base == a.addr && a.store == info.store
    requires i < |a.bytes| && base + i in lanes
    requires Unchecked(info) || info.data[base + i] == a.bytes[i]
    ensures Meets(Touches(a)[i], info, lanes)
  {
    hide Unchecked;
  }

  // ---------------------------------------------------------------------------------------------
  // One event

  /** The outcome of an accepted access in terms of the queue before it. */
  lemma Outcome(q: seq<Pending>, a: IssAccess)
    requires QueueOk(q) && a.Valid() && !Judge(q, a).1.Failed?
    ensures q != [] && a.Word() == q[0].info.addr && a.store == q[0].info.store && DataAgrees(q[0].info, a)
    ensures a.Touched() !! q[0].seen && a.Touched() + q[0].seen <= q[0].info.be
    ensures var r, lanes, info := Judge(q, a).0, q[0].seen + a.Touched(), q[0].info;
      if |r| == |q| then
        r == q[0 := q[0].(seen := lanes)] && Misaligned(info) && !info.error && lanes < info.be
      else if |r| + 1 == |q| then
        r == q[1..] && (lanes == info.be || (info.error && Misaligned(info)))
      else
        r == q[2..] && |q| >= 2 && NeedsSecond(info) && SecondFollows(q)
  {
    assert a.Lane() in a.Touched();
  }

  lemma NoTouches(info: Access)
    ensures Accounts([], info, {})
  {
  }

  lemma GroupKept(closed: seq<Group>, more: seq<Group>, i: nat)
    requires i < |closed| && GroupOk(closed, i)
    ensures GroupOk(closed + more, i)
  {
    hide Accounts;
  }

  lemma NotifiedKeeps(l: Ledger, info: Access)
    requires LedgerOk(l)
    ensures LedgerOk(Settle(l, Notified(info)))
  {
    hide Accounts, GroupOk;
    NoTouches(info);
  }

  /** The queue stays in shape when the head gains lanes or one or two accesses leave. */
  lemma QueueMoves(q: seq<Pending>, r: seq<Pending>, lanes: Lanes)
    requires QueueOk(q) && q != []
    requires || (r == q[0 := q[0].(seen := lanes)] && Misaligned(q[0].info) && !q[0].info.error && lanes < q[0].info.be)
             || r == q[1..] || (|q| >= 2 && r == q[2..])
    ensures QueueOk(r)
    ensures |r| < |q| && r != [] ==> r[0].seen == {}
  {
  }

  /** Closing the head, and its second half with it, keeps every group in order. */
  lemma ClosesHead(l: Ledger, head: Group, second: seq<Group>)
    requires LedgerOk(l) && Accounts(head.touches, head.info, head.lanes) && head.lanes <= head.info.be
    requires head.lanes == head.info.be || (head.info.error && Misaligned(head.info))
             || (head.info.misalignedSecond && head.info.firstSawError)
    requires |second| <= 1
    requires second != [] ==>
               second[0].touches == [] && second[0].lanes == {} && second[0].info.misalignedSecond
               && NeedsSecond(head.info) && second[0].info.addr == NextWord(head.info.addr)
    ensures forall i :: 0 <= i < |l.closed + [head] + second| ==> GroupOk(l.closed + [head] + second, i)
  {
    hide Accounts, NeedsSecond, QueueOk, NextWord;
    var closed := l.closed + [head] + second;
    forall i | 0 <= i < |closed|
      ensures GroupOk(closed, i)
    {
      if i < |l.closed| {
        GroupKept(l.closed, [head] + second, i);
        assert l.closed + ([head] + second) == closed;
      } else if i == |l.closed| + 1 {
        NoTouches(closed[i].info);
        assert closed[i - 1] == head;
      }
    }
  }

  lemma IssKeeps(l: Ledger, a: IssAccess)
    requires LedgerOk(l) && Accepted(l.queue, Iss(a))
    ensures LedgerOk(Settle(l, Iss(a)))
  {
    hide Judge, Accounts, NeedsSecond, GroupOk, QueueOk;
    var q, n := l.queue, Settle(l, Iss(a));
    Outcome(q, a);
    var info, lanes := q[0].info, q[0].seen + a.Touched();
    OwnAccounts(info, a);
    AccountsAdd(l.open, Touches(a), info, q[0].seen, a.Touched());
    QueueMoves(q, n.queue, lanes);
    if |n.queue| < |q| {
      var head := Group(info, l.open + Touches(a), lanes);
      assert n.closed[..|l.closed| + 1] == l.closed + [head];
      if |n.queue| + 1 < |q| {
        NoTouches(q[1].info);
      }
      ClosesHead(l, head, if |n.queue| + 1 == |q| then [] else [Group(q[1].info, [], {})]);
      if n.queue != [] {
        NoTouches(n.queue[0].info);
      }
    }
  }

  lemma FixupKeeps(l: Ledger, pmpOk: bool)
    requires LedgerOk(l) && Accepted(l.queue, Fixup(pmpOk))
    ensures LedgerOk(Settle(l, Fixup(pmpOk)))
  {
    hide Accounts, GroupOk, QueueOk;
    var q := l.queue;
    if DropsHead(q) {
      var head := Group(q[0].info, l.open, q[0].seen);
      QueueMoves(q, q[1..], {});
      assert q[0].seen <= q[0].info.be by {
        HeadWithin(q);
      }
      ClosesHead(l, head, []);
      assert l.closed + [head] + [] == l.closed + [head];
      if q[1..] != [] {
        NoTouches(q[1].info);
      }
    }
  }

  lemma HeadWithin(q: seq<Pending>)
    requires QueueOk(q) && q != []
    ensures q[0].seen <= q[0].info.be
  {
  }

  lemma SettleKeeps(l: Ledger, e: Event)
    requires LedgerOk(l) && Accepted(l.queue, e)
    ensures LedgerOk(Settle(l, e))
  {
    hide Settle, Accepted, LedgerOk;
    match e {
      case Notified(info) => NotifiedKeeps(l, info);
      case Iss(a) => IssKeeps(l, a);
      case Fixup(pmpOk) => FixupKeeps(l, pmpOk);
    }
  }

  lemma OneTaken(closed: seq<Group>, g: Group, q: seq<Pending>)
    requires q != [] && g.info == q[0].info
    ensures Taken(closed + [g]) + Waiting(q[1..]) == Taken(closed) + Waiting(q)
    ensures Charged(closed + [g]) == Charged(closed) + g.touches
  {
    ChargedAppend(closed, [g]);
    assert Waiting(q) == [q[0].info] + Waiting(q[1..]);
    assert Taken(closed + [g]) == Taken(closed) + [g.info];
  }

  lemma IssBalances(l: Ledger, a: IssAccess)
    requires QueueOk(l.queue) && Accepted(l.queue, Iss(a))
    ensures var n := Settle(l, Iss(a));
      && Charged(n.closed) + n.open == Charged(l.closed) + (l.open + Touches(a))
      && Taken(n.closed) + Waiting(n.queue) == Taken(l.closed) + Waiting(l.queue)
  {
    hide Judge, QueueOk, Charged, Taken, SecondFollows, NeedsSecond, Misaligned;
    var n, q := Settle(l, Iss(a)), l.queue;
    Outcome(q, a);
    if |n.queue| == |q| {
      assert Waiting(n.queue) == Waiting(q);
    } else {
      var head := Group(q[0].info, l.open + Touches(a), q[0].seen + a.Touched());
      OneTaken(l.closed, head, q);
      if |n.queue| + 1 == |q| {
        assert n.closed == l.closed + [head];
      } else {
        OneTaken(l.closed + [head], Group(q[1].info, [], {}), q[1..]);
        assert q[1..][1..] == q[2..];
      }
    }
  }

  /** One event: its touches are charged, and accesses only move from the queue into the ledger. */
  lemma SettleBalances(l: Ledger, e: Event)
    requires QueueOk(l.queue) && Accepted(l.queue, e)
    ensures var n := Settle(l, e);
      && Charged(n.closed) + n.open == (Charged(l.closed) + l.open) + Gives(e)
      && Taken(n.closed) + Waiting(n.queue) == (Taken(l.closed) + Waiting(l.queue)) + Brings(e)
  {
    hide Judge, QueueOk, DropsHead, Charged, Taken;
    match e {
      case Notified(info) =>
        assert Waiting(l.queue + [Pending(info, {})]) == Waiting(l.queue) + [info];
      case Iss(a) => IssBalances(l, a);
      case Fixup(_) =>
        if DropsHead(l.queue) {
          FixupBalances(l);
        }
    }
  }

  lemma FixupBalances(l: Ledger)
    requires DropsHead(l.queue)
    ensures var g := Group(l.queue[0].info, l.open, l.queue[0].seen);
      && Charged(l.closed + [g]) + [] == Charged(l.closed) + (l.open + [])
      && Taken(l.closed + [g]) + Waiting(l.queue[1..]) == Taken(l.closed) + Waiting(l.queue) + []
  {
    hide Charged, Taken, Waiting;
    OneTaken(l.closed, Group(l.queue[0].info, l.open, l.queue[0].seen), l.queue);
  }

  lemma {:induction false} ReplayBalances(l: Ledger, events: seq<Event>)
    requires LedgerOk(l) && AllAccepted(l, events)
    ensures var n := Replay(l, events);
      && LedgerOk(n)
      && Charged(n.closed) + n.open == (Charged(l.closed) + l.open) + TouchesOf(events)
      && Taken(n.closed) + Waiting(n.queue) == (Taken(l.closed) + Waiting(l.queue)) + Notifications(events)
    decreases |events|
  {
    hide Settle, Charged, Taken, Waiting, GroupOk, Accounts, QueueOk, Accepted, Gives, Brings;
    if events != [] {
      var e, m := events[0], Settle(l, events[0]);
      SettleKeeps(l, e);
      SettleBalances(l, e);
      ReplayBalances(m, events[1..]);
      Reassociate(Charged(l.closed) + l.open, Gives(e), TouchesOf(events[1..]));
      Reassociate(Taken(l.closed) + Waiting(l.queue), Brings(e), Notifications(events[1..]));
    }
  }

  lemma Reassociate<T>(x: seq<T>, y: seq<T>, z: seq<T>)
    ensures (x + y) + z == x + (y + z)
  {
  }

  /**
   * Conservation: over any run of notifications, reference model accesses and fixups without a
   * reported mismatch, the bytes the reference model touched are, in order, the bytes charged to
   * the accesses taken off the queue and then to its head; each charge meets the access's lanes
   * once and with equal values; and accesses leave the queue in the order they were notified.
   */
  lemma BytesConserved(events: seq<Event>)
    requires AllAccepted(EMPTY, events)
    ensures var n := Replay(EMPTY, events);
      && TouchesOf(events) == Charged(n.closed) + n.open
      && Notifications(events) == Taken(n.closed) + Waiting(n.queue)
      && (forall i :: 0 <= i < |n.closed| ==> GroupOk(n.closed, i))
      && (n.queue != [] ==> Accounts(n.open, n.queue[0].info, n.queue[0].seen))
      && QueueOk(n.queue)
  {
    ReplayBalances(EMPTY, events);
  }

  /** Without bus errors or dropped halves every access taken off the queue was met on all its lanes. */
  lemma FullyMet(events: seq<Event>, i: nat)
    requires AllAccepted(EMPTY, events)
    requires forall e :: e in Notifications(events) ==> !e.error && !e.firstSawError
    requires i < |Replay(EMPTY, events).closed|
    ensures var g := Replay(EMPTY, events).closed[i]; Accounts(g.touches, g.info, g.info.be)
  {
    hide AllAccepted, Replay, Accounts, Charged;
    BytesConserved(events);
    var n := Replay(EMPTY, events);
    forall k | 0 <= k < |n.closed|
      ensures !n.closed[k].info.error && !n.closed[k].info.firstSawError
    {
      assert Notifications(events)[k] == Taken(n.closed)[k];
    }
    assert GroupOk(n.closed, i) && !Excused(n.closed, i);
  }

  // ---------------------------------------------------------------------------------------------
  // No false alarm

  datatype Remaining = Rejected | Left(queue: seq<Pending>)

  /** The queue after a list of accesses, unless one of them is rejected. */
  function Consume(q: seq<Pending>, accesses: seq<IssAccess>): Remaining
    requires forall k :: 0 <= k < |accesses| ==> accesses[k].Valid()
    decreases |accesses|
  {
    if accesses == [] then Left(q)
    else if Judge(q, accesses[0]).1.Failed? then Rejected
    else Consume(Judge(q, accesses[0]).0, accesses[1..])
  }

  /** The reference model's access to the n lanes from lane on, with the data the DUT saw. */
  function Mirror(info: Access, lane: int, n: nat): (a: IssAccess)
    requires info.addr % 4 == 0 && 0 <= lane && 1 <= n && lane + n <= 4
    ensures a.Valid() && a.Word() == info.addr && a.Lane() == lane && DataAgrees(info, a)
  {
    IssAccess(info.store, info.addr + lane, info.data[lane..lane + n])
  }

  /** Byte accesses to the lanes in the given order. */
  function Bytewise(info: Access, order: seq<int>): (accesses: seq<IssAccess>)
    requires info.addr % 4 == 0 && forall k :: 0 <= k < |order| ==> 0 <= order[k] < 4
    ensures |accesses| == |order|
    ensures forall k :: 0 <= k < |order| ==> accesses[k] == Mirror(info, order[k], 1) && accesses[k].Valid()
  {
    if order == [] then [] else [Mirror(info, order[0], 1)] + Bytewise(info, order[1..])
  }

  /** One more byte of a misaligned access is accepted, and the last one takes the access off the queue. */
  lemma {:induction false} ByteAccepted(q: seq<Pending>, l: int)
    requires q != [] && q[0].info.addr % 4 == 0 && Misaligned(q[0].info) && !q[0].info.error
    requires l in q[0].info.be && l !in q[0].seen
    ensures var seen := q[0].seen + {l};
      Judge(q, Mirror(q[0].info, l, 1)) ==
      (if seen == q[0].info.be then q[1..] else q[0 := q[0].(seen := seen)], Passed)
  {
    var a := Mirror(q[0].info, l, 1);
    assert a.Touched() == {l} by {
      forall k | k in ALL_LANES
        ensures k in a.Touched() <==> k == l
      {
      }
    }
    hide Mirror;
  }

  /** Touching the lanes still missing from a misaligned access byte by byte, in any order, is accepted. */
  lemma {:induction false} BytewiseAccepted(q: seq<Pending>, order: seq<int>)
    requires q != [] && q[0].info.addr % 4 == 0 && Misaligned(q[0].info) && !q[0].info.error && order != []
    requires forall k :: 0 <= k < |order| ==> order[k] in q[0].info.be && order[k] !in q[0].seen
    requires forall i, j :: 0 <= i < j < |order| ==> order[i] != order[j]
    requires forall l :: l in q[0].info.be ==> l in q[0].seen || l in order
    requires q[0].seen <= q[0].info.be
    ensures Consume(q, Bytewise(q[0].info, order)) == Left(q[1..])
    decreases |order|
  {
    hide Judge, Mirror, Misaligned;
    var seen := q[0].seen + {order[0]};
    var r := q[0 := q[0].(seen := seen)];
    ByteAccepted(q, order[0]);
    if |order| == 1 {
      forall l | l in q[0].info.be
        ensures l in seen
      {
        assert l in q[0].seen || l == order[0];
      }
      assert seen == q[0].info.be;
    } else {
      assert order[1] in q[0].info.be && order[1] !in seen;
      assert r[1..] == q[1..];
      BytewiseAccepted(r, order[1..]);
    }
  }

  /** An aligned access whose lanes form one stretch is accepted in one go. */
  lemma {:induction false} AlignedAccepted(q: seq<Pending>, lane: int, n: nat)
    requires q != [] && q[0].info.addr % 4 == 0 && !Misaligned(q[0].info)
    requires 0 <= lane && 1 <= n && lane + n <= 4 && forall l :: l in q[0].info.be <==> lane <= l < lane + n
    ensures Judge(q, Mirror(q[0].info, lane, n)) == (q[1..], if q[0].info.error then BusError else Passed)
    ensures Consume(q, [Mirror(q[0].info, lane, n)]) == Left(q[1..])
  {
    var a := Mirror(q[0].info, lane, n);
    assert a.Touched() == q[0].info.be;
  }
}
