/**
 * What the co-simulation checker answers. An access is refused exactly when it differs from the
 * oldest observed one, and an accepted one is answered with a bus error exactly when the DUT saw an
 * error on the access its bytes are charged to, over whole runs.
 */
module CosimVerdicts {
  import opened CosimMatcher
  import opened CosimLedger

  // ---------------------------------------------------------------------------------------------
  // One access

  /** The k-th byte's lane is enabled, and not met before when the access comes in pieces. */
  predicate LaneExpected(p: Pending, a: IssAccess, k: nat) {
    var lane := a.addr % 4 + k;
    lane in p.info.be && !((p.info.misalignedFirst || p.info.misalignedSecond) && lane in p.seen)
  }

  /** Every enabled lane is touched. */
  predicate CoversAll(info: Access, a: IssAccess) {
    forall l :: l in info.be ==> a.addr % 4 <= l < a.addr % 4 + |a.bytes|
  }

  predicate ByteMatches(info: Access, a: IssAccess, k: nat)
    requires k < |a.bytes| && a.addr % 4 + k < 4
  {
    (info.error && !info.store) || info.data[a.addr % 4 + k] == a.bytes[k]
  }

  /** The second half of a failed access that reached the top of its word is queued behind it. */
  predicate SecondQueued(q: seq<Pending>)
    requires q != []
  {
    var info := q[0].info;
    info.error && info.misalignedFirst && 3 in info.be ==>
      |q| > 1 && q[1].info.misalignedSecond && q[1].info.addr == (info.addr + 4) % 0x1_0000_0000
  }

  /** The access is the one the DUT made, or the next piece of it. */
  predicate Expected(q: seq<Pending>, a: IssAccess)
    requires a.Valid()
  {
    && q != []
    && a.addr - a.addr % 4 == q[0].info.addr && a.store == q[0].info.store
    && (forall k :: 0 <= k < |a.bytes| ==> LaneExpected(q[0], a, k))
    && (q[0].info.misalignedFirst || q[0].info.misalignedSecond || CoversAll(q[0].info, a))
    && (forall k :: 0 <= k < |a.bytes| ==> ByteMatches(q[0].info, a, k))
    && SecondQueued(q)
  }

  lemma LanesExpected(p: Pending, a: IssAccess)
    requires a.Valid()
    ensures LanesFit(p, a) <==>
            && (forall k :: 0 <= k < |a.bytes| ==> LaneExpected(p, a, k))
            && (p.info.misalignedFirst || p.info.misalignedSecond || CoversAll(p.info, a))
  {
    var base := a.addr % 4;
    forall k | 0 <= k < |a.bytes|
      ensures base + k in a.Touched()
      ensures LanesFit(p, a) ==> LaneExpected(p, a, k)
    {
    }
    if forall k :: 0 <= k < |a.bytes| ==> LaneExpected(p, a, k) {
      forall l | l in a.Touched()
        ensures l in p.info.be && (Misaligned(p.info) ==> l !in p.seen)
      {
        assert LaneExpected(p, a, l - base);
      }
    }
  }

  lemma DataExpected(info: Access, a: IssAccess)
    requires a.Valid()
    ensures DataAgrees(info, a) <==> forall k :: 0 <= k < |a.bytes| ==> ByteMatches(info, a, k)
  {
    assert a.Lane() == a.addr % 4;
    if DataAgrees(info, a) {
    } else {
      var k :| 0 <= k < |a.bytes| && info.data[a.Lane() + k] != a.bytes[k];
      assert !ByteMatches(info, a, k);
    }
  }

  /** The checker reports an error exactly when the access is not the expected one. */
  lemma FailsExactly(q: seq<Pending>, a: IssAccess)
    requires a.Valid()
    ensures Judge(q, a).1.Failed? <==> !Expected(q, a)
  {
    hide LanesFit, DataAgrees, CoversAll, LaneExpected, ByteMatches;
    if q != [] {
      LanesExpected(q[0], a);
      DataExpected(q[0].info, a);
    }
  }

  /** An accepted access is answered with a bus error exactly when the DUT saw one on the head of the queue. */
  lemma BusErrorExactly(q: seq<Pending>, a: IssAccess)
    requires a.Valid() && Expected(q, a)
    ensures Judge(q, a).1.BusError? <==> q[0].info.error
    ensures Judge(q, a).1.Passed? <==> !q[0].info.error
  {
    hide LanesFit, DataAgrees, Expected;
    assert !Judge(q, a).1.Failed? by {
      FailsExactly(q, a);
    }
    assert q != [];
  }

  /** An error is answered at once: the access leaves the queue, with its second half if it reached the top lane. */
  lemma ErrorLeaves(q: seq<Pending>, a: IssAccess)
    requires a.Valid() && Expected(q, a) && q[0].info.error
    ensures var whole := q[0].info.misalignedFirst && 3 in q[0].info.be;
      |q| >= (if whole then 2 else 1) && Judge(q, a) == (if whole then q[2..] else q[1..], BusError)
  {
    FailsExactly(q, a);
    hide LanesFit, DataAgrees, Expected;
  }

  /** The head with the lanes of an access marked as met. */
  function Marked(q: seq<Pending>, a: IssAccess): seq<Pending>
    requires q != [] && a.Valid()
  {
    q[0 := q[0].(seen := q[0].seen + set l | l in ALL_LANES && a.addr % 4 <= l < a.addr % 4 + |a.bytes|)]
  }

  /**
   * What else happens to the queue: an access to the wrong word, direction or lanes changes nothing,
   * any other access to a misaligned entry is recorded even if it is refused, and an entry leaves the
   * queue as soon as all its lanes are met.
   */
  lemma QueueAfter(q: seq<Pending>, a: IssAccess)
    requires a.Valid() && q != []
    ensures var n, verdict := Judge(q, a).0, Judge(q, a).1;
      var pieces := q[0].info.misalignedFirst || q[0].info.misalignedSecond;
      var lanes := && (forall k :: 0 <= k < |a.bytes| ==> LaneExpected(q[0], a, k))
                   && (pieces || CoversAll(q[0].info, a));
      var placed := a.addr - a.addr % 4 == q[0].info.addr && a.store == q[0].info.store && lanes;
      && (verdict.Failed? ==> n == if placed && pieces then Marked(q, a) else q)
      && (verdict.Passed? ==> n == if !pieces || Marked(q, a)[0].seen == q[0].info.be then q[1..] else Marked(q, a))
  {
    hide LanesFit, DataAgrees, CoversAll, LaneExpected;
    LanesExpected(q[0], a);
    assert a.Touched() == set l | l in ALL_LANES && a.addr % 4 <= l < a.addr % 4 + |a.bytes|;
  }

  // ---------------------------------------------------------------------------------------------
  // No false alarm on erroneous accesses

  /** An erroneous aligned access is answered with a bus error, whatever data a load brings. */
  lemma AlignedErrorAnswered(q: seq<Pending>, a: IssAccess)
    requires q != [] && q[0].info.error && !q[0].info.misalignedFirst && !q[0].info.misalignedSecond
    requires a.Valid() && a.addr - a.addr % 4 == q[0].info.addr && a.store == q[0].info.store
    requires forall l :: l in q[0].info.be <==> a.addr % 4 <= l < a.addr % 4 + |a.bytes|
    requires a.store ==> forall k :: 0 <= k < |a.bytes| ==> q[0].info.data[a.addr % 4 + k] == a.bytes[k]
    ensures Judge(q, a) == (q[1..], BusError)
  {
    hide Judge;
    assert Expected(q, a);
    ErrorLeaves(q, a);
  }

  /** The first byte of an erroneous misaligned access is, and takes the access and its second half with it. */
  lemma MisalignedErrorAnswered(q: seq<Pending>, a: IssAccess)
    requires q != [] && q[0].info.error && (q[0].info.misalignedFirst || q[0].info.misalignedSecond) && q[0].seen == {}
    requires |a.bytes| == 1 && a.addr % 4 in q[0].info.be
    requires a.addr - a.addr % 4 == q[0].info.addr && a.store == q[0].info.store
    requires a.store ==> q[0].info.data[a.addr % 4] == a.bytes[0]
    requires q[0].info.misalignedFirst && 3 in q[0].info.be ==>
               |q| > 1 && q[1].info.misalignedSecond && q[1].info.addr == (q[0].info.addr + 4) % 0x1_0000_0000
    ensures a.Valid()
    ensures Judge(q, a) == (if q[0].info.misalignedFirst && 3 in q[0].info.be then q[2..] else q[1..], BusError)
  {
    hide Judge;
    assert Expected(q, a);
    ErrorLeaves(q, a);
  }

  // ---------------------------------------------------------------------------------------------
  // Whole runs

  function Flags(n: nat, flag: bool): seq<bool> {
    seq(n, k => flag)
  }

  /** For every byte of an event, whether it was answered with a bus error. */
  function AnswerTo(q: seq<Pending>, e: Event): seq<bool>
    requires Accepted(q, e)
  {
    if e.Iss? then Flags(|e.access.bytes|, Judge(q, e.access).1.BusError?) else []
  }

  /** The same for every byte the reference model touches in a run, in order. */
  function Answers(l: Ledger, events: seq<Event>): seq<bool>
    requires AllAccepted(l, events)
    decreases |events|
  {
    if events == [] then [] else AnswerTo(l.queue, events[0]) + Answers(Settle(l, events[0]), events[1..])
  }

  /** For every byte charged to an access off the queue, whether the DUT saw an error on that access. */
  function ErrorsCharged(groups: seq<Group>): seq<bool> {
    if groups == [] then [] else Flags(|groups[0].touches|, groups[0].info.error) + ErrorsCharged(groups[1..])
  }

  /** And for the bytes charged to the head, which is not erroneous. */
  function ErrorsOpen(l: Ledger): seq<bool> {
    Flags(|l.open|, false)
  }

  lemma {:induction false} ErrorsAppend(a: seq<Group>, b: seq<Group>)
    ensures ErrorsCharged(a + b) == ErrorsCharged(a) + ErrorsCharged(b)
  {
    if a == [] {
      assert a + b == b;
    } else {
      assert (a + b)[1..] == a[1..] + b;
      ErrorsAppend(a[1..], b);
    }
  }

  lemma FlagsAdd(m: nat, n: nat, flag: bool)
    ensures Flags(m + n, flag) == Flags(m, flag) + Flags(n, flag)
  {
  }

  lemma ErrorsOfOne(g: Group)
    ensures ErrorsCharged([g]) == Flags(|g.touches|, g.info.error)
  {
    assert [g][1..] == [];
    assert ErrorsCharged([]) == [];
  }

  /** A head with touched lanes is not erroneous. */
  lemma OpenIsClean(l: Ledger)
    requires LedgerOk(l) && l.open != []
    ensures l.queue != [] && !l.queue[0].info.error
  {
    hide Accounts;
    if l.queue != [] && l.queue[0].seen == {} {
      NothingMet(l.open, l.queue[0].info);
      assert false;
    }
  }

  lemma NothingMet(touches: seq<Touch>, info: Access)
    requires Accounts(touches, info, {})
    ensures touches == []
  {
    if touches != [] {
      MeetsNowhere(touches[0], info);
    }
  }

  lemma MeetsNowhere(t: Touch, info: Access)
    ensures !Meets(t, info, {})
  {
  }

  lemma IssAnswers(l: Ledger, a: IssAccess)
    requires LedgerOk(l) && Accepted(l.queue, Iss(a))
    ensures var n := Settle(l, Iss(a));
      ErrorsCharged(n.closed) + ErrorsOpen(n) ==
      (ErrorsCharged(l.closed) + ErrorsOpen(l)) + AnswerTo(l.queue, Iss(a))
  {
    hide Judge, ErrorsCharged, Flags, LedgerOk;
    var n, q := Settle(l, Iss(a)), l.queue;
    var b := |a.bytes|;
    QueueShape(l);
    Outcome(q, a);
    FailsExactly(q, a);
    BusErrorExactly(q, a);
    var info := q[0].info;
    if |n.queue| == |q| {
      assert !info.error;
      FlagsAdd(|l.open|, b, false);
    } else {
      var head := Group(info, l.open + Touches(a), q[0].seen + a.Touched());
      var second := if |n.queue| + 1 == |q| then [] else [Group(q[1].info, [], {})];
      if l.open != [] {
        OpenIsClean(l);
      }
      ErrorsOfOne(head);
      ErrorsAppend(l.closed, [head]);
      ErrorsAppend(l.closed + [head], second);
      Leftover(second);
      FlagsAdd(|l.open|, b, info.error);
      NoFlags(info.error);
      NoFlags(false);
    }
  }

  lemma NoFlags(flag: bool)
    ensures Flags(0, flag) == []
  {
  }

  lemma Leftover(second: seq<Group>)
    requires |second| <= 1 && (second != [] ==> second[0].touches == [])
    ensures ErrorsCharged(second) == []
  {
    if second != [] {
      assert second == [second[0]];
      ErrorsOfOne(second[0]);
    }
  }

  lemma QueueShape(l: Ledger)
    requires LedgerOk(l)
    ensures QueueOk(l.queue)
  {
  }

  lemma FixupAnswers(l: Ledger, pmpOk: bool)
    requires LedgerOk(l) && Accepted(l.queue, Fixup(pmpOk))
    ensures var n := Settle(l, Fixup(pmpOk));
      ErrorsCharged(n.closed) + ErrorsOpen(n) == ErrorsCharged(l.closed) + ErrorsOpen(l)
  {
    hide ErrorsCharged, Flags, LedgerOk;
    if DropsHead(l.queue) {
      var g := Group(l.queue[0].info, l.open, l.queue[0].seen);
      if l.open != [] {
        OpenIsClean(l);
      }
      ErrorsOfOne(g);
      ErrorsAppend(l.closed, [g]);
      NoFlags(false);
      NoFlags(g.info.error);
    }
  }

  lemma {:induction false} AnswersAlong(l: Ledger, events: seq<Event>)
    requires LedgerOk(l) && AllAccepted(l, events)
    ensures var n := Replay(l, events);
      ErrorsCharged(n.closed) + ErrorsOpen(n) == (ErrorsCharged(l.closed) + ErrorsOpen(l)) + Answers(l, events)
    decreases |events|
  {
    hide LedgerOk, ErrorsCharged, ErrorsOpen, Judge;
    if events != [] {
      var e, m := events[0], Settle(l, events[0]);
      SettleKeeps(l, e);
      AnswersAlong(m, events[1..]);
      match e {
        case Notified(_) => assert ErrorsOpen(m) == ErrorsOpen(l) by { SameOpen(l, m); }
        case Iss(a) => IssAnswers(l, a);
        case Fixup(pmpOk) => FixupAnswers(l, pmpOk);
      }
      Reassociate(ErrorsCharged(l.closed) + ErrorsOpen(l), AnswerTo(l.queue, e), Answers(m, events[1..]));
    }
  }

  lemma SameOpen(l: Ledger, m: Ledger)
    requires l.open == m.open
    ensures ErrorsOpen(l) == ErrorsOpen(m)
  {
  }

  /**
   * Over any run without a reported mismatch the bytes answered with a bus error are exactly those
   * charged to accesses on which the DUT saw an error: both lists run in the order in which the
   * reference model touched the bytes.
   */
  lemma AnsweredAsObserved(events: seq<Event>)
    requires AllAccepted(EMPTY, events)
    ensures var n := Replay(EMPTY, events);
      && Answers(EMPTY, events) == ErrorsCharged(n.closed) + ErrorsOpen(n)
      && TouchesOf(events) == Charged(n.closed) + n.open
      && (n.open != [] ==> n.queue != [] && !n.queue[0].info.error)
  {
    hide Replay, Answers, AllAccepted, LedgerOk, Charged, ErrorsCharged, TouchesOf;
    EmptyOk();
    AnswersAlong(EMPTY, events);
    BytesConserved(events);
    var n := Replay(EMPTY, events);
    if n.open != [] {
      ReplayKeeps(EMPTY, events);
      OpenIsClean(n);
    }
  }

  lemma EmptyOk()
    ensures LedgerOk(EMPTY) && ErrorsCharged(EMPTY.closed) + ErrorsOpen(EMPTY) == []
  {
  }

  lemma ReplayKeeps(l: Ledger, events: seq<Event>)
    requires LedgerOk(l) && AllAccepted(l, events)
    ensures LedgerOk(Replay(l, events))
  {
    hide LedgerOk, AllAccepted, Replay;
    ReplayBalances(l, events);
  }
}
