/** What each kind of delivery leaves behind, and which deliveries ask for a member's roles to be
    synced again. */
module SyncRequests {
  import opened Wrappers
  import opened MemberFacts
  import opened Ingest
  import opened Webhooks
  import opened EventLinks
  import opened Charges
  import opened ViewMaintenance

  /** The deliveries whose enqueue is reached and succeeds: nothing goes wrong, or the recompute
      alone does. */
  lemma DeliveryQueues(g: Ledger, id: string, e: Event, fault: Fault, lk: Linker, ch: Choice)
    requires ChoiceOk(g, e, lk, ch)
    ensures var h := Deliver(g, id, e, fault, lk, ch);
      var m := EventMember(g.tables, e, lk, ch.pick);
      h.syncs == if id !in g.log && m.Some? && (fault == NoFault || fault == RecomputeFault(true))
                 then g.syncs + [m.value] else g.syncs
  {
    ReturnsEventMember(g.tables, e, lk, ch.pick);
    hide ApplyEvent, PartialEvent, EventMember, Recompute, OrdersOk;
  }

  /** The tables and the log: a logged event changes nothing; an undecryptable key only logs; an
      apply that stops keeps what it wrote, and its event stays logged unless it was re-opened;
      everything else makes all writes and logs. */
  lemma DeliveryWrites(g: Ledger, id: string, e: Event, fault: Fault, lk: Linker, ch: Choice)
    requires ChoiceOk(g, e, lk, ch)
    ensures var h := Deliver(g, id, e, fault, lk, ch);
      && (id in g.log ==> h == g)
      && h.log == (if fault.Aborted? then g.log else g.log + {id})
      && (id !in g.log ==>
            h.tables == match fault
                        case KeyFault => g.tables
                        case Aborted(n) => PartialEvent(g.tables, e, lk, ch.pick, n)
                        case Stranded(n) => PartialEvent(g.tables, e, lk, ch.pick, n)
                        case _ => ApplyEvent(g.tables, e, lk, ch.pick).0)
  {
    assert id in g.log ==> g.log + {id} == g.log;
    hide ApplyEvent, PartialEvent, Recompute, OrdersOk;
  }

  /** The facts: the named member becomes exact where the recompute is reached and succeeds, and
      nothing else changes. */
  lemma DeliveryRecomputes(g: Ledger, id: string, e: Event, fault: Fault, lk: Linker, ch: Choice)
    requires ChoiceOk(g, e, lk, ch)
    ensures var h := Deliver(g, id, e, fault, lk, ch);
      var m := EventMember(g.tables, e, lk, ch.pick);
      if id !in g.log && m.Some? && (fault == NoFault || fault == EnqueueFault) then
        && MemberExact(h.tables, h.facts, m.value)
        && forall x :: x != m.value ==> (x in h.facts <==> x in g.facts) && (x in g.facts ==> h.facts[x] == g.facts[x])
      else h.facts == g.facts
  {
    ReturnsEventMember(g.tables, e, lk, ch.pick);
    hide ApplyEvent, PartialEvent, EventMember, Recompute, OrdersOk, MemberExact;
    var (t, d) := ApplyEvent(g.tables, e, lk, ch.pick);
    if d.Some? {
      RecomputeIsExact(t, g.facts, d.value, ch);
    }
  }

  /** The ledger that the `n`-th delivery finds. */
  ghost function Before(g: Ledger, run: seq<Attempt>, body: string -> Event, lk: Linker, n: nat): Ledger
    requires Choices(g, run, body, lk) && n <= |run|
    decreases |run|
  {
    if n == 0 then g
    else
      var a := run[0];
      Before(Deliver(g, a.id, body(a.id), a.fault, lk, a.choice), run[1..], body, lk, n - 1)
  }

  /** Delivery `i` finds its event new or re-opened, names `d`, and reaches its enqueue. */
  ghost predicate Requests(g: Ledger, run: seq<Attempt>, body: string -> Event, lk: Linker, i: nat, d: string)
    requires Choices(g, run, body, lk) && i < |run|
  {
    && Fresh(g.log, run, i)
    && (run[i].fault == NoFault || run[i].fault == RecomputeFault(true))
    && EventMember(Before(g, run, body, lk, i).tables, body(run[i].id), lk, run[i].choice.pick) == Some(d)
  }

  lemma RequestsShift(g: Ledger, run: seq<Attempt>, body: string -> Event, lk: Linker, i: nat, d: string)
    requires Choices(g, run, body, lk) && 0 < i < |run|
    ensures var a := run[0];
      Requests(g, run, body, lk, i, d)
      <==> Requests(Deliver(g, a.id, body(a.id), a.fault, lk, a.choice), run[1..], body, lk, i - 1, d)
  {
    var a := run[0];
    hide Deliver, EventMember, ChoiceOk;
    FreshShift(g.log, run, i);
    DeliveredLog(g, a, body, lk);
  }

  lemma DeliveredLog(g: Ledger, a: Attempt, body: string -> Event, lk: Linker)
    requires ChoiceOk(g, body(a.id), lk, a.choice)
    ensures Deliver(g, a.id, body(a.id), a.fault, lk, a.choice).log == LogAfter(g.log, a)
  {
    assert a.id in g.log ==> g.log + {a.id} == g.log;
    hide ApplyEvent, PartialEvent, Recompute, ChoiceOk;
  }

  /** Over every sequence of deliveries, with repeats, reordering and every fault: a member is in the
      queue at the end if and only if it was at the start or some delivery requested it. */
  lemma {:induction false} QueuedExactly(g: Ledger, run: seq<Attempt>, body: string -> Event, lk: Linker, d: string)
    requires Choices(g, run, body, lk)
    ensures d in Play(g, run, body, lk).syncs <==>
      d in g.syncs || exists i | 0 <= i < |run| :: Requests(g, run, body, lk, i, d)
    decreases |run|
  {
    if run != [] {
      var a := run[0];
      var h := Deliver(g, a.id, body(a.id), a.fault, lk, a.choice);
      DeliveryQueues(g, a.id, body(a.id), a.fault, lk, a.choice);
      assert Requests(g, run, body, lk, 0, d) <==> d in h.syncs[|g.syncs|..] by {
        assert Before(g, run, body, lk, 0) == g;
      }
      assert d in h.syncs <==> d in g.syncs || d in h.syncs[|g.syncs|..];
      hide Deliver, EventMember, ChoiceOk, Requests;
      QueuedExactly(h, run[1..], body, lk, d);
      forall i | 0 < i < |run|
        ensures Requests(g, run, body, lk, i, d) <==> Requests(h, run[1..], body, lk, i - 1, d)
      {
        RequestsShift(g, run, body, lk, i, d);
      }
      if i :| 0 < i < |run| && Requests(g, run, body, lk, i, d) {
        assert Requests(h, run[1..], body, lk, i - 1, d);
      }
      if i :| 0 <= i < |run[1..]| && Requests(h, run[1..], body, lk, i, d) {
        assert Requests(g, run, body, lk, i + 1, d);
      }
    }
  }
}
