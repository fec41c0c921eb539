/** Lifetime spend: the increments that charge deliveries make, and the absolute totals
    that the paged charge listing yields. */
module Charges {
  import opened Wrappers
  import opened MemberFacts
  import opened Ingest
  import opened Webhooks

  // ---- sums over sets of event ids ----

  ghost function SetSum(ids: set<string>, f: string -> int): int {
    if ids == {} then 0
    else
      var x :| x in ids;
      f(x) + SetSum(ids - {x}, f)
  }

  lemma {:induction false} SetSumRemove(ids: set<string>, f: string -> int, y: string)
    requires y in ids
    ensures SetSum(ids, f) == f(y) + SetSum(ids - {y}, f)
  {
    var x :| x in ids && SetSum(ids, f) == f(x) + SetSum(ids - {x}, f);
    if x != y {
      SetSumRemove(ids - {x}, f, y);
      SetSumRemove(ids - {y}, f, x);
      assert ids - {x} - {y} == ids - {y} - {x};
    }
  }

  lemma SetSumAdd(ids: set<string>, f: string -> int, y: string)
    requires y !in ids
    ensures SetSum(ids + {y}, f) == f(y) + SetSum(ids, f)
  {
    SetSumRemove(ids + {y}, f, y);
    assert ids + {y} - {y} == ids;
  }

  // ---- what a customer has spent ----

  function Spend(t: Tables, cid: string): int {
    if cid in t.customers then t.customers[cid].lifetimeSpend else 0
  }

  function Payments(t: Tables, cid: string): int {
    if cid in t.customers then t.customers[cid].payments else 0
  }

  /** What applying an event adds to the customer's spend. */
  function Increment(e: Event, cid: string): int {
    if IsChargeOf(e, cid) then e.amount else 0
  }

  /** The event does not remove the customer's row. */
  predicate KeepsCustomer(e: Event, cid: string) {
    EventCustomer(e).Some? ==> !(EventCustomer(e).value.deleted && EventCustomer(e).value.id == cid)
  }

  lemma UpsertKeepsSpend(t: Tables, c: CustomerFields, lk: Linker, pick: string, cid: string)
    requires !(c.deleted && c.id == cid)
    ensures Spend(UpsertCustomer(t, c, lk, pick).0, cid) == Spend(t, cid)
    ensures Payments(UpsertCustomer(t, c, lk, pick).0, cid) == Payments(t, cid)
  {
  }

  /** What applying an event adds to the customer's payment count. */
  function PaymentCount(e: Event, cid: string): int {
    if IsChargeOf(e, cid) then 1 else 0
  }

  /** Only a successful charge of the customer changes its spend or its payment count. */
  lemma EventSpend(t: Tables, e: Event, lk: Linker, pick: string, cid: string)
    requires KeepsCustomer(e, cid)
    ensures Spend(ApplyEvent(t, e, lk, pick).0, cid) == Spend(t, cid) + Increment(e, cid)
    ensures Payments(ApplyEvent(t, e, lk, pick).0, cid) == Payments(t, cid) + PaymentCount(e, cid)
  {
    hide UpsertCustomer, SubDiscord, CustomerDiscord;
    if EventCustomer(e).Some? {
      UpsertKeepsSpend(t, EventCustomer(e).value, lk, pick, cid);
    }
  }

  /** An aborted charge has incremented exactly when it made its one write. */
  lemma PartialSpend(t: Tables, e: Event, lk: Linker, pick: string, n: nat, cid: string)
    requires KeepsCustomer(e, cid)
    ensures var u := PartialEvent(t, e, lk, pick, n);
      && Spend(u, cid) == Spend(t, cid) + (if n > 0 then Increment(e, cid) else 0)
      && Payments(u, cid) == Payments(t, cid) + (if n > 0 then PaymentCount(e, cid) else 0)
  {
    EventSpend(t, e, lk, pick, cid);
    hide UpsertCustomer, SubDiscord, CustomerDiscord;
    if EventCustomer(e).Some? {
      UpsertKeepsSpend(t, EventCustomer(e).value, lk, pick, cid);
    }
  }

  // ---- deliveries ----

  /** One delivery of the event named `id`; every event id has one body. */
  datatype Attempt = Attempt(id: string, fault: Fault, choice: Choice)

  ghost predicate Choices(g: Ledger, run: seq<Attempt>, body: string -> Event, lk: Linker)
    decreases |run|
  {
    run == [] ||
    var a := run[0];
    ChoiceOk(g, body(a.id), lk, a.choice)
    && Choices(Deliver(g, a.id, body(a.id), a.fault, lk, a.choice), run[1..], body, lk)
  }

  ghost function Play(g: Ledger, run: seq<Attempt>, body: string -> Event, lk: Linker): Ledger
    requires Choices(g, run, body, lk)
    decreases |run|
  {
    if run == [] then g
    else
      var a := run[0];
      Play(Deliver(g, a.id, body(a.id), a.fault, lk, a.choice), run[1..], body, lk)
  }

  /** The log as the next delivery finds it: only an aborted apply is re-opened. */
  function LogAfter(log: set<string>, a: Attempt): set<string> {
    if a.fault.Aborted? then log else log + {a.id}
  }

  /** The distinct events whose one logged delivery was applied. A key that fails to decrypt
      and a stranded apply log their event unapplied. */
  function Applied(log: set<string>, run: seq<Attempt>): set<string>
    decreases |run|
  {
    if run == [] then {}
    else
      var a := run[0];
      Applied(LogAfter(log, a), run[1..]) + if a.id !in log && a.fault.Applies() then {a.id} else {}
  }

  /** The apply stopped after a write. */
  predicate StopsWritten(fault: Fault) {
    !fault.Applies() && fault.Writes() > 0
  }

  /** The weights of what applies that stopped had already written. */
  function Replayed(log: set<string>, run: seq<Attempt>, f: string -> int): int
    decreases |run|
  {
    if run == [] then 0
    else
      var a := run[0];
      (if a.id !in log && StopsWritten(a.fault) then f(a.id) else 0) + Replayed(LogAfter(log, a), run[1..], f)
  }

  /** Every earlier delivery of the same event was aborted and re-opened. */
  predicate Reopened(run: seq<Attempt>, i: nat)
    requires i < |run|
  {
    forall j | 0 <= j < i :: run[j].id == run[i].id ==> run[j].fault.Aborted?
  }

  /** Delivery `i` finds its event neither logged at the start nor since. */
  predicate Fresh(log: set<string>, run: seq<Attempt>, i: nat)
    requires i < |run|
  {
    run[i].id !in log && Reopened(run, i)
  }

  lemma FreshShift(log: set<string>, run: seq<Attempt>, i: nat)
    requires 0 < i < |run|
    ensures Fresh(log, run, i) <==>
      Fresh(LogAfter(log, run[0]), run[1..], i - 1)
  {
    if Reopened(run[1..], i - 1) {
      forall j | 0 < j < i
        ensures run[j].id == run[i].id ==> run[j].fault.Aborted?
      {
        assert run[1..][j - 1] == run[j];
      }
    }
  }

  predicate AppliesAt(log: set<string>, run: seq<Attempt>, i: nat)
    requires i < |run|
  {
    Fresh(log, run, i) && run[i].fault.Applies()
  }

  /** An event is applied if and only if some delivery finds it fresh and applies it. */
  lemma {:induction false} AppliedExactly(log: set<string>, run: seq<Attempt>, id: string)
    ensures id in Applied(log, run) <==> exists i | 0 <= i < |run| :: run[i].id == id && AppliesAt(log, run, i)
    decreases |run|
  {
    if run != [] {
      var a := run[0];
      var next := LogAfter(log, a);
      assert a.id in log ==> log + {a.id} == log;
      AppliedExactly(next, run[1..], id);
      forall i | 0 <= i < |run[1..]|
        ensures AppliesAt(next, run[1..], i) <==> AppliesAt(log, run, i + 1)
      {
        FreshShift(log, run, i + 1);
      }
      if i :| 0 < i < |run| && run[i].id == id && AppliesAt(log, run, i) {
        assert run[1..][i - 1] == run[i] && AppliesAt(next, run[1..], i - 1);
      }
      assert AppliesAt(log, run, 0) <==> a.id !in log && a.fault.Applies();
    }
  }

  lemma {:induction false} AppliedAreNew(log: set<string>, run: seq<Attempt>)
    ensures Applied(log, run) !! log
    decreases |run|
  {
    if run != [] {
      var a := run[0];
      AppliedAreNew(LogAfter(log, a), run[1..]);
    }
  }

  // ---- spend and payments over a run ----

  function IncrementOf(body: string -> Event, cid: string): string -> int {
    id => Increment(body(id), cid)
  }

  function PaymentOf(body: string -> Event, cid: string): string -> int {
    id => PaymentCount(body(id), cid)
  }

  /** Over every delivery sequence, with repeats, reordering and faults: the customer's
      spend and payment count grow by the sum over the distinct applied charge events,
      plus what applies that stopped had already written. */
  lemma {:induction false} SpendDecomposition(g: Ledger, run: seq<Attempt>, body: string -> Event, lk: Linker,
                                              cid: string)
    requires Choices(g, run, body, lk)
    requires forall a <- run :: KeepsCustomer(body(a.id), cid)
    ensures Spend(Play(g, run, body, lk).tables, cid)
         == Spend(g.tables, cid) + SetSum(Applied(g.log, run), IncrementOf(body, cid))
          + Replayed(g.log, run, IncrementOf(body, cid))
    ensures Payments(Play(g, run, body, lk).tables, cid)
         == Payments(g.tables, cid) + SetSum(Applied(g.log, run), PaymentOf(body, cid))
          + Replayed(g.log, run, PaymentOf(body, cid))
    decreases |run|
  {
    hide ChoiceOk, Deliver, Applied, Replayed, IncrementOf, PaymentOf, KeepsCustomer;
    if run == [] {
      NothingApplied(g.log, IncrementOf(body, cid));
      NothingApplied(g.log, PaymentOf(body, cid));
    } else {
      var a := run[0];
      assert a in run;
      DeliverySpend(g, a, body, lk, cid);
      AppliedStep(g.log, run, IncrementOf(body, cid));
      AppliedStep(g.log, run, PaymentOf(body, cid));
      SpendDecomposition(Deliver(g, a.id, body(a.id), a.fault, lk, a.choice), run[1..], body, lk, cid);
    }
  }

  /** The delivery makes the write that counts. */
  predicate Counts(log: set<string>, a: Attempt) {
    a.id !in log && a.fault.Writes() > 0
  }

  lemma DeliverySpend(g: Ledger, a: Attempt, body: string -> Event, lk: Linker, cid: string)
    requires ChoiceOk(g, body(a.id), lk, a.choice) && KeepsCustomer(body(a.id), cid)
    ensures var h := Deliver(g, a.id, body(a.id), a.fault, lk, a.choice);
      && h.log == LogAfter(g.log, a)
      && Spend(h.tables, cid) == Spend(g.tables, cid) + (if Counts(g.log, a) then IncrementOf(body, cid)(a.id) else 0)
      && Payments(h.tables, cid) == Payments(g.tables, cid) + if Counts(g.log, a) then PaymentOf(body, cid)(a.id) else 0
  {
    PartialSpend(g.tables, body(a.id), lk, a.choice.pick, a.fault.Writes(), cid);
    PartialBounds(g.tables, body(a.id), lk, a.choice.pick, a.fault.Writes());
    assert a.id in g.log ==> g.log + {a.id} == g.log;
    hide ApplyEvent, PartialEvent, Recompute, Increment, PaymentCount, ChoiceOk;
  }

  lemma NothingApplied(log: set<string>, f: string -> int)
    ensures SetSum(Applied(log, []), f) == 0 && Replayed(log, [], f) == 0
  {
  }

  lemma AppliedStep(log: set<string>, run: seq<Attempt>, f: string -> int)
    requires run != []
    ensures var next := LogAfter(log, run[0]);
      SetSum(Applied(log, run), f) + Replayed(log, run, f)
      == SetSum(Applied(next, run[1..]), f) + Replayed(next, run[1..], f)
       + if Counts(log, run[0]) then f(run[0].id) else 0
  {
    var a, next := run[0], LogAfter(log, run[0]);
    AppliedAreNew(next, run[1..]);
    if a.id !in log && a.fault.Applies() {
      SetSumAdd(Applied(next, run[1..]), f, a.id);
    } else {
      assert Applied(log, run) == Applied(next, run[1..]);
    }
  }

  /** Delivery `i` stops after a write that counts. */
  predicate CountsUnapplied(log: set<string>, run: seq<Attempt>, f: string -> int, i: nat)
    requires i < |run|
  {
    Fresh(log, run, i) && StopsWritten(run[i].fault) && f(run[i].id) != 0
  }

  lemma CountsUnappliedShift(log: set<string>, run: seq<Attempt>, f: string -> int)
    requires run != []
    ensures var next := LogAfter(log, run[0]);
      (forall i | 0 <= i < |run| :: !CountsUnapplied(log, run, f, i)) <==>
        (!CountsUnapplied(log, run, f, 0) && forall i | 0 <= i < |run[1..]| :: !CountsUnapplied(next, run[1..], f, i))
  {
    var next := LogAfter(log, run[0]);
    forall i | 0 <= i < |run[1..]|
      ensures CountsUnapplied(next, run[1..], f, i) <==> CountsUnapplied(log, run, f, i + 1)
    {
      FreshShift(log, run, i + 1);
    }
    if i :| 0 < i < |run| && CountsUnapplied(log, run, f, i) {
      assert CountsUnapplied(next, run[1..], f, i - 1);
    }
  }

  lemma {:induction false} ReplayedExactly(log: set<string>, run: seq<Attempt>, f: string -> int)
    ensures (forall i | 0 <= i < |run| :: !CountsUnapplied(log, run, f, i)) ==> Replayed(log, run, f) == 0
    ensures (forall a <- run :: f(a.id) >= 0) ==>
      && Replayed(log, run, f) >= 0
      && (Replayed(log, run, f) == 0 <==> forall i | 0 <= i < |run| :: !CountsUnapplied(log, run, f, i))
    decreases |run|
  {
    if run != [] {
      var a := run[0];
      var next := LogAfter(log, a);
      assert a.id in log ==> log + {a.id} == log;
      ReplayedExactly(next, run[1..], f);
      assert forall x <- run[1..] :: x in run;
      assert Fresh(log, run, 0) <==> a.id !in log;
      CountsUnappliedShift(log, run, f);
      hide CountsUnapplied;
    }
  }

  /** Each applied charge counts once, and nothing else does, when no delivery of a charge of
      the customer stops after its increment while its event is fresh; and for non-negative
      amounts only then. */
  lemma SpendCountedOnce(g: Ledger, run: seq<Attempt>, body: string -> Event, lk: Linker, cid: string)
    requires Choices(g, run, body, lk)
    requires forall a <- run :: KeepsCustomer(body(a.id), cid)
    ensures var f := IncrementOf(body, cid);
      var once := Spend(Play(g, run, body, lk).tables, cid) == Spend(g.tables, cid) + SetSum(Applied(g.log, run), f);
      && ((forall i | 0 <= i < |run| :: !CountsUnapplied(g.log, run, f, i)) ==> once)
      && ((forall a <- run :: f(a.id) >= 0) ==>
            (once <==> forall i | 0 <= i < |run| :: !CountsUnapplied(g.log, run, f, i)))
  {
    SpendDecomposition(g, run, body, lk, cid);
    ReplayedExactly(g.log, run, IncrementOf(body, cid));
    hide CountsUnapplied, Applied, Replayed, IncrementOf, KeepsCustomer;
  }

  /** When applies fail only before writing and are re-opened, the applied events are simply
      the distinct ones that got through and were not logged before. */
  lemma {:induction false} CleanRuns(log: set<string>, run: seq<Attempt>, f: string -> int)
    requires forall a <- run :: a.fault.Applies() || a.fault == Aborted(0)
    ensures Replayed(log, run, f) == 0
    ensures Applied(log, run) == set a <- run | a.fault.Applies() && a.id !in log :: a.id
    decreases |run|
  {
    if run != [] {
      var a := run[0];
      assert forall x :: x in run <==> x == a || x in run[1..];
      CleanRuns(LogAfter(log, a), run[1..], f);
    }
  }

  /** An apply that aborts after its increment counts the charge again on the retry. */
  lemma RetryAfterWriteCountsTwice(g: Ledger, id: string, n: nat, first: Choice, second: Choice,
                                   body: string -> Event, lk: Linker, cid: string)
    requires id !in g.log && IsChargeOf(body(id), cid) && n > 0
    requires Choices(g, [Attempt(id, Aborted(n), first), Attempt(id, NoFault, second)], body, lk)
    ensures Spend(Play(g, [Attempt(id, Aborted(n), first), Attempt(id, NoFault, second)], body, lk).tables, cid)
         == Spend(g.tables, cid) + 2 * body(id).amount
  {
    var run := [Attempt(id, Aborted(n), first), Attempt(id, NoFault, second)];
    assert run[1..] == [run[1]] && run[1..][1..] == [];
    var h := Deliver(g, id, body(id), Aborted(n), lk, first);
    PartialSpend(g.tables, body(id), lk, first.pick, n, cid);
    EventSpend(h.tables, body(id), lk, second.pick, cid);
    hide ApplyEvent, PartialEvent, Recompute, ChoiceOk;
    assert Play(h, run[1..], body, lk).tables == Deliver(h, id, body(id), NoFault, lk, second).tables;
  }

  // ---- events that are logged and never applied ----

  /** The run without the deliveries of one event. */
  function Without(run: seq<Attempt>, id: string): seq<Attempt> {
    if run == [] then []
    else (if run[0].id == id then [] else [run[0]]) + Without(run[1..], id)
  }

  /** Two ledgers that differ in one logged event only. */
  predicate AlikeBut(g: Ledger, h: Ledger, id: string) {
    g.tables == h.tables && g.facts == h.facts && g.syncs == h.syncs && g.log == h.log + {id}
  }

  lemma DeliverAlike(g: Ledger, h: Ledger, a: Attempt, body: string -> Event, lk: Linker, id: string)
    requires AlikeBut(g, h, id) && ChoiceOk(g, body(a.id), lk, a.choice)
    ensures a.id == id ==> Deliver(g, a.id, body(a.id), a.fault, lk, a.choice) == g
    ensures ChoiceOk(h, body(a.id), lk, a.choice)
    ensures a.id != id ==>
      AlikeBut(Deliver(g, a.id, body(a.id), a.fault, lk, a.choice),
               Deliver(h, a.id, body(a.id), a.fault, lk, a.choice), id)
  {
    hide ApplyEvent, PartialEvent, Recompute;
    assert h.log + {id} + {a.id} == h.log + {a.id} + {id};
  }

  lemma {:induction false} PlayAlike(g: Ledger, h: Ledger, run: seq<Attempt>, body: string -> Event, lk: Linker,
                                     id: string)
    requires AlikeBut(g, h, id) && Choices(g, run, body, lk)
    ensures Choices(h, Without(run, id), body, lk)
    ensures AlikeBut(Play(g, run, body, lk), Play(h, Without(run, id), body, lk), id)
    decreases |run|
  {
    hide ChoiceOk, Deliver, AlikeBut;
    if run != [] {
      var a := run[0];
      var rest := Without(run[1..], id);
      DeliverAlike(g, h, a, body, lk, id);
      var g1 := Deliver(g, a.id, body(a.id), a.fault, lk, a.choice);
      if a.id == id {
        assert Without(run, id) == rest;
        PlayAlike(g1, h, run[1..], body, lk, id);
      } else {
        assert Without(run, id)[0] == a && Without(run, id)[1..] == rest;
        PlayAlike(g1, Deliver(h, a.id, body(a.id), a.fault, lk, a.choice), run[1..], body, lk, id);
      }
    }
  }

  /** A new event whose delivery stops and stays logged is final, though never applied: whatever
      is delivered afterwards, this event included and with any fault, leaves the tables, the
      facts and the queued syncs that the other deliveries alone would leave, on top of the
      writes that were made. */
  lemma StrandedIsFinal(g: Ledger, id: string, fault: Fault, ch: Choice, later: seq<Attempt>, body: string -> Event,
                        lk: Linker)
    requires id !in g.log && !fault.Applies() && !fault.Aborted?
    requires Choices(g, [Attempt(id, fault, ch)] + later, body, lk)
    ensures var h := g.(tables := PartialEvent(g.tables, body(id), lk, ch.pick, fault.Writes()));
      && Choices(h, Without(later, id), body, lk)
      && AlikeBut(Play(g, [Attempt(id, fault, ch)] + later, body, lk), Play(h, Without(later, id), body, lk), id)
  {
    var run := [Attempt(id, fault, ch)] + later;
    assert run[1..] == later;
    PartialBounds(g.tables, body(id), lk, ch.pick, 0);
    hide ChoiceOk, ApplyEvent, PartialEvent;
    var h := g.(tables := PartialEvent(g.tables, body(id), lk, ch.pick, fault.Writes()));
    PlayAlike(Deliver(g, id, body(id), fault, lk, ch), h, later, body, lk, id);
  }

  /** In particular an event whose key does not decrypt is as good as never delivered. */
  lemma KeyFaultLosesEvent(g: Ledger, id: string, ch: Choice, later: seq<Attempt>, body: string -> Event, lk: Linker)
    requires id !in g.log && Choices(g, [Attempt(id, KeyFault, ch)] + later, body, lk)
    ensures Choices(g, Without(later, id), body, lk)
    ensures AlikeBut(Play(g, [Attempt(id, KeyFault, ch)] + later, body, lk),
                     Play(g, Without(later, id), body, lk), id)
  {
    PartialBounds(g.tables, body(id), lk, ch.pick, 0);
    hide ChoiceOk, ApplyEvent, PartialEvent;
    StrandedIsFinal(g, id, KeyFault, ch, later, body, lk);
  }

  /** The log after a run: what was there, and every event some delivery of which did not
      abort. */
  lemma {:induction false} LogAfterRun(g: Ledger, run: seq<Attempt>, body: string -> Event, lk: Linker, id: string)
    requires Choices(g, run, body, lk)
    ensures id in Play(g, run, body, lk).log <==>
      id in g.log || exists a <- run :: a.id == id && !a.fault.Aborted?
    decreases |run|
  {
    hide ChoiceOk, ApplyEvent, PartialEvent, Recompute;
    if run != [] {
      var a := run[0];
      LogAfterRun(Deliver(g, a.id, body(a.id), a.fault, lk, a.choice), run[1..], body, lk, id);
      assert forall x :: x in run <==> x == a || x in run[1..];
    }
  }

  /** An event new to the log ends up logged but never applied if and only if its first delivery
      that is not re-opened meets a key that does not decrypt, or strands. */
  lemma LostExactly(g: Ledger, run: seq<Attempt>, body: string -> Event, lk: Linker, id: string)
    requires Choices(g, run, body, lk) && id !in g.log
    ensures (id in Play(g, run, body, lk).log && id !in Applied(g.log, run)) <==>
      exists i | 0 <= i < |run| :: run[i].id == id && Reopened(run, i)
        && (run[i].fault == KeyFault || run[i].fault.Stranded?)
  {
    LogAfterRun(g, run, body, lk, id);
    AppliedExactly(g.log, run, id);
    hide Applied, Play;
    if a :| a in run && a.id == id && !a.fault.Aborted? {
      var k :| 0 <= k < |run| && run[k] == a;
      var i := FirstLogged(run, k);
      assert Fresh(g.log, run, i);
      forall m | 0 <= m < |run| && run[m].id == id && Reopened(run, m) && !run[m].fault.Aborted?
        ensures m == i
      {
      }
    }
  }

  /** The first delivery of the event that does not abort. */
  lemma FirstLogged(run: seq<Attempt>, k: nat) returns (i: nat)
    requires k < |run| && !run[k].fault.Aborted?
    ensures i <= k && run[i].id == run[k].id && !run[i].fault.Aborted? && Reopened(run, i)
  {
    i := k;
    while !Reopened(run, i)
      invariant i <= k && run[i].id == run[k].id && !run[i].fault.Aborted?
      decreases i
    {
      var j :| 0 <= j < i && run[j].id == run[i].id && !run[j].fault.Aborted?;
      i := j;
    }
  }

  // ---- the paged charge listing ----

  datatype Charge = Charge(
    id: string, customer: Option<string>, amount: Option<int>, paid: bool, refunded: bool, status: Option<string>)

  const PAGE_LIMIT := 100
  const MAX_PAGES := 2000

  predicate Succeeded(ch: Charge) {
    ch.paid && !ch.refunded && ch.status == Some("succeeded")
  }

  function AmountOf(ch: Charge): int {
    if ch.amount.Some? then ch.amount.value else 0
  }

  /** The totals of one customer over a list of charges. */
  function PagedTotal(chs: seq<Charge>, cid: string): int {
    if chs == [] then 0
    else
      var ch := chs[|chs| - 1];
      PagedTotal(chs[..|chs| - 1], cid) + if Succeeded(ch) && ch.customer == Some(cid) then AmountOf(ch) else 0
  }

  function PagedCount(chs: seq<Charge>, cid: string): int {
    if chs == [] then 0
    else
      var ch := chs[|chs| - 1];
      PagedCount(chs[..|chs| - 1], cid) + if Succeeded(ch) && ch.customer == Some(cid) then 1 else 0
  }

  function At(m: map<string, int>, k: string): int {
    if k in m then m[k] else 0
  }

  /** The server's list endpoint: the page after `after`, and whether more follow. */
  class ChargeList {
    const all: seq<Charge>

    constructor (all: seq<Charge>)
      requires forall i, j | 0 <= i < j < |all| :: all[i].id != all[j].id
      ensures this.all == all
    {
      this.all := all;
    }

    ghost predicate Valid()
    {
      forall i, j | 0 <= i < j < |all| :: all[i].id != all[j].id
    }

    /** `seen` objects precede the page that starts after `after`. */
    ghost predicate Follows(after: Option<string>, seen: nat) {
      seen <= |all| && (if seen == 0 then after.None? else after == Some(all[seen - 1].id))
    }

    method Get(after: Option<string>, ghost seen: nat) returns (data: seq<Charge>, hasMore: bool)
      requires Valid() && Follows(after, seen)
      ensures data == all[seen..if seen + PAGE_LIMIT <= |all| then seen + PAGE_LIMIT else |all|]
      ensures hasMore == (seen + PAGE_LIMIT < |all|)
    {
      var start := 0;
      if after.Some? {
        while start < |all| && all[start].id != after.value
          invariant 0 <= start <= |all|
          invariant forall j | 0 <= j < start :: all[j].id != after.value
        {
          start := start + 1;
        }
        start := if start < |all| then start + 1 else start;
      }
      var stop := if start + PAGE_LIMIT <= |all| then start + PAGE_LIMIT else |all|;
      data, hasMore := all[start..stop], start + PAGE_LIMIT < |all|;
    }
  }

  ghost predicate Totals(spend: map<string, int>, count: map<string, int>, chs: seq<Charge>) {
    forall cid :: At(spend, cid) == PagedTotal(chs, cid) && At(count, cid) == PagedCount(chs, cid)
  }

  /** The aggregate covers exactly the first 2,000 pages of 100: each of their charges
      once, none skipped at a page boundary. */
  method AggregateCharges(server: ChargeList) returns (spend: map<string, int>, count: map<string, int>)
    requires server.Valid()
    ensures var seen := if |server.all| <= 200_000 then |server.all| else 200_000;
      forall cid :: At(spend, cid) == PagedTotal(server.all[..seen], cid)
                 && At(count, cid) == PagedCount(server.all[..seen], cid)
    ensures spend.Keys == count.Keys
  {
    spend, count := map[], map[];
    var after: Option<string> := None;
    ghost var seen := 0;
    assert Totals(spend, count, server.all[..seen]);
    for page := 0 to MAX_PAGES
      invariant seen == page * PAGE_LIMIT && server.Follows(after, seen)
      invariant Totals(spend, count, server.all[..seen]) && spend.Keys == count.Keys
    {
      var data, hasMore := server.Get(after, seen);
      spend, count := AddPage(spend, count, data, server.all[..seen]);
      assert server.all[..seen] + data == server.all[..seen + |data|];
      seen := seen + |data|;
      if !hasMore {
        return;
      }
      if data == [] {
        return;
      }
      after := Some(data[|data| - 1].id);
    }
  }

  method AddPage(spend0: map<string, int>, count0: map<string, int>, data: seq<Charge>, ghost seen: seq<Charge>)
    returns (spend: map<string, int>, count: map<string, int>)
    requires Totals(spend0, count0, seen) && spend0.Keys == count0.Keys
    ensures Totals(spend, count, seen + data) && spend.Keys == count.Keys
  {
    spend, count := spend0, count0;
    assert seen + data[..0] == seen;
    for i := 0 to |data|
      invariant Totals(spend, count, seen + data[..i]) && spend.Keys == count.Keys
    {
      var ch := data[i];
      AddCharge(spend, count, seen + data[..i], ch);
      assert seen + data[..i + 1] == seen + data[..i] + [ch];
      if Succeeded(ch) && ch.customer.Some? {
        var cid := ch.customer.value;
        spend := spend[cid := At(spend, cid) + AmountOf(ch)];
        count := count[cid := At(count, cid) + 1];
      }
    }
    assert data[..|data|] == data;
  }

  lemma AddCharge(spend: map<string, int>, count: map<string, int>, chs: seq<Charge>, ch: Charge)
    requires Totals(spend, count, chs)
    ensures !Succeeded(ch) || ch.customer.None? ==> Totals(spend, count, chs + [ch])
    ensures Succeeded(ch) && ch.customer.Some? ==>
      var cid := ch.customer.value;
      Totals(spend[cid := At(spend, cid) + AmountOf(ch)], count[cid := At(count, cid) + 1], chs + [ch])
  {
    forall cid
      ensures PagedTotal(chs + [ch], cid)
           == PagedTotal(chs, cid) + if Succeeded(ch) && ch.customer == Some(cid) then AmountOf(ch) else 0
      ensures PagedCount(chs + [ch], cid)
           == PagedCount(chs, cid) + if Succeeded(ch) && ch.customer == Some(cid) then 1 else 0
    {
      assert (chs + [ch])[..|chs|] == chs;
    }
    hide PagedTotal, PagedCount;
  }

  // ---- increments against the listing ----

  /** The webhook event of a charge when it succeeded. */
  function ChargedEvent(ch: Charge): Event {
    ChargeEvent(ch.customer, AmountOf(ch), ch.paid, if ch.status.Some? then ch.status.value else "")
  }

  function EventTotal(chs: seq<Charge>, cid: string): int {
    if chs == [] then 0
    else EventTotal(chs[..|chs| - 1], cid) + Increment(ChargedEvent(chs[|chs| - 1]), cid)
  }

  /** What a customer's succeeded charges had that were refunded later. */
  function RefundedTotal(chs: seq<Charge>, cid: string): int {
    if chs == [] then 0
    else
      var ch := chs[|chs| - 1];
      RefundedTotal(chs[..|chs| - 1], cid)
      + if ch.refunded && ch.paid && ch.status == Some("succeeded") && ch.customer == Some(cid) then AmountOf(ch) else 0
  }

  /** Over the same charges the increments are the listing's total and what was refunded. */
  lemma {:induction false} IncrementsBoundListing(chs: seq<Charge>, cid: string)
    ensures EventTotal(chs, cid) == PagedTotal(chs, cid) + RefundedTotal(chs, cid)
    ensures (forall ch <- chs :: AmountOf(ch) >= 0) ==> RefundedTotal(chs, cid) >= 0
    ensures (forall ch <- chs :: !ch.refunded) ==> RefundedTotal(chs, cid) == 0
  {
    if chs != [] {
      assert chs[|chs| - 1] in chs;
      IncrementsBoundListing(chs[..|chs| - 1], cid);
    }
  }

  /** Summing over the charges of a list is summing over their distinct event ids. */
  lemma {:induction false} TotalsBySet(chs: seq<Charge>, eventId: string -> string, body: string -> Event, cid: string)
    requires forall i, j | 0 <= i < j < |chs| :: eventId(chs[i].id) != eventId(chs[j].id)
    requires forall ch <- chs :: body(eventId(ch.id)) == ChargedEvent(ch)
    ensures EventTotal(chs, cid)
         == SetSum(set ch <- chs :: eventId(ch.id), IncrementOf(body, cid))
  {
    var f := IncrementOf(body, cid);
    if chs == [] {
      assert (set ch <- chs :: eventId(ch.id)) == {};
    } else {
      var init, last := chs[..|chs| - 1], chs[|chs| - 1];
      assert last in chs;
      TotalsBySet(init, eventId, body, cid);
      var ids := set ch <- init :: eventId(ch.id);
      assert forall ch :: ch in chs <==> ch in init || ch == last;
      assert (set ch <- chs :: eventId(ch.id)) == ids + {eventId(last.id)};
      assert eventId(last.id) !in ids;
      SetSumAdd(ids, f, eventId(last.id));
    }
  }

  /** A customer first seen by these deliveries: if every charge of the listing got
      through and nothing else did, its spend is the listing's total and what was refunded:
      at least the total when no amount is negative, and equal to it when none was refunded. */
  lemma IncrementsAgainstListing(g: Ledger, run: seq<Attempt>, body: string -> Event, lk: Linker, cid: string,
                                 chs: seq<Charge>, eventId: string -> string)
    requires Choices(g, run, body, lk) && Spend(g.tables, cid) == 0
    requires forall a <- run :: KeepsCustomer(body(a.id), cid)
    requires forall i, j | 0 <= i < j < |chs| :: eventId(chs[i].id) != eventId(chs[j].id)
    requires forall ch <- chs :: body(eventId(ch.id)) == ChargedEvent(ch)
    requires Applied(g.log, run) == (set ch <- chs :: eventId(ch.id))
    requires Replayed(g.log, run, IncrementOf(body, cid)) == 0
    ensures Spend(Play(g, run, body, lk).tables, cid) == PagedTotal(chs, cid) + RefundedTotal(chs, cid)
    ensures (forall ch <- chs :: AmountOf(ch) >= 0)
            ==> Spend(Play(g, run, body, lk).tables, cid) >= PagedTotal(chs, cid)
    ensures (forall ch <- chs :: !ch.refunded)
            ==> Spend(Play(g, run, body, lk).tables, cid) == PagedTotal(chs, cid)
  {
    SpendDecomposition(g, run, body, lk, cid);
    TotalsBySet(chs, eventId, body, cid);
    IncrementsBoundListing(chs, cid);
  }
}
