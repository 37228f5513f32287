/** Startup, dispose and what a block survives between them. The startup loop
    reads the queue until it is empty and drops everything that is not an ADD,
    including the events its own writes cause. */
module Restart {
  import opened Rfkill
  import opened Aggregate
  import opened Protocol
  import opened Convergence
  import opened SaveRestore
  import opened ForceSync
  import opened Termination

  /** What the kernel queues for a new reader: one ADD per device. */
  function Snapshot(order: seq<nat>, k: Table): (q: seq<Event>)
    requires forall i :: i in order ==> i in k
    ensures forall e :: e in q ==> e.op == ADD && e.idx in order && k[e.idx] == Entry(e.rf, e.soft, e.hard)
    ensures forall i :: i in order ==> Event(i, k[i].rf, ADD, k[i].soft, k[i].hard) in q
  {
    if order == [] then []
    else
      var i := order[0];
      [Event(i, k[i].rf, ADD, k[i].soft, k[i].hard)] + Snapshot(order[1..], k)
  }

  ghost predicate FreshBoot(w: World) {
    && w.kernel.Listed()
    && w.daemon.table == map[] && w.daemon.platform == {}
    && w.kernel.queue == Snapshot(w.kernel.order, w.kernel.table)
  }

  lemma AddDeviceLowersAdds(w: World, platform: bool)
    requires w.kernel.Listed() && w.kernel.queue != [] && w.kernel.queue[0].op == ADD
    ensures var r := AddDevice(Pop(w), w.kernel.queue[0], platform);
            r.kernel.Listed() && Adds(r.kernel.queue) < Adds(w.kernel.queue)
  {
    var e, p := w.kernel.queue[0], Pop(w);
    if e.idx !in w.daemon.table {
      AddEffect(p, e, platform);
      var q, q' := p.kernel.queue, AddDevice(p, e, platform).kernel.queue;
      CountsConcat(q, q'[|q|..]);
      OnlyChangesNoAdds(q'[|q|..]);
      assert q' == q + q'[|q|..];
    }
  }

  ghost function StartupLoop(w: World, udev: nat -> bool): (r: World)
    requires w.kernel.Listed()
    ensures r.kernel.Listed() && r.kernel.queue == []
    decreases Adds(w.kernel.queue), |w.kernel.queue|
  {
    if w.kernel.queue == [] then w
    else if w.kernel.queue[0].op != ADD then StartupLoop(Pop(w), udev)
    else
      var platform := udev(w.kernel.queue[0].idx);
      AddDeviceLowersAdds(w, platform);
      StartupLoop(AddDevice(Pop(w), w.kernel.queue[0], platform), udev)
  }

  function BlockSavedFrom(w: World, t: int): (r: World)
    requires RFKILL_TYPE_ALL < t <= NUM_RFKILL_TYPES && w.kernel.Listed()
    ensures r.kernel.Listed()
    decreases NUM_RFKILL_TYPES - t
  {
    if t == NUM_RFKILL_TYPES then w
    else BlockSavedFrom(SetBlock(w, t, Persisted(w.daemon.persisted, t)), t + 1)
  }

  /** What the loop starts from: flight mode restored, which finds no device yet. */
  function BeforeLoop(w: World): (r: World)
    requires w.kernel.Listed()
    ensures r.kernel.Listed()
  {
    if w.daemon.persist then FlightMode(w, Persisted(w.daemon.persisted, RFKILL_TYPE_ALL)) else w
  }

  ghost function Startup(w: World, udev: nat -> bool): (r: World)
    requires w.kernel.Listed()
    ensures r.kernel.Listed()
  {
    var w1 := StartupLoop(BeforeLoop(w), udev);
    if w.daemon.persist then BlockSavedFrom(w1, RFKILL_TYPE_ALL + 1) else w1
  }

  /** The remembered bits once the types below n have been saved. */
  function SavedBelow(d: Daemon, n: int): map<int, bool>
    requires n <= NUM_RFKILL_TYPES
  {
    d.persisted + map t: int | RFKILL_TYPE_ALL < t < n :: t := StateOf(d, t).Level() > 0
  }

  function Dispose(d: Daemon): Daemon {
    d.(persisted := SavedBelow(d, NUM_RFKILL_TYPES))
  }

  lemma SaveOneMore(d: Daemon, t: RfType)
    ensures SavedBelow(d, t + 1) == SavedBelow(d, t)[t := StateOf(d, t).Level() > 0]
  {
    hide StateOf;
    var more, less := SavedBelow(d, t + 1), SavedBelow(d, t);
    assert more.Keys == less.Keys + {t};
  }

  lemma SaveNone(d: Daemon)
    ensures SavedBelow(d, RFKILL_TYPE_ALL + 1) == d.persisted
  {}

  // ---- one ADD ------------------------------------------------------------

  ghost predicate OnlyChanges(q: seq<Event>) {
    forall e :: e in q ==> e.op == CHANGE
  }

  lemma {:induction false} OnlyChangesNoAdds(q: seq<Event>)
    requires OnlyChanges(q)
    ensures Adds(q) == 0
  {
    if q != [] {
      assert q[0] in q;
      OnlyChangesNoAdds(q[1..]);
    }
  }

  lemma {:induction false} ChangesAreChanges(order: seq<nat>, k: Table, t: RfType, b: bool)
    requires forall i :: i in order ==> i in k
    ensures OnlyChanges(Changes(order, k, t, b))
  {
    if order != [] {
      ChangesAreChanges(order[1..], k, t, b);
    }
  }

  predicate AddWrites(w: World, platform: bool) {
    w.kernel.writable && ((w.daemon.forceSync && !platform) || w.daemon.persist)
  }

  ghost predicate QueueGrew(q: seq<Event>, q': seq<Event>) {
    q <= q' && OnlyChanges(q'[|q|..])
  }

  /** r is w after device i asked for the soft bit b. */
  ghost predicate Wrote(w: World, i: nat, b: bool, r: World) {
    var d, k := w.daemon, w.kernel;
    && i in d.table && r.kernel.Listed()
    && r.kernel.writable == k.writable && r.kernel.order == k.order
    && r.kernel.table == (if k.writable then WriteAll(k.table, d.table[i].rf, b) else k.table)
    && QueueGrew(k.queue, r.kernel.queue)
    && r.daemon == d.(table := if k.writable then d.table[i := d.table[i].(soft := b)] else d.table)
  }

  lemma SetSoftEffect(w: World, i: nat, b: bool)
    requires w.kernel.Listed() && i in w.daemon.table
    ensures Wrote(w, i, b, SetSoft(w, i, b))
  {
    if w.kernel.writable {
      var cs := Changes(w.kernel.order, w.kernel.table, w.daemon.table[i].rf, b);
      ChangesAreChanges(w.kernel.order, w.kernel.table, w.daemon.table[i].rf, b);
      assert (w.kernel.queue + cs)[|w.kernel.queue|..] == cs;
    }
  }

  /** r is w after a new device was taken in: everything that changes. */
  ghost predicate Added(w: World, e: Event, platform: bool, r: World) {
    var d, k := w.daemon, w.kernel;
    && r.kernel.Listed() && r.kernel.writable == k.writable && r.kernel.order == k.order
    && r.kernel.table == (if AddWrites(w, platform) then WriteAll(k.table, e.rf, FirstSoft(w, e)) else k.table)
    && QueueGrew(k.queue, r.kernel.queue)
    && r.daemon == d.(
         table := d.table[e.idx := Entry(e.rf, FirstSoft(w, e), e.hard)],
         platform := if platform then d.platform + {e.idx} else d.platform - {e.idx})
  }

  lemma GrewTwice(a: seq<Event>, b: seq<Event>, c: seq<Event>)
    requires QueueGrew(a, b) && QueueGrew(b, c)
    ensures QueueGrew(a, c)
  {
    assert forall e :: e in c[|a|..] ==> e in b[|a|..] || e in c[|b|..];
  }

  lemma TwoWrites(w: World, e: Event, platform: bool, w1: World, w2: World, r: World)
    requires w.kernel.Listed() && e.idx !in w.daemon.table && w1 == Enlist(w, e, platform)
    requires if w.daemon.forceSync && !platform then Wrote(w1, e.idx, e.soft, w2) else w2 == w1
    requires if w.daemon.persist then Wrote(w2, e.idx, Persisted(w.daemon.persisted, e.rf), r) else r == w2
    ensures Added(w, e, platform, r)
  {
    GrewTwice(w1.kernel.queue, w2.kernel.queue, r.kernel.queue);
    TwoWritesKernel(w.kernel.table, w2.kernel.table, r.kernel.table, e.rf,
                    w.daemon.forceSync && !platform, e.soft,
                    w.daemon.persist, Persisted(w.daemon.persisted, e.rf), w.kernel.writable);
    assert w2.daemon.table == w1.daemon.table;
    assert r.daemon.table == w.daemon.table[e.idx := Entry(e.rf, FirstSoft(w, e), e.hard)];
  }

  lemma TwoWritesKernel(
      k: Table, k2: Table, k': Table, t: RfType, first: bool, a: bool, second: bool, b: bool, writable: bool)
    requires k2 == if writable && first then WriteAll(k, t, a) else k
    requires k' == if writable && second then WriteAll(k2, t, b) else k2
    ensures k' == if writable && (first || second) then WriteAll(k, t, if second then b else a) else k
  {
    WriteTwice(k, t, a, b);
  }

  lemma AddEffect(w: World, e: Event, platform: bool)
    requires w.kernel.Listed() && e.idx !in w.daemon.table
    ensures Added(w, e, platform, AddDevice(w, e, platform))
  {
    var w1 := Enlist(w, e, platform);
    SetSoftEffect(w1, e.idx, e.soft);
    var w2 := if w.daemon.forceSync && !platform then SetSoft(w1, e.idx, e.soft) else w1;
    SetSoftEffect(w2, e.idx, Persisted(w.daemon.persisted, e.rf));
    TwoWrites(w, e, platform, w1, w2, AddDevice(w, e, platform));
  }

  // ---- the loop -----------------------------------------------------------

  /** Tracked devices and pending ADDs together describe the kernel's devices,
      except for the soft bits. */
  ghost predicate Tracking(w: World) {
    var d, k := w.daemon.table, w.kernel.table;
    && w.kernel.Listed()
    && (forall i :: i in d ==> i in k && d[i].rf == k[i].rf && d[i].hard == k[i].hard)
    && (forall e :: e in w.kernel.queue && e.op == ADD ==> e.idx in k && k[e.idx].rf == e.rf && k[e.idx].hard == e.hard)
    && (forall i :: i in k ==> i in d || exists e :: e in w.kernel.queue && e.op == ADD && e.idx == i)
  }

  lemma GrewMembers(q: seq<Event>, q': seq<Event>)
    requires QueueGrew(q, q')
    ensures forall x :: x in q ==> x in q'
    ensures forall x :: x in q' && x.op == ADD ==> x in q
  {
    assert q' == q + q'[|q|..];
  }

  lemma PopMembers(q: seq<Event>)
    requires q != []
    ensures forall x :: x in q[1..] ==> x in q
    ensures forall x :: x in q && x != q[0] ==> x in q[1..]
  {
    assert q == [q[0]] + q[1..];
  }

  lemma AddedHardware(w: World, e: Event, platform: bool, r: World)
    requires Added(w, e, platform, r)
    ensures r.kernel.Listed() && SameHardware(r.kernel.table, w.kernel.table)
    ensures QueueGrew(w.kernel.queue, r.kernel.queue)
    ensures exists b: bool :: r.daemon.table == w.daemon.table[e.idx := Entry(e.rf, b, e.hard)]
  {
    assert r.daemon.table == w.daemon.table[e.idx := Entry(e.rf, FirstSoft(w, e), e.hard)];
  }

  lemma TrackingAdd(w: World, e: Event, platform: bool, r: World)
    requires w.kernel.queue != [] && e == w.kernel.queue[0] && e.op == ADD && e.idx !in w.daemon.table
    requires Tracking(w) && Added(Pop(w), e, platform, r)
    ensures Tracking(r)
  {
    hide Added;
    hide QueueGrew;
    AddedHardware(Pop(w), e, platform, r);
    PopMembers(w.kernel.queue);
    GrewMembers(w.kernel.queue[1..], r.kernel.queue);
  }

  lemma TrackingStep(w: World, platform: bool)
    requires Tracking(w) && w.kernel.queue != []
    ensures var e := w.kernel.queue[0];
            Tracking(if e.op == ADD then AddDevice(Pop(w), e, platform) else Pop(w))
  {
    var e := w.kernel.queue[0];
    PopMembers(w.kernel.queue);
    if e.op == ADD && e.idx !in w.daemon.table {
      AddEffect(Pop(w), e, platform);
      TrackingAdd(w, e, platform, AddDevice(Pop(w), e, platform));
    }
  }

  /** With persist: whatever is tracked has the remembered bit, in both tables. */
  ghost predicate Forced(w: World) {
    var d, k := w.daemon, w.kernel;
    && d.persist && k.writable
    && forall i :: i in d.table ==>
         && d.table[i].soft == Persisted(d.persisted, d.table[i].rf)
         && forall j :: j in k.table && k.table[j].rf == d.table[i].rf ==>
              k.table[j].soft == Persisted(d.persisted, d.table[i].rf)
  }

  lemma ForcedAdd(w: World, e: Event, platform: bool, r: World)
    requires e.idx !in w.daemon.table && Forced(w) && Added(w, e, platform, r)
    ensures Forced(r)
  {}

  lemma {:induction false} ForcedLoop(w: World, udev: nat -> bool)
    requires Tracking(w) && Forced(w)
    ensures var r := StartupLoop(w, udev);
            Forced(r) && r.daemon.table == r.kernel.table && r.daemon.persisted == w.daemon.persisted
    decreases Adds(w.kernel.queue), |w.kernel.queue|
  {
    if w.kernel.queue != [] {
      var e := w.kernel.queue[0];
      var platform := udev(e.idx);
      TrackingStep(w, platform);
      if e.op == ADD {
        AddDeviceLowersAdds(w, platform);
        if e.idx !in w.daemon.table {
          AddEffect(Pop(w), e, platform);
          ForcedAdd(Pop(w), e, platform, AddDevice(Pop(w), e, platform));
        }
        ForcedLoop(AddDevice(Pop(w), e, platform), udev);
      } else {
        ForcedLoop(Pop(w), udev);
      }
    }
  }

  /** Without writes: the tracked soft bits are the kernel's. */
  ghost predicate Quiet(w: World) {
    var d, k := w.daemon, w.kernel;
    && (!k.writable || (!d.persist && !d.forceSync))
    && (forall i :: i in d.table && i in k.table ==> d.table[i].soft == k.table[i].soft)
    && (forall e :: e in k.queue && e.op == ADD && e.idx in k.table ==> k.table[e.idx].soft == e.soft)
  }

  lemma QuietAdd(w: World, e: Event, platform: bool, r: World)
    requires w.kernel.queue != [] && e == w.kernel.queue[0] && e.op == ADD && e.idx !in w.daemon.table
    requires Quiet(w) && Added(Pop(w), e, platform, r)
    ensures Quiet(r)
  {
    PopMembers(w.kernel.queue);
    GrewMembers(w.kernel.queue[1..], r.kernel.queue);
  }

  lemma {:induction false} QuietLoop(w: World, udev: nat -> bool)
    requires Tracking(w) && Quiet(w)
    ensures var r := StartupLoop(w, udev);
            r.daemon.table == r.kernel.table && r.kernel.writable == w.kernel.writable
    ensures StartupLoop(w, udev).kernel.table == w.kernel.table
    decreases Adds(w.kernel.queue), |w.kernel.queue|
  {
    if w.kernel.queue != [] {
      var e := w.kernel.queue[0];
      var platform := udev(e.idx);
      PopMembers(w.kernel.queue);
      TrackingStep(w, platform);
      if e.op == ADD {
        AddDeviceLowersAdds(w, platform);
        if e.idx !in w.daemon.table {
          AddEffect(Pop(w), e, platform);
          QuietAdd(w, e, platform, AddDevice(Pop(w), e, platform));
        }
        QuietLoop(AddDevice(Pop(w), e, platform), udev);
      } else {
        QuietLoop(Pop(w), udev);
      }
    }
  }

  /** With force_sync alone: each non-platform device imposes the soft bit it had
      before startup on its type; nobody tells the devices read before it. */
  ghost predicate Imposed(w: World, k0: Table, udev: nat -> bool) {
    var d, k := w.daemon, w.kernel;
    && d.forceSync && !d.persist && k.writable
    && k.table.Keys == k0.Keys && (forall i :: i in k0 ==> k.table[i].rf == k0[i].rf && k.table[i].hard == k0[i].hard)
    && (forall i :: i in d.table ==> i in k0 && d.table[i] == k0[i])
    && (forall e :: e in k.queue && e.op == ADD ==> e.idx in k0 && k0[e.idx].soft == e.soft)
    && forall t: RfType :: ImposedOn(d.table, k.table, k0, udev, t)
  }

  ghost predicate ImposedOn(d: Table, k: Table, k0: Table, udev: nat -> bool, t: RfType)
    requires k.Keys == k0.Keys && forall i :: i in d ==> i in k0
  {
    if forall i :: i in d && d[i].rf == t ==> udev(i)
    then forall j :: j in k && k[j].rf == t ==> k[j].soft == k0[j].soft
    else exists i :: i in d && d[i].rf == t && !udev(i) && SoftEverywhere(k, t, k0[i].soft)
  }

  lemma ImposedOnAdd(d: Table, k: Table, k0: Table, udev: nat -> bool, t: RfType, i: nat, e: Entry)
    requires k.Keys == k0.Keys && (forall n :: n in d ==> n in k0) && i in k0 && i !in d && k0[i] == e
    requires ImposedOn(d, k, k0, udev, t)
    ensures var k' := if udev(i) then k else WriteAll(k, e.rf, e.soft);
            ImposedOn(d[i := e], k', k0, udev, t)
  {
    var k', d' := if udev(i) then k else WriteAll(k, e.rf, e.soft), d[i := e];
    assert forall n :: n in d ==> n in d' && d'[n] == d[n];
    if t == e.rf && !udev(i) {
      assert i in d' && d'[i].rf == t && SoftEverywhere(k', t, k0[i].soft);
    } else {
      ImposedOnSame(d, d', k, k', k0, udev, t);
    }
  }

  /** Neither the devices of the type nor the platform ones among them matter more. */
  lemma ImposedOnSame(d: Table, d': Table, k: Table, k': Table, k0: Table, udev: nat -> bool, t: RfType)
    requires k.Keys == k'.Keys == k0.Keys && (forall n :: n in d' ==> n in k0)
    requires forall n :: n in d ==> n in d' && d'[n] == d[n]
    requires forall n :: n in d' && n !in d && d'[n].rf == t ==> udev(n)
    requires forall j :: j in k && (k[j].rf == t || k'[j].rf == t) ==> k'[j] == k[j]
    requires ImposedOn(d, k, k0, udev, t)
    ensures ImposedOn(d', k', k0, udev, t)
  {
    if n :| n in d && d[n].rf == t && !udev(n) && SoftEverywhere(k, t, k0[n].soft) {
      assert n in d' && SoftEverywhere(k', t, k0[n].soft);
    }
  }

  lemma AddedForced(w: World, e: Event, platform: bool, r: World)
    requires Added(w, e, platform, r) && w.daemon.forceSync && !w.daemon.persist && w.kernel.writable
    ensures r.daemon.forceSync && !r.daemon.persist && r.kernel.writable && QueueGrew(w.kernel.queue, r.kernel.queue)
    ensures r.daemon.table == w.daemon.table[e.idx := Entry(e.rf, e.soft, e.hard)]
    ensures r.kernel.table == if platform then w.kernel.table else WriteAll(w.kernel.table, e.rf, e.soft)
    ensures SameHardware(r.kernel.table, w.kernel.table)
  {}

  lemma ImposedHead(w: World, k0: Table, udev: nat -> bool)
    requires w.kernel.queue != [] && w.kernel.queue[0].op == ADD && Tracking(w) && Imposed(w, k0, udev)
    ensures var e := w.kernel.queue[0];
            e.idx in k0 && k0[e.idx] == Entry(e.rf, e.soft, e.hard)
  {}

  lemma ImposedAdd(w: World, e: Event, k0: Table, udev: nat -> bool, r: World)
    requires w.kernel.queue != [] && e == w.kernel.queue[0] && e.op == ADD && e.idx !in w.daemon.table
    requires Tracking(w) && Imposed(w, k0, udev) && Added(Pop(w), e, udev(e.idx), r)
    ensures Imposed(r, k0, udev)
  {
    hide Added;
    hide Tracking;
    hide QueueGrew;
    hide WriteAll;
    hide ImposedOn;
    AddedForced(Pop(w), e, udev(e.idx), r);
    PopMembers(w.kernel.queue);
    GrewMembers(w.kernel.queue[1..], r.kernel.queue);
    ImposedHead(w, k0, udev);
    ImposedOnAllAdd(w.daemon.table, r.daemon.table, w.kernel.table, r.kernel.table, k0, udev, e.idx);
  }

  lemma ImposedOnAllAdd(d: Table, d': Table, k: Table, k': Table, k0: Table, udev: nat -> bool, i: nat)
    requires k.Keys == k0.Keys && (forall n :: n in d ==> n in k0) && i in k0 && i !in d
    requires d' == d[i := k0[i]] && k' == if udev(i) then k else WriteAll(k, k0[i].rf, k0[i].soft)
    requires forall t: RfType :: ImposedOn(d, k, k0, udev, t)
    ensures forall t: RfType :: ImposedOn(d', k', k0, udev, t)
  {
    forall t: RfType ensures ImposedOn(d', k', k0, udev, t) {
      ImposedOnAdd(d, k, k0, udev, t, i, k0[i]);
    }
  }

  lemma {:induction false} ImposedLoop(w: World, k0: Table, udev: nat -> bool)
    requires Tracking(w) && Imposed(w, k0, udev)
    ensures var r := StartupLoop(w, udev);
            Tracking(r) && Imposed(r, k0, udev)
    decreases Adds(w.kernel.queue), |w.kernel.queue|
  {
    if w.kernel.queue != [] {
      var e := w.kernel.queue[0];
      var platform := udev(e.idx);
      PopMembers(w.kernel.queue);
      TrackingStep(w, platform);
      if e.op == ADD {
        AddDeviceLowersAdds(w, platform);
        if e.idx !in w.daemon.table {
          AddEffect(Pop(w), e, platform);
          ImposedAdd(w, e, k0, udev, AddDevice(Pop(w), e, platform));
        }
        ImposedLoop(AddDevice(Pop(w), e, platform), k0, udev);
      } else {
        ImposedLoop(Pop(w), k0, udev);
      }
    }
  }

  // ---- the whole startup --------------------------------------------------

  lemma {:induction false} FlightWithoutDevices(w: World, t: int, b: bool)
    requires RFKILL_TYPE_ALL < t <= NUM_RFKILL_TYPES && w.kernel.Listed() && w.daemon.table == map[]
    ensures FlightFrom(w, t, b) == w.(daemon := w.daemon.(saved := FlightFrom(w, t, b).daemon.saved))
    decreases NUM_RFKILL_TYPES - t
  {
    if t < NUM_RFKILL_TYPES {
      NoAdapterMeansNone(w.daemon, t);
      FlightWithoutDevices(FlightType(w, t, b), t + 1, b);
    }
  }

  lemma SnapshotTracks(w: World)
    requires FreshBoot(w)
    ensures Tracking(w)
  {
    var k := w.kernel;
    forall i | i in k.table ensures exists e :: e in k.queue && e.op == ADD && e.idx == i {
      assert Event(i, k.table[i].rf, ADD, k.table[i].soft, k.table[i].hard) in k.queue;
    }
  }

  ghost predicate NothingDone(w: World, r: World) {
    && r.kernel == w.kernel && r.daemon.table == w.daemon.table && r.daemon.platform == w.daemon.platform
    && r.daemon.persist == w.daemon.persist && r.daemon.forceSync == w.daemon.forceSync
    && forall t :: Persisted(r.daemon.persisted, t) == Persisted(w.daemon.persisted, t)
  }

  lemma FlightDoesNothing(w: World, w0: World, t: int, b: bool)
    requires RFKILL_TYPE_ALL < t <= NUM_RFKILL_TYPES && w.kernel.Listed() && w.daemon.table == map[]
    requires b == Persisted(w.daemon.persisted, RFKILL_TYPE_ALL)
    requires w0 == w.(daemon := w.daemon.(persisted := w.daemon.persisted[RFKILL_TYPE_ALL := b]))
    ensures NothingDone(w, FlightFrom(w0, t, b))
  {
    FlightWithoutDevices(w0, t, b);
  }

  lemma BeforeLoopEffect(w: World)
    requires FreshBoot(w)
    ensures NothingDone(w, BeforeLoop(w)) && Tracking(BeforeLoop(w))
  {
    var b := Persisted(w.daemon.persisted, RFKILL_TYPE_ALL);
    var w0 := w.(daemon := w.daemon.(persisted := w.daemon.persisted[RFKILL_TYPE_ALL := b]));
    FlightDoesNothing(w, w0, 1, b);
    SnapshotTracks(w);
    assert NothingDone(w, BeforeLoop(w));
  }

  /** Blocking every type once more changes nothing when the bits are already there. */
  lemma {:induction false} BlockSavedIdle(w: World, t: int)
    requires RFKILL_TYPE_ALL < t <= NUM_RFKILL_TYPES && w.kernel.Listed() && w.daemon.table == w.kernel.table
    requires w.kernel.writable ==> Forced(w)
    ensures var r := BlockSavedFrom(w, t);
            && r.kernel == w.kernel && r.daemon.table == w.daemon.table
            && forall u :: Persisted(r.daemon.persisted, u) == Persisted(w.daemon.persisted, u)
    decreases NUM_RFKILL_TYPES - t
  {
    if t < NUM_RFKILL_TYPES {
      var b := Persisted(w.daemon.persisted, t);
      if HasType(w.daemon.table, t) && w.kernel.writable {
        assert WriteAll(w.daemon.table, t, b) == w.daemon.table;
        NoChanges(w.kernel.order, w.kernel.table, t, b);
        assert w.kernel.queue + [] == w.kernel.queue;
      }
      var w1 := SetBlock(w, t, b);
      assert w1.kernel == w.kernel && w1.daemon.table == w.daemon.table;
      assert forall u :: Persisted(w1.daemon.persisted, u) == Persisted(w.daemon.persisted, u);
      BlockSavedIdle(w1, t + 1);
    }
  }

  /** Starting with persist, for any devices in any order: both tables agree, the
      queue is empty and every device has the soft bit remembered for its type. */
  lemma RestartGivesSavedBit(w: World, udev: nat -> bool)
    requires FreshBoot(w) && w.daemon.persist && w.kernel.writable
    ensures var r := Startup(w, udev);
            && r.kernel.queue == [] && r.daemon.table == r.kernel.table
            && r.kernel.table.Keys == w.kernel.table.Keys
            && (forall i :: i in r.daemon.table ==>
                  r.daemon.table[i] == w.kernel.table[i].(soft := Persisted(w.daemon.persisted, w.kernel.table[i].rf)))
  {
    var w0 := BeforeLoop(w);
    BeforeLoopEffect(w);
    ForcedLoop(w0, udev);
    LoopKeepsHardware(w0, udev);
    BlockSavedIdle(StartupLoop(w0, udev), 1);
  }

  /** No write touches which devices exist, their types or their hard bits. */
  lemma {:induction false} LoopKeepsHardware(w: World, udev: nat -> bool)
    requires w.kernel.Listed()
    ensures var r := StartupLoop(w, udev);
            && r.kernel.table.Keys == w.kernel.table.Keys
            && forall i :: i in w.kernel.table ==>
                 r.kernel.table[i].rf == w.kernel.table[i].rf && r.kernel.table[i].hard == w.kernel.table[i].hard
    decreases Adds(w.kernel.queue), |w.kernel.queue|
  {
    hide Added;
    if w.kernel.queue != [] {
      var e := w.kernel.queue[0];
      var platform := udev(e.idx);
      if e.op == ADD {
        AddDeviceLowersAdds(w, platform);
        if e.idx !in w.daemon.table {
          AddEffect(Pop(w), e, platform);
          AddedHardware(Pop(w), e, platform, AddDevice(Pop(w), e, platform));
        }
        LoopKeepsHardware(AddDevice(Pop(w), e, platform), udev);
      } else {
        LoopKeepsHardware(Pop(w), udev);
      }
    }
  }

  /** All devices of a type that has a non-platform one start with one soft bit. */
  ghost predicate TypesAgree(k: Table, udev: nat -> bool) {
    forall i, j :: i in k && j in k && !udev(i) && k[i].rf == k[j].rf ==> k[i].soft == k[j].soft
  }

  lemma ImposedEndIff(r: World, k0: Table, udev: nat -> bool)
    requires Tracking(r) && Imposed(r, k0, udev) && r.kernel.queue == []
    ensures r.daemon.table == r.kernel.table <==> TypesAgree(k0, udev)
  {
    var d, k := r.daemon.table, r.kernel.table;
    assert d.Keys == k0.Keys;
    if d == k {
      forall i, j | i in k0 && j in k0 && !udev(i) && k0[i].rf == k0[j].rf
        ensures k0[i].soft == k0[j].soft
      {
        assert ImposedOn(d, k, k0, udev, k0[i].rf);
        assert i in d && d[i].rf == k0[i].rf;
        var n :| n in d && d[n].rf == k0[i].rf && !udev(n) && SoftEverywhere(k, k0[i].rf, k0[n].soft);
        assert k[i].soft == k0[n].soft && k[j].soft == k0[n].soft;
      }
    }
    if TypesAgree(k0, udev) {
      forall j | j in k0 ensures k[j] == k0[j] {
        var t := k0[j].rf;
        assert ImposedOn(d, k, k0, udev, t);
        if n :| n in d && d[n].rf == t && !udev(n) && SoftEverywhere(k, t, k0[n].soft) {
          assert k0[n].soft == k0[j].soft;
        }
      }
    }
  }

  lemma ImposedInStepIff(w: World, udev: nat -> bool)
    requires FreshBoot(w) && w.daemon.forceSync && !w.daemon.persist && w.kernel.writable
    ensures var r := StartupLoop(w, udev);
            r.daemon.table == r.kernel.table <==> TypesAgree(w.kernel.table, udev)
  {
    BeforeLoopEffect(w);
    ImposedLoop(w, w.kernel.table, udev);
    ImposedEndIff(StartupLoop(w, udev), w.kernel.table, udev);
  }

  /** Exactly when startup leaves the two tables equal. The one failing family is
      force_sync without persist over types whose devices start out of step: the
      loop throws the CHANGE events of its own writes away. */
  lemma StartupInStepIff(w: World, udev: nat -> bool)
    requires FreshBoot(w)
    ensures var r := Startup(w, udev);
            && (r.kernel.queue == [])
            && (r.daemon.table == r.kernel.table
                <==> (w.kernel.writable && w.daemon.forceSync && !w.daemon.persist
                      ==> TypesAgree(w.kernel.table, udev)))
  {
    BeforeLoopEffect(w);
    var w0 := BeforeLoop(w);
    if w.kernel.writable && w.daemon.persist {
      RestartGivesSavedBit(w, udev);
    } else if w.kernel.writable && w.daemon.forceSync {
      ImposedInStepIff(w, udev);
    } else {
      QuietLoop(w0, udev);
      if w.daemon.persist {
        BlockSavedIdle(StartupLoop(w0, udev), 1);
      }
    }
  }

  /** With no persist and no force_sync, or with writes refused, startup finds every
      device as the kernel has it and writes to none. */
  lemma StartupTouchesNothing(w: World, udev: nat -> bool)
    requires FreshBoot(w) && (!w.kernel.writable || (!w.daemon.persist && !w.daemon.forceSync))
    ensures var r := Startup(w, udev);
            r.daemon.table == w.kernel.table && r.kernel.table == w.kernel.table
  {
    BeforeLoopEffect(w);
    QuietLoop(BeforeLoop(w), udev);
    if w.daemon.persist {
      BlockSavedIdle(StartupLoop(BeforeLoop(w), udev), 1);
    }
  }

  /** A first start with persist, with nothing remembered yet, unblocks every device. */
  lemma FirstStartUnblocks(w: World, udev: nat -> bool)
    requires FreshBoot(w) && w.daemon.persist && w.kernel.writable && w.daemon.persisted == map[]
    ensures var r := Startup(w, udev);
            && r.daemon.table.Keys == w.kernel.table.Keys && r.kernel.table == r.daemon.table
            && forall i :: i in r.daemon.table ==> !r.daemon.table[i].soft
  {
    RestartGivesSavedBit(w, udev);
  }

  /** A startup that ends in step is a state from which the tables stay consistent. */
  lemma StartupIsConsistent(w: World, udev: nat -> bool)
    requires FreshBoot(w)
    requires w.kernel.writable && w.daemon.forceSync && !w.daemon.persist ==> TypesAgree(w.kernel.table, udev)
    ensures Consistent(Startup(w, udev))
  {
    StartupInStepIff(w, udev);
  }

  lemma {:induction false} TrackingLoop(w: World, udev: nat -> bool)
    requires Tracking(w)
    ensures Tracking(StartupLoop(w, udev))
    decreases Adds(w.kernel.queue), |w.kernel.queue|
  {
    if w.kernel.queue != [] {
      var e := w.kernel.queue[0];
      TrackingStep(w, udev(e.idx));
      if e.op == ADD {
        AddDeviceLowersAdds(w, udev(e.idx));
        TrackingLoop(AddDevice(Pop(w), e, udev(e.idx)), udev);
      } else {
        TrackingLoop(Pop(w), udev);
      }
    }
  }

  lemma {:induction false} BlockSavedAligned(w: World, t: int)
    requires RFKILL_TYPE_ALL < t <= NUM_RFKILL_TYPES && Aligned(w)
    ensures Aligned(BlockSavedFrom(w, t))
    decreases NUM_RFKILL_TYPES - t
  {
    if t < NUM_RFKILL_TYPES {
      var b := Persisted(w.daemon.persisted, t);
      SetBlockKeepsConsistent(w, t, b);
      BlockSavedAligned(SetBlock(w, t, b), t + 1);
    }
  }

  /** Whatever the options and the soft bits, startup finds every device with its
      type and hard bit, which is all that the termination of the callback needs. */
  lemma StartupIsAligned(w: World, udev: nat -> bool)
    requires FreshBoot(w)
    ensures Aligned(Startup(w, udev))
  {
    BeforeLoopEffect(w);
    var r := StartupLoop(BeforeLoop(w), udev);
    TrackingLoop(BeforeLoop(w), udev);
    assert SameHardware(r.daemon.table, r.kernel.table);
    BlockSavedAligned(r, RFKILL_TYPE_ALL + 1);
  }

  /** The feedback loop dies out in every state that any run can reach from any
      startup: the callback comes to rest with the kernel's devices and hard bits. */
  lemma EveryRunComesToRest(w: World, boot: nat -> bool, ws: seq<World>, ss: seq<Step>, n: nat, udev: nat -> bool)
    requires FreshBoot(w) && RunOf(ws, ss) && ws[0] == Startup(w, boot) && n < |ws|
    ensures Aligned(ws[n])
    ensures var r := Drain(ws[n], udev);
            r.kernel.queue == [] && SameHardware(r.daemon.table, r.kernel.table)
  {
    StartupIsAligned(w, boot);
    HardwareConverges(ws, ss, n);
    RestMeansAgreement(ws[n], udev);
  }

  /** Two non-platform WLAN radios, the first blocked: out of step after startup. */
  lemma StartupOutOfStep()
    ensures var k: Table := map[0 := Entry(1, true, false), 1 := Entry(1, false, false)];
            var w := World(Kernel(k, [0, 1], Snapshot([0, 1], k), true), Daemon(map[], {}, map[], map[], true, false));
            FreshBoot(w) && Startup(w, (i: nat) => false).daemon.table != Startup(w, (i: nat) => false).kernel.table
  {
    var k: Table := map[0 := Entry(1, true, false), 1 := Entry(1, false, false)];
    var w := World(Kernel(k, [0, 1], Snapshot([0, 1], k), true), Daemon(map[], {}, map[], map[], true, false));
    assert FreshBoot(w);
    assert 0 in k && 1 in k && !TypesAgree(k, (i: nat) => false);
    StartupInStepIff(w, (i: nat) => false);
  }

  // ---- dispose ------------------------------------------------------------

  predicate HasBlocked(d: Table, t: RfType) {
    exists i :: i in d && d[i].rf == t && (d[i].soft || d[i].hard)
  }

  /** The bit saved for a type says whether some device of it is blocked. */
  lemma DisposeSavesBlocked(d: Daemon, t: RfType)
    ensures Persisted(Dispose(d).persisted, t) <==> HasBlocked(d.table, t)
    ensures Persisted(Dispose(d).persisted, RFKILL_TYPE_ALL) == Persisted(d.persisted, RFKILL_TYPE_ALL)
  {
    var S := Switches(d.table, d.platform, t);
    SomeClass(S);
    assert StateOf(d, t).Level() > 0 <==> AnyBlocked(S, true) || AnyBlocked(S, false);
    if i :| i in d.table && d.table[i].rf == t && (d.table[i].soft || d.table[i].hard) {
      var s := Switch(i in d.platform, d.table[i].soft, d.table[i].hard);
      assert s in S && s.Blocked() && (s.platform == true || s.platform == false);
    }
  }

  /** Dispose, then start again with any devices in any order. */
  lemma BlocksSurviveRestart(before: Daemon, w: World, udev: nat -> bool)
    requires FreshBoot(w) && w.daemon.persist && w.kernel.writable
    requires w.daemon.persisted == Dispose(before).persisted
    ensures var r := Startup(w, udev).daemon.table;
            r.Keys == w.kernel.table.Keys && forall i :: i in r ==> (r[i].soft <==> HasBlocked(before.table, r[i].rf))
  {
    RestartGivesSavedBit(w, udev);
    forall t: RfType ensures Persisted(w.daemon.persisted, t) <==> HasBlocked(before.table, t) {
      DisposeSavesBlocked(before, t);
    }
  }

  /** The next dispose saves the same bit for a type exactly if the type still has
      a device to carry a block, or no hard block to invent one. */
  lemma NextDisposeSavesSameIff(w: World, udev: nat -> bool, t: RfType)
    requires FreshBoot(w) && w.daemon.persist && w.kernel.writable
    ensures var bit := Persisted(w.daemon.persisted, t);
            Persisted(Dispose(Startup(w, udev).daemon).persisted, t) == bit
            <==> if bit then HasType(w.kernel.table, t) else !HasHard(w.kernel.table, t)
  {
    var r := Startup(w, udev).daemon;
    var k := w.kernel.table;
    RestartGivesSavedBit(w, udev);
    DisposeSavesBlocked(r, t);
    if i :| i in k && k[i].rf == t && (Persisted(w.daemon.persisted, t) || k[i].hard) {
      assert i in r.table && r.table[i].rf == t && (r.table[i].soft || r.table[i].hard);
    }
  }

  /** A remembered WLAN block and no WLAN radio: the next dispose forgets it. */
  lemma BlockForgottenWithoutDevice(udev: nat -> bool)
    ensures var w := World(Kernel(map[], [], [], true), Daemon(map[], {}, map[], map[1 := true], false, true));
            && FreshBoot(w) && Persisted(w.daemon.persisted, 1)
            && !Persisted(Dispose(Startup(w, udev).daemon).persisted, 1)
  {
    var w := World(Kernel(map[], [], [], true), Daemon(map[], {}, map[], map[1 := true], false, true));
    assert FreshBoot(w);
    assert !HasType(w.kernel.table, 1);
    NextDisposeSavesSameIff(w, udev, 1);
  }
}
