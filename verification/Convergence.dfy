/** The daemon's table lags behind the kernel's by exactly the queued events:
    in every state that a run can reach, and with an empty queue not at all.
    A startup can lose track of soft bits; what it never loses, and no step ever
    loses, is which devices exist, their types and their hard bits. */
module Convergence {
  import opened Rfkill
  import opened Protocol

  /** What an event says about the table, without any reaction of the daemon. */
  function Apply(d: Table, e: Event): Table {
    match e.op
    case CHANGE => if e.idx in d then d[e.idx := d[e.idx].(soft := e.soft, hard := e.hard)] else d
    case DEL => d - {e.idx}
    case ADD => if e.idx in d then d else d[e.idx := Entry(e.rf, e.soft, e.hard)]
  }

  function Replay(d: Table, q: seq<Event>): Table
    decreases |q|
  {
    if q == [] then d else Replay(Apply(d, q[0]), q[1..])
  }

  /** The event fits the table: the daemon has no reason to warn about it. */
  predicate Fits(d: Table, e: Event) {
    match e.op
    case ADD => e.idx !in d
    case DEL => e.idx in d && d[e.idx].rf == e.rf
    case CHANGE => e.idx in d && d[e.idx].rf == e.rf
  }

  predicate AllFit(d: Table, q: seq<Event>)
    decreases |q|
  {
    q == [] || (Fits(d, q[0]) && AllFit(Apply(d, q[0]), q[1..]))
  }

  ghost predicate Consistent(w: World) {
    && w.kernel.Listed()
    && AllFit(w.daemon.table, w.kernel.queue)
    && Replay(w.daemon.table, w.kernel.queue) == w.kernel.table
  }

  /** The same devices with the same types and hard bits. */
  ghost predicate SameHardware(a: Table, b: Table) {
    && a.Keys == b.Keys
    && forall i :: i in a ==> a[i].rf == b[i].rf && a[i].hard == b[i].hard
  }

  /** As Consistent, except that replayed and kernel soft bits may differ. */
  ghost predicate Aligned(w: World) {
    && w.kernel.Listed()
    && AllFit(w.daemon.table, w.kernel.queue)
    && SameHardware(Replay(w.daemon.table, w.kernel.queue), w.kernel.table)
  }

  /** d' is d with the soft bit of some devices of type t overwritten by b. */
  ghost predicate Patch(d: Table, d': Table, t: RfType, b: bool) {
    && d'.Keys == d.Keys
    && forall i :: i in d ==> d'[i] == d[i] || (d[i].rf == t && d'[i] == d[i].(soft := b))
  }

  lemma {:induction false} ReplayConcat(d: Table, a: seq<Event>, b: seq<Event>)
    ensures Replay(d, a + b) == Replay(Replay(d, a), b)
    ensures AllFit(d, a + b) <==> AllFit(d, a) && AllFit(Replay(d, a), b)
    decreases |a|
  {
    if a == [] {
      assert a + b == b;
    } else {
      assert (a + b)[1..] == a[1..] + b;
      ReplayConcat(Apply(d, a[0]), a[1..], b);
    }
  }

  /** An early local update survives in the replay only as itself. */
  lemma {:induction false} PatchReplay(d: Table, d': Table, q: seq<Event>, t: RfType, b: bool)
    requires Patch(d, d', t, b)
    ensures Patch(Replay(d, q), Replay(d', q), t, b)
    ensures AllFit(d', q) == AllFit(d, q)
    decreases |q|
  {
    if q != [] {
      assert Patch(Apply(d, q[0]), Apply(d', q[0]), t, b);
      PatchReplay(Apply(d, q[0]), Apply(d', q[0]), q[1..], t, b);
    }
  }

  /** The snapshots of a write, replayed over a table of the same hardware as the
      kernel's, change exactly the devices whose soft bit the write changes. */
  lemma {:induction false} ChangesReplay(m: Table, k: Table, order: seq<nat>, t: RfType, b: bool)
    requires forall i :: i in order ==> i in k
    requires SameHardware(m, k)
    ensures AllFit(m, Changes(order, k, t, b))
    ensures var r := Replay(m, Changes(order, k, t, b));
            && r.Keys == m.Keys
            && forall i :: i in m ==>
                 r[i] == if i in order && k[i].rf == t && k[i].soft != b then m[i].(soft := b) else m[i]
    decreases |order|
  {
    if order != [] {
      var i, e, rest := order[0], k[order[0]], Changes(order[1..], k, t, b);
      if e.rf == t && e.soft != b {
        var head := Event(i, t, CHANGE, b, e.hard);
        assert Changes(order, k, t, b) == [head] + rest;
        assert ([head] + rest)[1..] == rest;
        ChangesReplay(Apply(m, head), k, order[1..], t, b);
      } else {
        ChangesReplay(m, k, order[1..], t, b);
      }
    }
  }

  ghost predicate SoftEverywhere(k: Table, t: RfType, b: bool) {
    forall j :: j in k && k[j].rf == t ==> k[j].soft == b
  }

  lemma {:induction false} NoChanges(order: seq<nat>, k: Table, t: RfType, b: bool)
    requires (forall i :: i in order ==> i in k) && SoftEverywhere(k, t, b)
    ensures Changes(order, k, t, b) == []
  {
    if order != [] {
      NoChanges(order[1..], k, t, b);
    }
  }

  lemma WriteTwice(k: Table, t: RfType, a: bool, b: bool)
    ensures WriteAll(WriteAll(k, t, a), t, b) == WriteAll(k, t, b)
  {}

  /** Asking again for what a write has just done changes and queues nothing. */
  lemma WriteIsIdempotent(k: Kernel, t: RfType, b: bool)
    requires k.Listed()
    ensures Write(k, t, b).Listed() && Write(Write(k, t, b), t, b) == Write(k, t, b)
  {
    if k.writable {
      var k1 := Write(k, t, b);
      WriteTwice(k.table, t, b, b);
      NoChanges(k1.order, k1.table, t, b);
      assert k1.queue + [] == k1.queue;
    }
  }

  /** The events of a write end in the table after the write: in hardware always, and
      wholly where only devices of the type were ahead, by that same bit. */
  lemma WriteReplay(m: Table, k: Kernel, t: RfType, b: bool)
    requires k.Listed() && SameHardware(m, k.table)
    ensures var r := Replay(m, Changes(k.order, k.table, t, b));
            && AllFit(m, Changes(k.order, k.table, t, b)) && SameHardware(r, WriteAll(k.table, t, b))
            && (Patch(k.table, m, t, b) ==> r == WriteAll(k.table, t, b))
  {
    hide Changes;
    hide Replay;
    hide AllFit;
    ChangesReplay(m, k.table, k.order, t, b);
    var r, after := Replay(m, Changes(k.order, k.table, t, b)), WriteAll(k.table, t, b);
    assert r.Keys == after.Keys;
    if Patch(k.table, m, t, b) {
      forall i | i in after ensures r[i] == after[i] {}
    }
  }

  lemma PatchHardware(d: Table, d': Table, k: Table, t: RfType, b: bool)
    requires Patch(d, d', t, b) && SameHardware(d, k)
    ensures SameHardware(d', k)
  {}

  /** A write keeps the tables consistent, however many of the devices of its
      type the daemon has already overwritten in its own table. */
  lemma WriteKeepsConsistent(k: Kernel, d: Table, d': Table, t: RfType, b: bool)
    requires k.Listed() && AllFit(d, k.queue) && SameHardware(Replay(d, k.queue), k.table)
    requires k.writable && Patch(d, d', t, b)
    ensures var k' := Write(k, t, b);
            && k'.Listed() && AllFit(d', k'.queue) && SameHardware(Replay(d', k'.queue), k'.table)
            && (Replay(d, k.queue) == k.table ==> Replay(d', k'.queue) == k'.table)
  {
    hide Patch;
    hide SameHardware;
    PatchReplay(d, d', k.queue, t, b);
    var m := Replay(d', k.queue);
    PatchHardware(Replay(d, k.queue), m, k.table, t, b);
    WriteReplay(m, k, t, b);
    ReplayConcat(d', k.queue, Changes(k.order, k.table, t, b));
  }

  lemma SetSoftKeepsConsistent(w: World, i: nat, b: bool)
    requires Aligned(w) && i in w.daemon.table
    ensures Aligned(SetSoft(w, i, b)) && (Consistent(w) ==> Consistent(SetSoft(w, i, b)))
  {
    if w.kernel.writable {
      var d := w.daemon.table;
      WriteKeepsConsistent(w.kernel, d, d[i := d[i].(soft := b)], d[i].rf, b);
    }
  }

  lemma SetBlockKeepsConsistent(w: World, t: RfType, b: bool)
    requires Aligned(w)
    ensures Aligned(SetBlock(w, t, b)) && (Consistent(w) ==> Consistent(SetBlock(w, t, b)))
  {
    if w.kernel.writable {
      WriteKeepsConsistent(w.kernel, w.daemon.table, WriteAll(w.daemon.table, t, b), t, b);
    }
  }

  lemma {:induction false} FlightKeepsConsistent(w: World, t: int, b: bool)
    requires RFKILL_TYPE_ALL < t <= NUM_RFKILL_TYPES && Aligned(w)
    ensures Aligned(FlightFrom(w, t, b)) && (Consistent(w) ==> Consistent(FlightFrom(w, t, b)))
    decreases NUM_RFKILL_TYPES - t
  {
    if t < NUM_RFKILL_TYPES {
      var s := StateOf(w.daemon, t);
      var w1 := if b then w.(daemon := w.daemon.(saved := w.daemon.saved[t := s])) else w;
      SetBlockKeepsConsistent(w1, t, WantBlock(w.daemon, t, b));
      FlightKeepsConsistent(FlightType(w, t, b), t + 1, b);
    }
  }

  /** The world after the head event has overwritten the table, before any reaction. */
  function Applied(w: World): World
    requires w.kernel.queue != []
  {
    var p := Pop(w);
    p.(daemon := p.daemon.(table := Apply(w.daemon.table, w.kernel.queue[0])))
  }

  lemma AppliedKeepsConsistent(w: World)
    requires Aligned(w) && w.kernel.queue != []
    ensures Aligned(Applied(w)) && (Consistent(w) ==> Consistent(Applied(w)))
    ensures Fits(w.daemon.table, w.kernel.queue[0])
  {}

  /** Handling the head of the queue: pop it, overwrite the table, react. */
  lemma HandleKeepsConsistent(w: World, platform: bool)
    requires Aligned(w) && w.kernel.queue != []
    ensures Aligned(Handle(w, platform)) && (Consistent(w) ==> Consistent(Handle(w, platform)))
    ensures Fits(w.daemon.table, w.kernel.queue[0])
  {
    AppliedKeepsConsistent(w);
    var e, p := w.kernel.queue[0], Applied(w);
    match e.op {
      case DEL =>
      case CHANGE => ChangeKeepsConsistent(w, platform);
      case ADD =>
        var w1 := p.(daemon := p.daemon.(platform :=
          if platform then p.daemon.platform + {e.idx} else p.daemon.platform - {e.idx}));
        SetSoftKeepsConsistent(w1, e.idx, e.soft);
        var w2 := if w.daemon.forceSync && !platform then SetSoft(w1, e.idx, e.soft) else w1;
        SetSoftKeepsConsistent(w2, e.idx, Persisted(w.daemon.persisted, e.rf));
    }
  }

  lemma ChangeKeepsConsistent(w: World, platform: bool)
    requires Aligned(w) && w.kernel.queue != [] && w.kernel.queue[0].op == CHANGE
    ensures Aligned(Handle(w, platform)) && (Consistent(w) ==> Consistent(Handle(w, platform)))
  {
    AppliedKeepsConsistent(w);
    var e, d, p := w.kernel.queue[0], w.daemon.table, Applied(w);
    if d[e.idx].soft == e.soft && d[e.idx].hard == e.hard {
      assert Apply(d, e) == d;
    } else {
      SetSoftKeepsConsistent(p, e.idx, e.hard);
    }
    assert Handle(w, platform) == p || Handle(w, platform) == SetSoft(p, e.idx, e.hard);
  }

  /** One more event at the end of the queue. */
  lemma QueuedEvent(d: Table, q: seq<Event>, e: Event)
    ensures Replay(d, q + [e]) == Apply(Replay(d, q), e)
    ensures AllFit(d, q + [e]) <==> AllFit(d, q) && Fits(Replay(d, q), e)
  {
    ReplayConcat(d, q, [e]);
    assert [e][1..] == [];
  }

  /** What fits the kernel's table and changes it may be queued. */
  lemma QueueKeepsConsistent(w: World, e: Event, order: seq<nat>)
    requires Aligned(w) && Fits(w.kernel.table, e)
    requires forall i :: i in order <==> i in Apply(w.kernel.table, e)
    ensures var k := w.kernel.(table := Apply(w.kernel.table, e), order := order, queue := w.kernel.queue + [e]);
            Aligned(w.(kernel := k)) && (Consistent(w) ==> Consistent(w.(kernel := k)))
  {
    hide Replay;
    hide AllFit;
    QueuedEvent(w.daemon.table, w.kernel.queue, e);
  }

  lemma OutsideKeepsConsistent(w: World, s: Step)
    requires Aligned(w) && (s.OutsideAdd? || s.OutsideDel? || s.OutsideChange? || s.OutsideWritable?)
    ensures Aligned(Next(w, s)) && (Consistent(w) ==> Consistent(Next(w, s)))
  {
    var k := w.kernel;
    match s {
      case OutsideAdd(i, e) =>
        if i !in k.table {
          QueueKeepsConsistent(w, Event(i, e.rf, ADD, e.soft, e.hard), k.order + [i]);
        }
      case OutsideDel(i) =>
        if i in k.table {
          var e := k.table[i];
          QueueKeepsConsistent(w, Event(i, e.rf, DEL, e.soft, e.hard), Without(k.order, i));
        }
      case OutsideChange(i, soft, hard) =>
        if i in k.table {
          QueueKeepsConsistent(w, Event(i, k.table[i].rf, CHANGE, soft, hard), k.order);
        }
      case OutsideWritable(on) =>
    }
  }

  lemma StepKeepsConsistent(w: World, s: Step)
    requires Aligned(w)
    ensures Aligned(Next(w, s)) && (Consistent(w) ==> Consistent(Next(w, s)))
  {
    match s {
      case DaemonHandle(platform) => if w.kernel.queue != [] { HandleKeepsConsistent(w, platform); }
      case DaemonSetBlock(t, b) => SetBlockKeepsConsistent(w, t, b);
      case DaemonSetBlockIdx(i, b) => if i in w.daemon.table { SetSoftKeepsConsistent(w, i, b); }
      case DaemonFlightMode(b) =>
        FlightKeepsConsistent(w.(daemon := w.daemon.(persisted := w.daemon.persisted[RFKILL_TYPE_ALL := b])), 1, b);
      case DaemonKeyPress(t) =>
        var w1 := w.(daemon := Refreshed(w.daemon, t));
        SetBlockKeepsConsistent(w1, t, true);
        SetBlockKeepsConsistent(w1, t, false);
      case _ => OutsideKeepsConsistent(w, s);
    }
  }

  ghost predicate RunOf(ws: seq<World>, ss: seq<Step>) {
    && |ws| == |ss| + 1
    && forall n :: 0 <= n < |ss| ==> ws[n].kernel.Listed() && ws[n + 1] == Next(ws[n], ss[n])
  }

  /** Safety over whole runs: replaying the pending events onto the daemon's
      table gives the kernel's table in every state, the head of the queue always
      fits the daemon's table, and an empty queue means equal tables. */
  lemma {:induction false} TablesConverge(ws: seq<World>, ss: seq<Step>, n: nat)
    requires RunOf(ws, ss) && Consistent(ws[0]) && n < |ws|
    ensures Replay(ws[n].daemon.table, ws[n].kernel.queue) == ws[n].kernel.table
    ensures ws[n].kernel.queue == [] ==> ws[n].daemon.table == ws[n].kernel.table
    ensures ws[n].kernel.queue != [] ==> Fits(ws[n].daemon.table, ws[n].kernel.queue[0])
    ensures Consistent(ws[n])
  {
    if n > 0 {
      TablesConverge(ws, ss, n - 1);
      StepKeepsConsistent(ws[n - 1], ss[n - 1]);
    }
  }

  /** The same without any trust in the soft bits at the start: over every run the
      daemon tracks the right devices, types and hard bits up to the queue. */
  lemma {:induction false} HardwareConverges(ws: seq<World>, ss: seq<Step>, n: nat)
    requires RunOf(ws, ss) && Aligned(ws[0]) && n < |ws|
    ensures Aligned(ws[n])
    ensures ws[n].kernel.queue == [] ==> SameHardware(ws[n].daemon.table, ws[n].kernel.table)
    ensures ws[n].kernel.queue != [] ==> Fits(ws[n].daemon.table, ws[n].kernel.queue[0])
  {
    if n > 0 {
      HardwareConverges(ws, ss, n - 1);
      StepKeepsConsistent(ws[n - 1], ss[n - 1]);
    }
  }
}
