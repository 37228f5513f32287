/** With force_sync, handling an event can write, and a write queues events. The
    feedback always dies out: every handled event lowers a measure. */
module Termination {
  import opened Rfkill
  import opened Protocol
  import opened Convergence

  function Adds(q: seq<Event>): nat {
    if q == [] then 0 else (if q[0].op == ADD then 1 else 0) + Adds(q[1..])
  }

  /** Pending CHANGE events that report an unblocked soft bit. */
  function Releases(q: seq<Event>): nat {
    if q == [] then 0 else (if q[0].op == CHANGE && !q[0].soft then 1 else 0) + Releases(q[1..])
  }

  /** How often the daemon will see a hard block go away while it replays q. */
  function FallingEdges(d: Table, q: seq<Event>): nat
    decreases |q|
  {
    if q == [] then 0
    else
      var e := q[0];
      (if e.op == CHANGE && e.idx in d && d[e.idx].hard && !e.hard then 1 else 0) + FallingEdges(Apply(d, e), q[1..])
  }

  ghost predicate Lower(w': World, w: World) {
    var q, q', d, d' := w.kernel.queue, w'.kernel.queue, w.daemon.table, w'.daemon.table;
    || Adds(q') < Adds(q)
    || (Adds(q') == Adds(q) && FallingEdges(d', q') < FallingEdges(d, q))
    || (Adds(q') == Adds(q) && FallingEdges(d', q') == FallingEdges(d, q) && Releases(q') < Releases(q))
    || (Adds(q') == Adds(q) && FallingEdges(d', q') == FallingEdges(d, q) && Releases(q') == Releases(q) && |q'| < |q|)
  }

  lemma {:induction false} CountsConcat(a: seq<Event>, b: seq<Event>)
    ensures Adds(a + b) == Adds(a) + Adds(b)
    ensures Releases(a + b) == Releases(a) + Releases(b)
  {
    if a == [] {
      assert a + b == b;
    } else {
      assert (a + b)[1..] == a[1..] + b;
      CountsConcat(a[1..], b);
    }
  }

  lemma {:induction false} EdgesConcat(d: Table, a: seq<Event>, b: seq<Event>)
    ensures FallingEdges(d, a + b) == FallingEdges(d, a) + FallingEdges(Replay(d, a), b)
    decreases |a|
  {
    if a == [] {
      assert a + b == b;
    } else {
      assert (a + b)[1..] == a[1..] + b;
      EdgesConcat(Apply(d, a[0]), a[1..], b);
    }
  }

  /** An early local update changes no hard bit, so it hides and adds no edge. */
  lemma {:induction false} EdgesIgnorePatch(d: Table, d': Table, q: seq<Event>, t: RfType, b: bool)
    requires Patch(d, d', t, b)
    ensures FallingEdges(d', q) == FallingEdges(d, q)
    decreases |q|
  {
    if q != [] {
      EdgesIgnorePatch(Apply(d, q[0]), Apply(d', q[0]), q[1..], t, b);
    }
  }

  /** The snapshots of a write contain no ADD and no falling edge, and no release
      unless the write releases. */
  lemma {:induction false} ChangesCounts(m: Table, k: Table, order: seq<nat>, t: RfType, b: bool)
    requires (forall i :: i in order ==> i in k) && SameHardware(m, k)
    ensures var cs := Changes(order, k, t, b);
            Adds(cs) == 0 && FallingEdges(m, cs) == 0 && (b ==> Releases(cs) == 0)
    decreases |order|
  {
    if order != [] {
      var i, e, rest := order[0], k[order[0]], Changes(order[1..], k, t, b);
      if e.rf == t && e.soft != b {
        var head := Event(i, t, CHANGE, b, e.hard);
        assert Changes(order, k, t, b) == [head] + rest;
        assert ([head] + rest)[1..] == rest;
        ChangesCounts(Apply(m, head), k, order[1..], t, b);
      } else {
        ChangesCounts(m, k, order[1..], t, b);
      }
    }
  }

  /** One set_soft moves no pending ADD and no pending edge. */
  lemma SetSoftCounts(w: World, i: nat, b: bool)
    requires Aligned(w) && i in w.daemon.table
    ensures var w' := SetSoft(w, i, b);
            && Adds(w'.kernel.queue) == Adds(w.kernel.queue)
            && FallingEdges(w'.daemon.table, w'.kernel.queue) == FallingEdges(w.daemon.table, w.kernel.queue)
            && (b ==> Releases(w'.kernel.queue) == Releases(w.kernel.queue))
  {
    hide Changes;
    hide Replay;
    hide FallingEdges;
    hide AllFit;
    if w.kernel.writable {
      var d, k := w.daemon.table, w.kernel;
      var t, d' := d[i].rf, d[i := d[i].(soft := b)];
      var cs := Changes(k.order, k.table, t, b);
      CountsConcat(k.queue, cs);
      EdgesConcat(d', k.queue, cs);
      EdgesIgnorePatch(d, d', k.queue, t, b);
      PatchReplay(d, d', k.queue, t, b);
      ChangesCounts(Replay(d', k.queue), k.table, k.order, t, b);
    }
  }

  lemma ChangeLowers(w: World, platform: bool)
    requires Aligned(w) && w.kernel.queue != [] && w.kernel.queue[0].op == CHANGE
    ensures Lower(Handle(w, platform), w)
  {
    var e, d, p := w.kernel.queue[0], w.daemon.table, Applied(w);
    if d[e.idx].soft == e.soft && d[e.idx].hard == e.hard {
      assert Apply(d, e) == d;
      assert Handle(w, platform) == p;
    } else if w.daemon.forceSync && e.hard && !e.soft {
      assert Handle(w, platform) == SetSoft(p, e.idx, true);
      SetSoftCounts(p, e.idx, true);
    } else if w.daemon.forceSync && d[e.idx].hard && !e.hard {
      assert Handle(w, platform) == SetSoft(p, e.idx, false);
      SetSoftCounts(p, e.idx, false);
    } else {
      assert Handle(w, platform) == p;
    }
  }

  lemma AddLowers(w: World, platform: bool)
    requires Aligned(w) && w.kernel.queue != [] && w.kernel.queue[0].op == ADD
    ensures Lower(Handle(w, platform), w)
  {
    var e, p := w.kernel.queue[0], Applied(w);
    var w1 := p.(daemon := p.daemon.(platform :=
      if platform then p.daemon.platform + {e.idx} else p.daemon.platform - {e.idx}));
    SetSoftCounts(w1, e.idx, e.soft);
    SetSoftKeepsConsistent(w1, e.idx, e.soft);
    var w2 := if w.daemon.forceSync && !platform then SetSoft(w1, e.idx, e.soft) else w1;
    SetSoftCounts(w2, e.idx, Persisted(w.daemon.persisted, e.rf));
  }

  /** Every handled event lowers the measure, whatever the daemon does about it. */
  lemma HandleLowers(w: World, platform: bool)
    requires Aligned(w) && w.kernel.queue != []
    ensures Lower(Handle(w, platform), w)
  {
    match w.kernel.queue[0].op {
      case DEL =>
      case CHANGE => ChangeLowers(w, platform);
      case ADD => AddLowers(w, platform);
    }
  }

  /** Handle events until the queue is empty. That this function exists is the
      termination claim: there is no fuel, and Dafny checks the measure. */
  ghost function Drain(w: World, udev: nat -> bool): (r: World)
    requires Aligned(w)
    ensures Aligned(r) && r.kernel.queue == []
    decreases Adds(w.kernel.queue), FallingEdges(w.daemon.table, w.kernel.queue),
              Releases(w.kernel.queue), |w.kernel.queue|
  {
    if w.kernel.queue == [] then w
    else
      var platform := udev(w.kernel.queue[0].idx);
      HandleLowers(w, platform);
      HandleKeepsConsistent(w, platform);
      Drain(Handle(w, platform), udev)
  }

  /** One turn of the loop. */
  lemma DrainOneMore(w: World, udev: nat -> bool)
    requires Aligned(w) && w.kernel.queue != []
    ensures var r := Handle(w, udev(w.kernel.queue[0].idx));
            Aligned(r) && Lower(r, w) && Drain(r, udev) == Drain(w, udev)
  {
    HandleLowers(w, udev(w.kernel.queue[0].idx));
    HandleKeepsConsistent(w, udev(w.kernel.queue[0].idx));
  }

  /** With no further outside events daemon and kernel come to rest. At rest they
      agree on devices, types and hard bits, and from a consistent start on every
      bit, with or without force_sync and persist. */
  lemma {:induction false} RestMeansAgreement(w: World, udev: nat -> bool)
    requires Aligned(w)
    ensures var r := Drain(w, udev);
            && SameHardware(r.daemon.table, r.kernel.table)
            && (Consistent(w) ==> r.daemon.table == r.kernel.table)
    decreases Adds(w.kernel.queue), FallingEdges(w.daemon.table, w.kernel.queue),
              Releases(w.kernel.queue), |w.kernel.queue|
  {
    if w.kernel.queue != [] {
      var platform := udev(w.kernel.queue[0].idx);
      DrainOneMore(w, udev);
      HandleKeepsConsistent(w, platform);
      RestMeansAgreement(Handle(w, platform), udev);
    }
  }
}
