/** What force_sync promises: a hard-blocked device is soft-blocked too. */
module ForceSync {
  import opened Rfkill
  import opened Protocol
  import opened Convergence
  import opened Termination
  import opened SaveRestore

  predicate HardImpliesSoft(d: Table) {
    forall i :: i in d && d[i].hard ==> d[i].soft
  }

  predicate HasHard(d: Table, t: RfType) {
    exists i :: i in d && d[i].rf == t && d[i].hard
  }

  /** The soft bit a new device ends up with. */
  predicate FirstSoft(w: World, e: Event) {
    if w.daemon.persist && w.kernel.writable then Persisted(w.daemon.persisted, e.rf) else e.soft
  }

  /** Which steps keep the promise; every one can be checked before the step. */
  predicate Keeps(w: World, s: Step) {
    var d, k := w.daemon, w.kernel;
    match s
    case DaemonHandle(platform) =>
      k.queue == [] ||
      (var e := k.queue[0];
       match e.op
       case DEL => true
       case CHANGE => e.idx !in d.table || !e.hard || e.soft || k.writable
       case ADD => e.idx in d.table || !e.hard || FirstSoft(w, e))
    case DaemonSetBlock(t, b) => !k.writable || b || !HasHard(d.table, t)
    case DaemonSetBlockIdx(i, b) => !k.writable || b || i !in d.table || !d.table[i].hard
    case DaemonFlightMode(b) => !k.writable || forall t: RfType :: HasHard(d.table, t) ==> WantBlock(d, t, b)
    case DaemonKeyPress(t) => !k.writable || StateOf(d, t) != SoftBlocked || !HasHard(d.table, t)
    case _ => true
  }

  lemma OverwriteKeepsIff(d: Table, i: nat, e: Entry)
    requires forall j :: j in d && j != i && d[j].hard ==> d[j].soft
    ensures HardImpliesSoft(d[i := e]) <==> (e.hard ==> e.soft)
  {
    assert d[i := e][i] == e;
  }

  lemma AddTable(w: World, e: Event, platform: bool)
    requires w.kernel.Listed() && e.idx !in w.daemon.table
    ensures AddDevice(w, e, platform).daemon.table == w.daemon.table[e.idx := Entry(e.rf, FirstSoft(w, e), e.hard)]
  {}

  lemma SetSoftTable(w: World, i: nat, b: bool)
    requires w.kernel.Listed()
    ensures SetBlockIdx(w, i, b).daemon.table ==
            if i in w.daemon.table && w.kernel.writable
            then w.daemon.table[i := w.daemon.table[i].(soft := b)] else w.daemon.table
  {}

  lemma ChangeTable(w: World, i: nat, soft: bool, hard: bool)
    requires w.kernel.Listed() && i in w.daemon.table && w.daemon.forceSync && HardImpliesSoft(w.daemon.table)
    ensures var d, r := w.daemon.table, UpdateDevice(w, i, soft, hard).daemon.table;
            exists s: bool ::
              r == d[i := d[i].(soft := s, hard := hard)] && (hard ==> (s <==> soft || w.kernel.writable))
  {
    var d := w.daemon.table;
    var w1 := w.(daemon := w.daemon.(table := d[i := d[i].(soft := soft, hard := hard)]));
    SetSoftTable(w1, i, true);
    SetSoftTable(w1, i, false);
    if d[i].soft == soft && d[i].hard == hard {
      assert d == d[i := d[i].(soft := soft, hard := hard)];
    } else if hard && !soft && w.kernel.writable {
      assert UpdateDevice(w, i, soft, hard).daemon.table == d[i := d[i].(soft := true, hard := hard)];
    } else if d[i].hard && !hard && w.kernel.writable {
      assert UpdateDevice(w, i, soft, hard).daemon.table == d[i := d[i].(soft := false, hard := hard)];
    } else {
      assert UpdateDevice(w, i, soft, hard).daemon.table == d[i := d[i].(soft := soft, hard := hard)];
    }
  }

  lemma HandleKeepsIff(w: World, platform: bool)
    requires w.kernel.Listed() && w.kernel.queue != [] && w.daemon.forceSync && HardImpliesSoft(w.daemon.table)
    ensures HardImpliesSoft(Handle(w, platform).daemon.table) <==> Keeps(w, DaemonHandle(platform))
  {
    var e, d, p := w.kernel.queue[0], w.daemon.table, Pop(w);
    match e.op {
      case DEL =>
        var r := Handle(w, platform).daemon.table;
        assert forall i :: i in r ==> i in d && r[i] == d[i];
      case CHANGE =>
        if e.idx in d {
          ChangeTable(p, e.idx, e.soft, e.hard);
          assert Handle(w, platform) == UpdateDevice(p, e.idx, e.soft, e.hard);
        }
      case ADD =>
        if e.idx !in d {
          AddTable(p, e, platform);
          OverwriteKeepsIff(d, e.idx, Entry(e.rf, FirstSoft(w, e), e.hard));
          assert Handle(w, platform) == AddDevice(p, e, platform);
        }
    }
  }

  lemma SetBlockKeepsIff(w: World, t: RfType, b: bool)
    requires w.kernel.Listed() && HardImpliesSoft(w.daemon.table)
    ensures HardImpliesSoft(SetBlock(w, t, b).daemon.table) <==> Keeps(w, DaemonSetBlock(t, b))
  {
    var d, r := w.daemon.table, SetBlock(w, t, b).daemon.table;
    if HasType(d, t) && w.kernel.writable {
      assert forall i :: i in r <==> i in d;
      assert forall i :: i in d ==> r[i].hard == d[i].hard;
      if i :| i in d && d[i].rf == t && d[i].hard {
        assert r[i].soft == b;
      }
    }
  }

  /** A write that the kernel refuses leaves the daemon's table alone. */
  lemma {:induction false} RefusedFlight(w: World, t: int, b: bool)
    requires RFKILL_TYPE_ALL < t <= NUM_RFKILL_TYPES && w.kernel.Listed() && !w.kernel.writable
    ensures FlightFrom(w, t, b).daemon.table == w.daemon.table
    decreases NUM_RFKILL_TYPES - t
  {
    if t < NUM_RFKILL_TYPES {
      RefusedFlight(FlightType(w, t, b), t + 1, b);
    }
  }

  lemma WantedKeepsIff(d: Daemon, r: Daemon, b: bool)
    requires WantedFrom(d, r, RFKILL_TYPE_ALL + 1, b)
    ensures HardImpliesSoft(r.table) <==> forall t: RfType :: HasHard(d.table, t) ==> WantBlock(d, t, b)
  {
    hide WantBlock;
    assert forall i :: i in r.table <==> i in d.table;
    if HardImpliesSoft(r.table) {
      forall t: RfType | HasHard(d.table, t) ensures WantBlock(d, t, b) {
        var i :| i in d.table && d.table[i].rf == t && d.table[i].hard;
        assert r.table[i].hard;
      }
    }
    forall i | i in r.table && r.table[i].hard ensures HasHard(d.table, d.table[i].rf) {}
  }

  lemma FlightKeepsIff(w: World, b: bool)
    requires w.kernel.Listed() && HardImpliesSoft(w.daemon.table)
    ensures HardImpliesSoft(FlightMode(w, b).daemon.table) <==> Keeps(w, DaemonFlightMode(b))
  {
    hide WantBlock;
    hide HardImpliesSoft;
    var d := w.daemon;
    if w.kernel.writable {
      FlightModeEffect(w, b);
      WantedKeepsIff(d, FlightMode(w, b).daemon, b);
    } else {
      RefusedFlight(w.(daemon := d.(persisted := d.persisted[RFKILL_TYPE_ALL := b])), 1, b);
    }
  }

  /** Step by step: the promise survives exactly the steps Keeps names. */
  lemma StepKeepsIff(w: World, s: Step)
    requires w.kernel.Listed() && w.daemon.forceSync && HardImpliesSoft(w.daemon.table)
    ensures HardImpliesSoft(Next(w, s).daemon.table) <==> Keeps(w, s)
  {
    match s {
      case DaemonHandle(platform) => if w.kernel.queue != [] { HandleKeepsIff(w, platform); }
      case DaemonSetBlock(t, b) => SetBlockKeepsIff(w, t, b);
      case DaemonFlightMode(b) => FlightKeepsIff(w, b);
      case DaemonSetBlockIdx(i, b) =>
        SetSoftTable(w, i, b);
        if i in w.daemon.table {
          OverwriteKeepsIff(w.daemon.table, i, w.daemon.table[i].(soft := b));
        }
      case DaemonKeyPress(t) =>
        NoAdapterMeansNone(w.daemon, t);
        var w1 := w.(daemon := Refreshed(w.daemon, t));
        SetBlockKeepsIff(w1, t, true);
        SetBlockKeepsIff(w1, t, false);
      case _ =>
    }
  }

  /** A hard-blocked WLAN radio that somebody unblocks: the promise is gone. */
  lemma UnblockBreaksIt()
    ensures var t := map[0 := Entry(1, true, true)];
            var w := World(Kernel(t, [0], [], true), Daemon(t, {}, map[], map[], true, false));
            && w.kernel.Listed() && w.daemon.forceSync && HardImpliesSoft(w.daemon.table)
            && !HardImpliesSoft(Next(w, DaemonSetBlock(1, false)).daemon.table)
  {
    var t := map[0 := Entry(1, true, true)];
    var w := World(Kernel(t, [0], [], true), Daemon(t, {}, map[], map[], true, false));
    assert 0 in t && HasHard(t, 1);
    StepKeepsIff(w, DaemonSetBlock(1, false));
  }

  /** Handling CHANGE and DEL events with writes that succeed always keeps it. */
  lemma SyncReactionsKeep(w: World, platform: bool)
    requires w.kernel.Listed() && w.kernel.queue != [] && w.daemon.forceSync && HardImpliesSoft(w.daemon.table)
    requires w.kernel.writable && w.kernel.queue[0].op != ADD
    ensures HardImpliesSoft(Handle(w, platform).daemon.table)
  {
    HandleKeepsIff(w, platform);
  }

  /** Over a whole run of steps that keep it, from any table that has it, the promise
      holds in the daemon's table after every step. */
  lemma {:induction false} HardImpliesSoftOverRuns(ws: seq<World>, ss: seq<Step>, n: nat)
    requires RunOf(ws, ss) && n < |ws|
    requires ws[0].daemon.forceSync && HardImpliesSoft(ws[0].daemon.table)
    requires forall j :: 0 <= j < n ==> Keeps(ws[j], ss[j])
    ensures ws[n].daemon.forceSync && HardImpliesSoft(ws[n].daemon.table)
  {
    if n > 0 {
      HardImpliesSoftOverRuns(ws, ss, n - 1);
      StepKeepsIff(ws[n - 1], ss[n - 1]);
      ForceSyncStays(ws[n - 1], ss[n - 1]);
    }
  }

  /** From a consistent start it then holds in the kernel's table too whenever the
      queue is empty. */
  lemma HardImpliesSoftInKernel(ws: seq<World>, ss: seq<Step>, n: nat)
    requires RunOf(ws, ss) && Consistent(ws[0]) && n < |ws| && ws[n].kernel.queue == []
    requires ws[0].daemon.forceSync && HardImpliesSoft(ws[0].daemon.table)
    requires forall j :: 0 <= j < n ==> Keeps(ws[j], ss[j])
    ensures HardImpliesSoft(ws[n].kernel.table)
  {
    TablesConverge(ws, ss, n);
    HardImpliesSoftOverRuns(ws, ss, n);
  }

  // ---- runs in which nothing is added and nobody asks for anything --------

  /** The outside world deletes and changes devices, and the daemon reacts. */
  predicate Unasked(s: Step) {
    s.OutsideDel? || s.OutsideChange? || s.DaemonHandle?
  }

  lemma {:induction false} ChangesAddNothing(order: seq<nat>, k: Table, t: RfType, b: bool)
    requires forall i :: i in order ==> i in k
    ensures Adds(Changes(order, k, t, b)) == 0
  {
    if order != [] {
      ChangesAddNothing(order[1..], k, t, b);
      CountsConcat([Event(order[0], t, CHANGE, b, k[order[0]].hard)], Changes(order[1..], k, t, b));
    }
  }

  lemma SetSoftAddsNothing(w: World, i: nat, b: bool)
    requires w.kernel.Listed()
    ensures Adds(SetBlockIdx(w, i, b).kernel.queue) == Adds(w.kernel.queue)
  {
    if i in w.daemon.table && w.kernel.writable {
      var t := w.daemon.table[i].rf;
      ChangesAddNothing(w.kernel.order, w.kernel.table, t, b);
      CountsConcat(w.kernel.queue, Changes(w.kernel.order, w.kernel.table, t, b));
    }
  }

  lemma UnaskedAddsNothing(w: World, s: Step)
    requires w.kernel.Listed() && Unasked(s) && Adds(w.kernel.queue) == 0
    ensures Adds(Next(w, s).kernel.queue) == 0 && Next(w, s).kernel.writable == w.kernel.writable
  {
    match s {
      case OutsideDel(i) =>
        if i in w.kernel.table {
          var e := w.kernel.table[i];
          CountsConcat(w.kernel.queue, [Event(i, e.rf, DEL, e.soft, e.hard)]);
        }
      case OutsideChange(i, soft, hard) =>
        if i in w.kernel.table {
          CountsConcat(w.kernel.queue, [Event(i, w.kernel.table[i].rf, CHANGE, soft, hard)]);
        }
      case DaemonHandle(platform) =>
        if w.kernel.queue != [] {
          UpdateAddsNothing(Pop(w), w.kernel.queue[0]);
        }
    }
  }

  lemma UpdateAddsNothing(w: World, e: Event)
    requires w.kernel.Listed()
    ensures var r := UpdateDevice(w, e.idx, e.soft, e.hard);
            Adds(r.kernel.queue) == Adds(w.kernel.queue) && r.kernel.writable == w.kernel.writable
  {
    var d := w.daemon.table;
    if e.idx in d {
      var w1 := w.(daemon := w.daemon.(table := d[e.idx := d[e.idx].(soft := e.soft, hard := e.hard)]));
      SetSoftAddsNothing(w1, e.idx, e.hard);
    }
  }

  /** With force_sync and writes accepted, no run of CHANGE and DEL events and the
      daemon's own reactions ever breaks the promise: nothing is asked of the steps. */
  lemma {:induction false} HardImpliesSoftUnasked(ws: seq<World>, ss: seq<Step>, n: nat)
    requires RunOf(ws, ss) && n < |ws|
    requires ws[0].daemon.forceSync && HardImpliesSoft(ws[0].daemon.table)
    requires ws[0].kernel.writable && Adds(ws[0].kernel.queue) == 0 && forall s :: s in ss ==> Unasked(s)
    ensures ws[n].kernel.writable && Adds(ws[n].kernel.queue) == 0
    ensures ws[n].daemon.forceSync && HardImpliesSoft(ws[n].daemon.table)
    ensures Consistent(ws[0]) && ws[n].kernel.queue == [] ==> HardImpliesSoft(ws[n].kernel.table)
  {
    if n > 0 {
      var w, s := ws[n - 1], ss[n - 1];
      HardImpliesSoftUnasked(ws, ss, n - 1);
      UnaskedAddsNothing(w, s);
      StepKeepsIff(w, s);
      ForceSyncStays(w, s);
    }
    if Consistent(ws[0]) {
      TablesConverge(ws, ss, n);
    }
  }

  lemma {:induction false} FlightForceSync(w: World, t: int, b: bool)
    requires RFKILL_TYPE_ALL < t <= NUM_RFKILL_TYPES && w.kernel.Listed()
    ensures FlightFrom(w, t, b).daemon.forceSync == w.daemon.forceSync
    decreases NUM_RFKILL_TYPES - t
  {
    if t < NUM_RFKILL_TYPES {
      FlightForceSync(FlightType(w, t, b), t + 1, b);
    }
  }

  lemma ForceSyncStays(w: World, s: Step)
    requires w.kernel.Listed()
    ensures Next(w, s).daemon.forceSync == w.daemon.forceSync
  {
    if s.DaemonFlightMode? {
      FlightForceSync(w.(daemon := w.daemon.(persisted := w.daemon.persisted[RFKILL_TYPE_ALL := s.b])), 1, s.b);
    }
  }
}
