/** What each step of the daemon leaves behind, device by device, in its own table,
    in the kernel's and in the remembered bits. The statements speak of steps and
    tables only, not of the functions that compute the steps. */
module Effects {
  import opened Rfkill
  import opened Protocol
  import opened SaveRestore
  import opened ForceSync
  import opened Convergence

  /** k' is k with the soft bit b on every device of type t, and nothing else. */
  ghost predicate TypeWritten(k: Table, k': Table, t: RfType, b: bool) {
    && k'.Keys == k.Keys
    && forall j :: j in k ==> k'[j] == Entry(k[j].rf, if k[j].rf == t then b else k[j].soft, k[j].hard)
  }

  /** The kernel after w's with one event read and a write of b to type t. */
  ghost predicate KernelWrote(k: Kernel, k': Kernel, t: RfType, b: bool) {
    && TypeWritten(k.table, k'.table, t, b)
    && k'.order == k.order && k'.writable && k.queue <= k'.queue
  }

  lemma WriteEffect(k: Kernel, t: RfType, b: bool)
    requires k.Listed() && k.writable
    ensures KernelWrote(k, Write(k, t, b), t, b)
  {
  }

  function Read(k: Kernel): Kernel
    requires k.queue != []
  {
    k.(queue := k.queue[1..])
  }

  // ---- CHANGE, ADD and DEL events -----------------------------------------

  /** A CHANGE overwrites the bits of a tracked device. With force_sync and writes
      accepted, a hard block that goes away unblocks the device and its whole type in
      the kernel, and a hard block without a soft one blocks them. In all other cases
      the kernel is left alone. */
  lemma ChangeEffect(w: World, platform: bool)
    requires w.kernel.Listed() && w.kernel.queue != [] && w.kernel.queue[0].op == CHANGE
    ensures var e, d, r := w.kernel.queue[0], w.daemon.table, Next(w, DaemonHandle(platform));
            && r.daemon == w.daemon.(table := r.daemon.table)
            && (e.idx !in d ==> r == World(Read(w.kernel), w.daemon))
            && (e.idx in d ==>
                  var was, active := d[e.idx], w.daemon.forceSync && w.kernel.writable;
                  var unblock := active && was.hard && !e.hard;
                  var block := active && e.hard && !e.soft && (was.soft || !was.hard);
                  && r.daemon.table
                     == d[e.idx := Entry(was.rf, if unblock then false else if block then true else e.soft, e.hard)]
                  && (unblock ==> KernelWrote(Read(w.kernel), r.kernel, was.rf, false))
                  && (block ==> KernelWrote(Read(w.kernel), r.kernel, was.rf, true))
                  && (!unblock && !block ==> r.kernel == Read(w.kernel)))
  {
    hide Write;
    hide KernelWrote;
    var e, d, k := w.kernel.queue[0], w.daemon.table, Read(w.kernel);
    if e.idx in d {
      if k.writable {
        WriteEffect(k, d[e.idx].rf, true);
        WriteEffect(k, d[e.idx].rf, false);
      }
      assert Entry(d[e.idx].rf, d[e.idx].soft, d[e.idx].hard) == d[e.idx];
      assert d == d[e.idx := d[e.idx]];
    }
  }

  /** An ADD of a new index lists the device. Its soft bit is then the remembered one
      with persist and writes accepted, else the event's; the kernel is written to if
      persist or, for a non-platform device, force_sync asks for it. */
  lemma AddEffect(w: World, platform: bool)
    requires w.kernel.Listed() && w.kernel.queue != [] && w.kernel.queue[0].op == ADD
    ensures var e, d, r := w.kernel.queue[0], w.daemon, Next(w, DaemonHandle(platform));
            var bit := e.rf in d.persisted && d.persisted[e.rf];
            var soft := if d.persist && w.kernel.writable then bit else e.soft;
            && (e.idx in d.table ==> r == World(Read(w.kernel), d))
            && (e.idx !in d.table ==>
                  && r.daemon.table == d.table[e.idx := Entry(e.rf, soft, e.hard)]
                  && r.daemon.platform == (if platform then d.platform + {e.idx} else d.platform - {e.idx})
                  && r.daemon == d.(table := r.daemon.table, platform := r.daemon.platform)
                  && if w.kernel.writable && (d.persist || (d.forceSync && !platform))
                     then KernelWrote(Read(w.kernel), r.kernel, e.rf, soft)
                     else r.kernel == Read(w.kernel))
  {
    hide Write;
    hide KernelWrote;
    var e, k := w.kernel.queue[0], Read(w.kernel);
    if e.idx !in w.daemon.table && k.writable {
      WriteEffect(k, e.rf, e.soft);
      var k1 := if w.daemon.forceSync && !platform then Write(k, e.rf, e.soft) else k;
      var bit := Persisted(w.daemon.persisted, e.rf);
      if w.daemon.forceSync && !platform {
        StillListed(k, k1, e.rf, e.soft);
      }
      WriteEffect(k1, e.rf, bit);
      if w.daemon.forceSync && !platform {
        WroteTwice(k, k1, Write(k1, e.rf, bit), e.rf, e.soft, bit);
      }
      AddTable(Pop(w), e, platform);
      assert Next(w, DaemonHandle(platform)).kernel == if w.daemon.persist then Write(k1, e.rf, bit) else k1;
    }
  }

  lemma StillListed(k: Kernel, k': Kernel, t: RfType, b: bool)
    requires k.Listed() && KernelWrote(k, k', t, b)
    ensures k'.Listed()
  {}

  lemma WroteTwice(k: Kernel, k1: Kernel, k2: Kernel, t: RfType, a: bool, b: bool)
    requires KernelWrote(k, k1, t, a) && KernelWrote(k1, k2, t, b)
    ensures KernelWrote(k, k2, t, b)
  {}

  /** A DEL forgets a tracked device, and with the last one of a type the state that
      was saved for the type. */
  lemma DelEffect(w: World, platform: bool)
    requires w.kernel.Listed() && w.kernel.queue != [] && w.kernel.queue[0].op == DEL
    ensures var i, d, r := w.kernel.queue[0].idx, w.daemon, Next(w, DaemonHandle(platform));
            && r.kernel == Read(w.kernel)
            && (i !in d.table ==> r.daemon == d)
            && (i in d.table ==>
                  && r.daemon == d.(table := d.table - {i}, platform := d.platform - {i}, saved := r.daemon.saved)
                  && forall t: RfType :: Saved(r.daemon.saved, t) ==
                       if t == d.table[i].rf && (forall j :: j in d.table && j != i ==> d.table[j].rf != t)
                       then NoAdapter else Saved(d.saved, t))
  {
    var i, d := w.kernel.queue[0].idx, w.daemon;
    if i in d.table {
      var t, rest := d.table[i].rf, d.table - {i};
      assert forall j :: j in rest <==> j in d.table && j != i;
      assert HasType(rest, t) <==> exists j :: j in d.table && j != i && d.table[j].rf == t;
    }
  }

  // ---- requests -----------------------------------------------------------

  ghost predicate SamePersistedBut(m: map<int, bool>, m': map<int, bool>, t: int) {
    forall u :: u != t ==> ((u in m' && m'[u]) <==> (u in m && m[u]))
  }

  /** A request for a type succeeds if the type has no device or the kernel accepts
      writes. It then is remembered, alone, and every device of the type carries it in
      both tables. A request that fails changes nothing. */
  lemma SetBlockEffect(w: World, t: RfType, b: bool)
    requires w.kernel.Listed()
    ensures var d, r := w.daemon, Next(w, DaemonSetBlock(t, b));
            var any := exists i :: i in d.table && d.table[i].rf == t;
            && SetBlockResult(w, t) == (!any || w.kernel.writable)
            && (any && !w.kernel.writable ==> r == w)
            && (!any || w.kernel.writable ==>
                  && t in r.daemon.persisted && r.daemon.persisted[t] == b
                  && SamePersistedBut(d.persisted, r.daemon.persisted, t)
                  && TypeWritten(d.table, r.daemon.table, t, b)
                  && r.daemon == d.(table := r.daemon.table, persisted := r.daemon.persisted))
            && (!any ==> r.kernel == w.kernel)
            && (any && w.kernel.writable ==> KernelWrote(w.kernel, r.kernel, t, b))
  {
    if w.kernel.writable {
      WriteEffect(w.kernel, t, b);
    }
  }

  /** A request for one device updates that device in the daemon's table and all of
      its type in the kernel's; nothing is remembered. */
  lemma SetBlockIdxEffect(w: World, i: nat, b: bool)
    requires w.kernel.Listed()
    ensures var d, r := w.daemon.table, Next(w, DaemonSetBlockIdx(i, b));
            if i in d && w.kernel.writable
            then && r.daemon == w.daemon.(table := d[i := Entry(d[i].rf, b, d[i].hard)])
                 && KernelWrote(w.kernel, r.kernel, d[i].rf, b)
            else r == w
  {
    if i in w.daemon.table && w.kernel.writable {
      WriteEffect(w.kernel, w.daemon.table[i].rf, b);
    }
  }

  /** A key press of a type with devices, with writes accepted, blocks all of them,
      unless the aggregate is SOFT; then it unblocks them. The type remembers that. */
  lemma KeyPressTables(w: World, t: RfType)
    requires w.kernel.Listed()
    ensures var d, r := w.daemon, Next(w, DaemonKeyPress(t));
            var b := StateOf(d, t) != SoftBlocked;
            if w.kernel.writable && exists i :: i in d.table && d.table[i].rf == t
            then && TypeWritten(d.table, r.daemon.table, t, b) && KernelWrote(w.kernel, r.kernel, t, b)
                 && t in r.daemon.persisted && r.daemon.persisted[t] == b
                 && SamePersistedBut(d.persisted, r.daemon.persisted, t)
            else r.daemon.table == d.table && r.kernel == w.kernel && r.daemon.persisted == d.persisted
  {
    hide StateOf;
    hide SetBlock;
    hide KernelWrote;
    hide TypeWritten;
    hide SamePersistedBut;
    NoAdapterMeansNone(w.daemon, t);
    var w1 := w.(daemon := Refreshed(w.daemon, t));
    SetBlockEffect(w1, t, StateOf(w.daemon, t) != SoftBlocked);
  }

  // ---- flight mode --------------------------------------------------------

  /** What an "off" leaves blocked: a type whose aggregate is the one saved for it,
      SOFT or HARD. */
  predicate KeptBlocked(d: Daemon, t: RfType) {
    && t in d.saved && d.saved[t] == StateOf(d, t)
    && (StateOf(d, t) == SoftBlocked || StateOf(d, t) == HardBlocked)
  }

  /** The bit that flight mode asks of a type with devices. */
  predicate Flight(d: Daemon, t: RfType, on: bool) {
    on || KeptBlocked(d, t)
  }

  lemma WantIsFlight(d: Daemon, t: RfType, on: bool)
    requires HasType(d.table, t)
    ensures WantBlock(d, t, on) == Flight(d, t, on)
  {
    NoAdapterMeansNone(d, t);
  }

  /** The kernel's table and the remembered bits after the types from t on. */
  ghost predicate FlownKernel(w: World, r: World, t: int, on: bool) {
    var d, k, k' := w.daemon, w.kernel.table, r.kernel.table;
    && k'.Keys == k.Keys
    && (forall j :: j in k ==>
          k'[j] == if k[j].rf >= t && HasType(d.table, k[j].rf)
                   then Entry(k[j].rf, WantBlock(d, k[j].rf, on), k[j].hard) else k[j])
    && (forall u: RfType :: Persisted(r.daemon.persisted, u) ==
          if u >= t && HasType(d.table, u) then WantBlock(d, u, on) else Persisted(d.persisted, u))
  }

  lemma {:induction false} FlightKernel(w: World, t: int, on: bool)
    requires RFKILL_TYPE_ALL < t <= NUM_RFKILL_TYPES && w.kernel.Listed() && w.kernel.writable
    ensures FlownKernel(w, FlightFrom(w, t, on), t, on)
    decreases NUM_RFKILL_TYPES - t
  {
    hide WantBlock;
    if t < NUM_RFKILL_TYPES {
      var w1 := FlightType(w, t, on);
      FlightTypeEffect(w, t, on);
      FlightTypeKernel(w, t, on);
      FlightKernel(w1, t + 1, on);
      FlownKernelOneMore(w, w1, FlightFrom(w, t, on), t, on);
    }
  }

  ghost predicate FlewKernel(w: World, r: World, t: RfType, on: bool) {
    var d, b := w.daemon, WantBlock(w.daemon, t, on);
    && (if HasType(d.table, t) then TypeWritten(w.kernel.table, r.kernel.table, t, b)
        else r.kernel.table == w.kernel.table)
    && (forall u: RfType :: Persisted(r.daemon.persisted, u) ==
          if u == t && HasType(d.table, t) then b else Persisted(d.persisted, u))
  }

  lemma FlightTypeKernel(w: World, t: RfType, on: bool)
    requires w.kernel.Listed() && w.kernel.writable
    ensures FlewKernel(w, FlightType(w, t, on), t, on)
  {
    hide WantBlock;
    NoAdapterMeansNone(w.daemon, t);
    WriteEffect(w.kernel, t, WantBlock(w.daemon, t, on));
  }

  lemma FlownKernelOneMore(w: World, w1: World, r: World, t: RfType, on: bool)
    requires FlewType(w, w1, t, on) && FlewKernel(w, w1, t, on) && FlownKernel(w1, r, t + 1, on)
    ensures FlownKernel(w, r, t, on)
  {
    hide StateOf;
    assert forall u: RfType :: u != t ==> WantBlock(w1.daemon, u, on) == WantBlock(w.daemon, u, on);
    forall u: RfType ensures HasType(w1.daemon.table, u) == HasType(w.daemon.table, u) {
      SameTypes(w.daemon.table, w1.daemon.table, u);
    }
  }

  lemma SameTypes(d: Table, d': Table, t: RfType)
    requires d.Keys == d'.Keys && forall i :: i in d ==> d'[i].rf == d[i].rf
    ensures HasType(d', t) == HasType(d, t)
  {}

  /** What the tables and bits are after flight mode, type by type. */
  ghost predicate Flown(w: World, r: World, on: bool) {
    var d, k := w.daemon, w.kernel.table;
    && FlownTable(d, r.daemon.table, on)
    && r.kernel.table.Keys == k.Keys
    && (forall j :: j in k ==>
          r.kernel.table[j] ==
          Entry(k[j].rf, if HasType(d.table, k[j].rf) then Flight(d, k[j].rf, on) else k[j].soft, k[j].hard))
    && (forall t: RfType :: Persisted(r.daemon.persisted, t) ==
          if HasType(d.table, t) then Flight(d, t, on) else Persisted(d.persisted, t))
    && Persisted(r.daemon.persisted, RFKILL_TYPE_ALL) == on
  }

  ghost predicate FlownTable(d: Daemon, after: Table, on: bool) {
    && after.Keys == d.table.Keys
    && forall i :: i in d.table ==> after[i] == Entry(d.table[i].rf, Flight(d, d.table[i].rf, on), d.table[i].hard)
  }

  lemma FlownTableFrom(w: World, r: World, on: bool)
    requires WantedFrom(w.daemon, r.daemon, 1, on)
    requires forall t: RfType :: HasType(w.daemon.table, t) ==> WantBlock(w.daemon, t, on) == Flight(w.daemon, t, on)
    ensures FlownTable(w.daemon, r.daemon.table, on)
  {
    hide WantBlock;
    hide Flight;
    forall i | i in w.daemon.table ensures HasType(w.daemon.table, w.daemon.table[i].rf) {}
  }

  lemma FlightTablesFrom(w: World, w0: World, r: World, on: bool)
    requires w0 == w.(daemon := w.daemon.(persisted := w.daemon.persisted[RFKILL_TYPE_ALL := on]))
    requires FlownTable(w.daemon, r.daemon.table, on) && FlownKernel(w0, r, 1, on)
    requires RFKILL_TYPE_ALL in r.daemon.persisted && r.daemon.persisted[RFKILL_TYPE_ALL] == on
    requires forall t: RfType :: HasType(w.daemon.table, t) ==> WantBlock(w0.daemon, t, on) == Flight(w.daemon, t, on)
    ensures Flown(w, r, on)
  {
    hide WantBlock;
    hide Flight;
    hide FlownTable;
    hide HasType;
  }

  /** Flight mode with writes accepted. "On" blocks every tracked device; "off"
      unblocks every one but those of a type whose saved state is its aggregate and a
      block. The kernel's devices of the tracked types follow, and each such type
      remembers its bit. */
  lemma FlightTables(w: World, on: bool)
    requires w.kernel.Listed() && w.kernel.writable
    ensures Flown(w, Next(w, DaemonFlightMode(on)), on)
  {
    hide WantBlock;
    hide Flight;
    hide FlightFrom;
    hide FlownKernel;
    hide Flown;
    hide FlownTable;
    hide WantedFrom;
    var d := w.daemon;
    var w0 := w.(daemon := d.(persisted := d.persisted[RFKILL_TYPE_ALL := on]));
    FlightModeEffect(w, on);
    FlightKernel(w0, RFKILL_TYPE_ALL + 1, on);
    FlightRemembered(w0, RFKILL_TYPE_ALL + 1, on);
    forall t: RfType | HasType(d.table, t)
      ensures WantBlock(d, t, on) == WantBlock(w0.daemon, t, on) == Flight(d, t, on)
    {
      WantIsFlight(d, t, on);
      SameWant(d, w0.daemon, t, on);
    }
    FlownTableFrom(w, FlightFrom(w0, RFKILL_TYPE_ALL + 1, on), on);
    FlightTablesFrom(w, w0, FlightFrom(w0, RFKILL_TYPE_ALL + 1, on), on);
  }

  lemma SameWant(d: Daemon, d': Daemon, t: RfType, on: bool)
    requires d' == d.(persisted := d'.persisted)
    ensures WantBlock(d', t, on) == WantBlock(d, t, on)
  {}

  /** With nothing saved, as after a restart, "off" unblocks every device. */
  lemma OffWithoutOn(w: World)
    requires w.kernel.Listed() && w.kernel.writable && w.daemon.saved == map[]
    ensures var r := Next(w, DaemonFlightMode(false)).daemon.table;
            r.Keys == w.daemon.table.Keys && forall i :: i in r ==> !r[i].soft
  {
    FlightTables(w, false);
  }

  /** With writes refused only the bit of flight mode itself is remembered. */
  lemma FlightRefused(w: World, on: bool)
    requires w.kernel.Listed() && !w.kernel.writable
    ensures var r := Next(w, DaemonFlightMode(on));
            && r.kernel == w.kernel && r.daemon.table == w.daemon.table
            && r.daemon.persisted == w.daemon.persisted[RFKILL_TYPE_ALL := on]
  {
    var w0 := w.(daemon := w.daemon.(persisted := w.daemon.persisted[RFKILL_TYPE_ALL := on]));
    FlightRefusedFrom(w0, RFKILL_TYPE_ALL + 1, on);
  }

  lemma {:induction false} FlightRefusedFrom(w: World, t: int, on: bool)
    requires RFKILL_TYPE_ALL < t <= NUM_RFKILL_TYPES && w.kernel.Listed() && !w.kernel.writable
    ensures FlightFrom(w, t, on) == w.(daemon := w.daemon.(saved := FlightFrom(w, t, on).daemon.saved))
    decreases NUM_RFKILL_TYPES - t
  {
    if t < NUM_RFKILL_TYPES {
      NoAdapterMeansNone(w.daemon, t);
      FlightRefusedFrom(FlightType(w, t, on), t + 1, on);
    }
  }

  // ---- what is remembered over runs ---------------------------------------

  /** The bit that a step asks of a type, if it asks and succeeds: a request, flight
      mode, or a press of its key. */
  ghost function Asked(w: World, s: Step, t: RfType): Option<bool> {
    var any := exists i :: i in w.daemon.table && w.daemon.table[i].rf == t;
    match s
    case DaemonSetBlock(u, b) => if u == t && (!any || w.kernel.writable) then Some(b) else None
    case DaemonFlightMode(on) =>
      if any && w.kernel.writable then Some(on || KeptBlocked(w.daemon, t)) else None
    case DaemonKeyPress(u) =>
      if u == t && any && w.kernel.writable then Some(StateOf(w.daemon, t) != SoftBlocked) else None
    case _ => None
  }

  lemma StepRemembers(w: World, s: Step, t: RfType)
    requires w.kernel.Listed()
    ensures Persisted(Next(w, s).daemon.persisted, t)
         == (if Asked(w, s, t).Some? then Asked(w, s, t).value else Persisted(w.daemon.persisted, t))
    ensures Next(w, s).daemon.persist == w.daemon.persist
  {
    hide StateOf;
    hide KernelWrote;
    hide TypeWritten;
    hide KeptBlocked;
    hide Write;
    hide FlightFrom;
    match s {
      case DaemonHandle(platform) =>
        if w.kernel.queue != [] {
          match w.kernel.queue[0].op {
            case CHANGE => ChangeEffect(w, platform);
            case ADD => AddEffect(w, platform);
            case DEL => DelEffect(w, platform);
          }
        }
      case DaemonSetBlock(u, b) => SetBlockEffect(w, u, b);
      case DaemonSetBlockIdx(i, b) => SetBlockIdxEffect(w, i, b);
      case DaemonFlightMode(on) =>
        FlightPersists(w, on);
        if w.kernel.writable { FlightTables(w, on); } else { FlightRefused(w, on); }
      case DaemonKeyPress(u) => KeyPressTables(w, u);
      case _ =>
    }
  }

  lemma FlightPersists(w: World, on: bool)
    requires w.kernel.Listed()
    ensures Next(w, DaemonFlightMode(on)).daemon.persist == w.daemon.persist
  {
    var w0 := w.(daemon := w.daemon.(persisted := w.daemon.persisted[RFKILL_TYPE_ALL := on]));
    FlightPersistsFrom(w0, RFKILL_TYPE_ALL + 1, on);
  }

  lemma {:induction false} FlightPersistsFrom(w: World, t: int, on: bool)
    requires RFKILL_TYPE_ALL < t <= NUM_RFKILL_TYPES && w.kernel.Listed()
    ensures FlightFrom(w, t, on).daemon.persist == w.daemon.persist
    decreases NUM_RFKILL_TYPES - t
  {
    if t < NUM_RFKILL_TYPES {
      FlightPersistsFrom(FlightType(w, t, on), t + 1, on);
    }
  }

  /** In every state of a run a type remembers the bit of the last step that asked it
      successfully. */
  lemma {:induction false} LastAskedIsRemembered(ws: seq<World>, ss: seq<Step>, m: nat, n: nat, t: RfType)
    requires RunOf(ws, ss) && m < n < |ws| && Asked(ws[m], ss[m], t).Some?
    requires forall l :: m < l < n ==> Asked(ws[l], ss[l], t) == None
    ensures Persisted(ws[n].daemon.persisted, t) == Asked(ws[m], ss[m], t).value
  {
    hide Asked;
    hide Next;
    StepRemembers(ws[n - 1], ss[n - 1], t);
    if m < n - 1 {
      LastAskedIsRemembered(ws, ss, m, n - 1, t);
    }
  }

  /** As long as no step asked a type, it remembers what it did at the start. */
  lemma {:induction false} NeverAskedIsKept(ws: seq<World>, ss: seq<Step>, n: nat, t: RfType)
    requires RunOf(ws, ss) && n < |ws| && forall l :: 0 <= l < n ==> Asked(ws[l], ss[l], t) == None
    ensures Persisted(ws[n].daemon.persisted, t) == Persisted(ws[0].daemon.persisted, t)
  {
    hide Asked;
    hide Next;
    if n > 0 {
      StepRemembers(ws[n - 1], ss[n - 1], t);
      NeverAskedIsKept(ws, ss, n - 1, t);
    }
  }

  lemma {:induction false} PersistStays(ws: seq<World>, ss: seq<Step>, n: nat)
    requires RunOf(ws, ss) && n < |ws|
    ensures ws[n].daemon.persist == ws[0].daemon.persist
  {
    hide Asked;
    hide Next;
    if n > 0 {
      StepRemembers(ws[n - 1], ss[n - 1], 1);
      PersistStays(ws, ss, n - 1);
    }
  }

  /** With persist and writes accepted, a device that appears later starts with the
      bit its type was last asked for, and so does its whole type in the kernel. */
  lemma NewDeviceCarriesLastAsked(ws: seq<World>, ss: seq<Step>, m: nat, n: nat, platform: bool)
    requires RunOf(ws, ss) && m < n < |ss| && ws[0].daemon.persist && ws[n].kernel.writable
    requires ss[n] == DaemonHandle(platform) && ws[n].kernel.queue != [] && ws[n].kernel.queue[0].op == ADD
    requires ws[n].kernel.queue[0].idx !in ws[n].daemon.table
    requires var t := ws[n].kernel.queue[0].rf;
             Asked(ws[m], ss[m], t).Some? && forall l :: m < l < n ==> Asked(ws[l], ss[l], t) == None
    ensures var e := ws[n].kernel.queue[0];
            var b, k := Asked(ws[m], ss[m], e.rf).value, ws[n + 1].kernel.table;
            && ws[n + 1].daemon.table == ws[n].daemon.table[e.idx := Entry(e.rf, b, e.hard)]
            && forall j :: j in k && k[j].rf == e.rf ==> k[j].soft == b
  {
    hide Asked;
    hide Next;
    LastAskedIsRemembered(ws, ss, m, n, ws[n].kernel.queue[0].rf);
    PersistStays(ws, ss, n);
    AddEffect(ws[n], platform);
  }
}
