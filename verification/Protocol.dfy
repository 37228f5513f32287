/** The daemon, the kernel and the event queue between them, on values.

    The kernel is the environment: a table of devices, the order in which it
    lists them, a FIFO of events for the daemon and a flag saying whether it
    accepts writes. The daemon keeps its own table and never looks at the
    kernel's; it learns of changes through the queue only, and it overwrites its
    own copy as soon as a write goes through. */
module Protocol {
  import opened Rfkill
  import opened Aggregate

  datatype Entry = Entry(rf: RfType, soft: bool, hard: bool)

  type Table = map<nat, Entry>

  datatype Op = ADD | DEL | CHANGE

  datatype Event = Event(idx: nat, rf: RfType, op: Op, soft: bool, hard: bool)

  datatype Kernel = Kernel(table: Table, order: seq<nat>, queue: seq<Event>, writable: bool) {
    /** The kernel's list holds exactly the devices of its table. */
    ghost predicate Listed() {
      forall i :: i in order <==> i in table
    }
  }

  datatype Daemon = Daemon(
    table: Table,
    platform: set<nat>,
    saved: map<RfType, KillswitchState>,
    persisted: map<int, bool>,
    forceSync: bool,
    persist: bool)

  datatype World = World(kernel: Kernel, daemon: Daemon)

  /** What a key file answers for a type it has never stored is FALSE. */
  function Persisted(m: map<int, bool>, t: int): bool {
    t in m && m[t]
  }

  function Saved(m: map<RfType, KillswitchState>, t: RfType): KillswitchState {
    if t in m then m[t] else NoAdapter
  }

  predicate HasType(d: Table, t: RfType) {
    exists i :: i in d && d[i].rf == t
  }

  /** The devices of one type as the killswitch of that type sees them. */
  function Switches(d: Table, platform: set<nat>, t: RfType): set<Switch> {
    set i | i in d && d[i].rf == t :: Switch(i in platform, d[i].soft, d[i].hard)
  }

  function StateOf(d: Daemon, t: RfType): KillswitchState {
    AggregateOf(Switches(d.table, d.platform, t))
  }

  // ---- the kernel ---------------------------------------------------------

  function WriteAll(k: Table, t: RfType, b: bool): Table {
    map i | i in k :: if k[i].rf == t then k[i].(soft := b) else k[i]
  }

  /** One snapshot for every listed device whose soft bit the write changes. */
  function Changes(order: seq<nat>, k: Table, t: RfType, b: bool): seq<Event>
    requires forall i :: i in order ==> i in k
  {
    if order == [] then []
    else
      var e := k[order[0]];
      var rest := Changes(order[1..], k, t, b);
      if e.rf == t && e.soft != b then [Event(order[0], t, CHANGE, b, e.hard)] + rest else rest
  }

  /** A CHANGE_ALL write: type-wide, and silent when the kernel refuses it. */
  function Write(k: Kernel, t: RfType, b: bool): Kernel
    requires k.Listed()
  {
    if !k.writable then k
    else k.(table := WriteAll(k.table, t, b), queue := k.queue + Changes(k.order, k.table, t, b))
  }

  // ---- the daemon ---------------------------------------------------------

  /** The write asked for by one device, then the early update of its own copy. */
  function SetSoft(w: World, i: nat, b: bool): World
    requires w.kernel.Listed() && i in w.daemon.table
  {
    if !w.kernel.writable then w
    else
      var d := w.daemon.table;
      World(Write(w.kernel, d[i].rf, b), w.daemon.(table := d[i := d[i].(soft := b)]))
  }

  function SetBlockIdx(w: World, i: nat, b: bool): World
    requires w.kernel.Listed()
  {
    if i in w.daemon.table then SetSoft(w, i, b) else w
  }

  /** The whole effect of asking the killswitch of a type to (un)block. A type
      without devices counts as a success and is remembered. */
  function SetBlock(w: World, t: RfType, b: bool): World
    requires w.kernel.Listed()
  {
    var remembered := w.daemon.persisted[t := b];
    if !HasType(w.daemon.table, t) then w.(daemon := w.daemon.(persisted := remembered))
    else if !w.kernel.writable then w
    else World(Write(w.kernel, t, b),
               w.daemon.(table := WriteAll(w.daemon.table, t, b), persisted := remembered))
  }

  function SetBlockResult(w: World, t: RfType): bool {
    !HasType(w.daemon.table, t) || w.kernel.writable
  }

  /** A new device in the lists, before any write. */
  function Enlist(w: World, e: Event, platform: bool): World {
    w.(daemon := w.daemon.(
      table := w.daemon.table[e.idx := Entry(e.rf, e.soft, e.hard)],
      platform := if platform then w.daemon.platform + {e.idx} else w.daemon.platform - {e.idx}))
  }

  /** The writes a new device may cause: its own bit, then the remembered one. */
  function SyncNew(w: World, i: nat, t: RfType, soft: bool, platform: bool): World
    requires w.kernel.Listed() && i in w.daemon.table
  {
    var w2 := if w.daemon.forceSync && !platform then SetSoft(w, i, soft) else w;
    if w.daemon.persist then SetSoft(w2, i, Persisted(w.daemon.persisted, t)) else w2
  }

  function AddDevice(w: World, e: Event, platform: bool): World
    requires w.kernel.Listed()
  {
    if e.idx in w.daemon.table then w
    else SyncNew(Enlist(w, e, platform), e.idx, e.rf, e.soft, platform)
  }

  /** Refreshing the killswitch of a type without devices forgets the saved state. */
  function Refreshed(d: Daemon, t: RfType): Daemon {
    if HasType(d.table, t) then d else d.(saved := d.saved[t := NoAdapter])
  }

  function RemoveDevice(w: World, i: nat): World {
    if i !in w.daemon.table then w
    else
      var t := w.daemon.table[i].rf;
      var d := w.daemon.(table := w.daemon.table - {i}, platform := w.daemon.platform - {i});
      w.(daemon := Refreshed(d, t))
  }

  function UpdateDevice(w: World, i: nat, soft: bool, hard: bool): World
    requires w.kernel.Listed()
  {
    var d := w.daemon.table;
    if i !in d || (d[i].soft == soft && d[i].hard == hard) then w
    else
      var w1 := w.(daemon := w.daemon.(table := d[i := d[i].(soft := soft, hard := hard)]));
      if w.daemon.forceSync && hard && !soft then SetBlockIdx(w1, i, true)
      else if w.daemon.forceSync && d[i].hard && !hard then SetBlockIdx(w1, i, false)
      else w1
  }

  /** What the daemon does with one event; platform is what udev answers. */
  function React(w: World, e: Event, platform: bool): World
    requires w.kernel.Listed()
  {
    match e.op
    case CHANGE => UpdateDevice(w, e.idx, e.soft, e.hard)
    case DEL => RemoveDevice(w, e.idx)
    case ADD => AddDevice(w, e, platform)
  }

  function Pop(w: World): World
    requires w.kernel.queue != []
  {
    w.(kernel := w.kernel.(queue := w.kernel.queue[1..]))
  }

  function Handle(w: World, platform: bool): World
    requires w.kernel.Listed() && w.kernel.queue != []
  {
    React(Pop(w), w.kernel.queue[0], platform)
  }

  /** What an "on" or "off" asks of a type: an "off" undoes the state saved for it. */
  function Want(saved: KillswitchState, state: KillswitchState, block: bool): bool {
    if !block && state == saved then saved.Level() > Unblocked.Level() else block
  }

  function WantBlock(d: Daemon, t: RfType, block: bool): bool {
    Want(Saved(d.saved, t), StateOf(d, t), block)
  }

  function FlightType(w: World, t: RfType, block: bool): World
    requires w.kernel.Listed()
  {
    if StateOf(w.daemon, t) == NoAdapter then w.(daemon := Refreshed(w.daemon, t))
    else
      var s := StateOf(w.daemon, t);
      var w1 := if block then w.(daemon := w.daemon.(saved := w.daemon.saved[t := s])) else w;
      SetBlock(w1, t, WantBlock(w.daemon, t, block))
  }

  /** The per-type loop from type t on. */
  function FlightFrom(w: World, t: int, block: bool): (r: World)
    requires RFKILL_TYPE_ALL < t <= NUM_RFKILL_TYPES && w.kernel.Listed()
    ensures r.kernel.Listed()
    decreases NUM_RFKILL_TYPES - t
  {
    if t == NUM_RFKILL_TYPES then w else FlightFrom(FlightType(w, t, block), t + 1, block)
  }

  function FlightMode(w: World, block: bool): World
    requires w.kernel.Listed()
  {
    FlightFrom(w.(daemon := w.daemon.(persisted := w.daemon.persisted[RFKILL_TYPE_ALL := block])),
               RFKILL_TYPE_ALL + 1, block)
  }

  /** A press of the key of one type: toggle by the current aggregate state. */
  function KeyPress(w: World, t: RfType): World
    requires w.kernel.Listed()
  {
    var w1 := w.(daemon := Refreshed(w.daemon, t));
    match StateOf(w.daemon, t)
    case NoAdapter => w1
    case Unblocked => SetBlock(w1, t, true)
    case HardBlocked => SetBlock(w1, t, true)
    case SoftBlocked => SetBlock(w1, t, false)
  }

  // ---- runs ---------------------------------------------------------------

  datatype Step =
    | OutsideAdd(i: nat, e: Entry)
    | OutsideDel(i: nat)
    | OutsideChange(i: nat, soft: bool, hard: bool)
    | OutsideWritable(on: bool)
    | DaemonHandle(platform: bool)
    | DaemonSetBlock(t: RfType, b: bool)
    | DaemonSetBlockIdx(i: nat, b: bool)
    | DaemonFlightMode(b: bool)
    | DaemonKeyPress(t: RfType)

  function Without(order: seq<nat>, i: nat): (r: seq<nat>)
    ensures forall j :: j in r <==> j in order && j != i
  {
    if order == [] then []
    else if order[0] == i then Without(order[1..], i)
    else [order[0]] + Without(order[1..], i)
  }

  /** One step of the system. Other programs and the hardware may add, delete or
      change any device at any time; each such action queues its event. A step
      that is impossible in the current state leaves it alone. */
  function Next(w: World, s: Step): World
    requires w.kernel.Listed()
  {
    var k := w.kernel;
    match s
    case OutsideAdd(i, e) =>
      if i in k.table then w
      else w.(kernel := k.(table := k.table[i := e], order := k.order + [i],
                           queue := k.queue + [Event(i, e.rf, ADD, e.soft, e.hard)]))
    case OutsideDel(i) =>
      if i !in k.table then w
      else
        var e := k.table[i];
        w.(kernel := k.(table := k.table - {i}, order := Without(k.order, i),
                        queue := k.queue + [Event(i, e.rf, DEL, e.soft, e.hard)]))
    case OutsideChange(i, soft, hard) =>
      if i !in k.table then w
      else
        var e := k.table[i].(soft := soft, hard := hard);
        w.(kernel := k.(table := k.table[i := e],
                        queue := k.queue + [Event(i, e.rf, CHANGE, soft, hard)]))
    case OutsideWritable(on) => w.(kernel := k.(writable := on))
    case DaemonHandle(platform) => if k.queue == [] then w else Handle(w, platform)
    case DaemonSetBlock(t, b) => SetBlock(w, t, b)
    case DaemonSetBlockIdx(i, b) => SetBlockIdx(w, i, b)
    case DaemonFlightMode(b) => FlightMode(w, b)
    case DaemonKeyPress(t) => KeyPress(w, t)
  }
}
