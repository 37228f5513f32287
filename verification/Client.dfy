/** A client's list of devices: one snapshot from the daemon and then the daemon's
    signals, some of which tell of changes the snapshot already shows. */
module Client {
  import opened Rfkill
  import opened Protocol
  import opened Convergence

  datatype Signal = DeviceAdded(path: string) | DeviceRemoved(path: string) | DeviceChanged(path: string)

  ghost predicate NoDuplicates(l: seq<string>) {
    forall p :: multiset(l)[p] <= 1
  }

  /** The position of the first device with a path, or the length of the list. */
  function Find(l: seq<string>, path: string): (k: nat)
    ensures k <= |l| && (k < |l| ==> l[k] == path) && path !in l[..k]
  {
    if l == [] || l[0] == path then 0
    else
      assert l[..1 + Find(l[1..], path)] == [l[0]] + l[1..][..Find(l[1..], path)];
      1 + Find(l[1..], path)
  }

  function WithoutFirst(l: seq<string>, path: string): (r: seq<string>)
    ensures multiset(r) == multiset(l) - multiset{path}
  {
    var k := Find(l, path);
    if k == |l| then
      assert l[..k] == l;
      l
    else
      assert l == l[..k] + [path] + l[k + 1..];
      l[..k] + l[k + 1..]
  }

  // ---- the two sides ------------------------------------------------------

  /** The client checks its own list before it believes a signal. */
  function MirrorStep(l: seq<string>, s: Signal): seq<string> {
    match s
    case DeviceAdded(path) => if path in l then l else l + [path]
    case DeviceRemoved(path) => WithoutFirst(l, path)
    case DeviceChanged(_) => l
  }

  function Mirror(l: seq<string>, log: seq<Signal>): seq<string> {
    if log == [] then l else MirrorStep(Mirror(l, log[..|log| - 1]), log[|log| - 1])
  }

  /** The daemon appends and removes, and signals what it did. */
  function TrackStep(l: seq<string>, s: Signal): seq<string> {
    match s
    case DeviceAdded(path) => l + [path]
    case DeviceRemoved(path) => WithoutFirst(l, path)
    case DeviceChanged(_) => l
  }

  function Tracked(l: seq<string>, log: seq<Signal>): seq<string> {
    if log == [] then l else TrackStep(Tracked(l, log[..|log| - 1]), log[|log| - 1])
  }

  /** The daemon adds only what it does not track and removes only what it does. */
  ghost predicate LegalLog(l: seq<string>, log: seq<Signal>) {
    log == [] ||
    var init, s := log[..|log| - 1], log[|log| - 1];
    && LegalLog(l, init)
    && (s.DeviceAdded? ==> s.path !in Tracked(l, init))
    && (s.DeviceRemoved? ==> s.path in Tracked(l, init))
  }

  /** Whether a path is there after a log, given whether it was there before. */
  function Present(path: string, before: bool, log: seq<Signal>): bool {
    if log == [] then before
    else
      var s := log[|log| - 1];
      if s.path != path || s.DeviceChanged? then Present(path, before, log[..|log| - 1]) else s.DeviceAdded?
  }

  lemma {:induction false} PresentConcat(path: string, before: bool, a: seq<Signal>, b: seq<Signal>)
    ensures Present(path, before, a + b) == Present(path, Present(path, before, a), b)
    decreases |b|
  {
    if b == [] {
      assert a + b == a;
    } else {
      assert (a + b)[..|a + b| - 1] == a + b[..|b| - 1];
      PresentConcat(path, before, a, b[..|b| - 1]);
    }
  }

  /** Hearing the same log twice makes no difference. */
  lemma {:induction false} PresentTwice(path: string, before: bool, log: seq<Signal>)
    ensures Present(path, Present(path, before, log), log) == Present(path, before, log)
    decreases |log|
  {
    if log != [] {
      var init := log[..|log| - 1];
      PresentTwice(path, before, init);
      PresentOnlyLast(path, before, Present(path, before, log), init);
    }
  }

  /** A log either decides on its own or hands on what was there before. */
  lemma {:induction false} PresentOnlyLast(path: string, b: bool, c: bool, log: seq<Signal>)
    ensures Present(path, b, log) == Present(path, c, log) || (Present(path, b, log) == b && Present(path, c, log) == c)
    decreases |log|
  {
    if log != [] {
      PresentOnlyLast(path, b, c, log[..|log| - 1]);
    }
  }

  /** The mirror holds each path at most once, and holds it if the log says so. */
  lemma {:induction false} MirrorPresence(l: seq<string>, log: seq<Signal>)
    requires NoDuplicates(l)
    ensures NoDuplicates(Mirror(l, log))
    ensures forall p :: p in Mirror(l, log) <==> Present(p, p in l, log)
    decreases |log|
  {
    if log != [] {
      var init, s := log[..|log| - 1], log[|log| - 1];
      MirrorPresence(l, init);
      var was, now := Mirror(l, init), Mirror(l, log);
      forall p ensures multiset(now)[p] <= 1 && (p in now <==> Present(p, p in l, log)) {
        assert p in was <==> multiset(was)[p] > 0;
        assert p in now <==> multiset(now)[p] > 0;
        assert multiset(was)[p] <= 1;
      }
    }
  }

  /** On a legal log the daemon's list and a mirror kept from the start are one. */
  lemma {:induction false} TrackedIsMirror(l: seq<string>, log: seq<Signal>)
    requires LegalLog(l, log)
    ensures Tracked(l, log) == Mirror(l, log)
    decreases |log|
  {
    if log != [] {
      TrackedIsMirror(l, log[..|log| - 1]);
    }
  }

  lemma {:induction false} LegalPrefix(l: seq<string>, log: seq<Signal>, n: nat)
    requires LegalLog(l, log) && n <= |log|
    ensures LegalLog(l, log[..n])
    decreases |log|
  {
    if n == |log| {
      assert log[..n] == log;
    } else {
      assert log[..|log| - 1][..n] == log[..n];
      LegalPrefix(l, log[..|log| - 1], n);
    }
  }

  /** Whether a path is there: signals m to n may be heard a second time. */
  lemma OverlapIsHarmless(path: string, before: bool, log: seq<Signal>, m: nat, n: nat)
    requires m <= n <= |log|
    ensures Present(path, Present(path, before, log[..n]), log[m..]) == Present(path, before, log)
  {
    assert log[..n] == log[..m] + log[m..n] && log[m..] == log[m..n] + log[n..] && log == log[..n] + log[n..];
    PresentConcat(path, before, log[..m], log[m..n]);
    PresentTwice(path, Present(path, before, log[..m]), log[m..n]);
    PresentConcat(path, Present(path, before, log[..n]), log[m..n], log[n..]);
    PresentConcat(path, before, log[..n], log[n..]);
  }

  lemma SamePathsOnce(mine: seq<string>, theirs: seq<string>)
    requires NoDuplicates(mine) && NoDuplicates(theirs) && forall p :: p in mine <==> p in theirs
    ensures multiset(mine) == multiset(theirs)
  {
    forall p: string ensures multiset(mine)[p] == multiset(theirs)[p] {
      assert multiset(mine)[p] <= 1 && multiset(theirs)[p] <= 1;
      assert p in mine <==> multiset(mine)[p] > 0;
      assert p in theirs <==> multiset(theirs)[p] > 0;
    }
  }

  /** The mirror converges: take the snapshot after n signals and then hear the
      signals from any m <= n on; the client ends with exactly the daemon's paths,
      each once. */
  lemma MirrorConverges(l: seq<string>, log: seq<Signal>, m: nat, n: nat)
    requires NoDuplicates(l) && LegalLog(l, log) && m <= n <= |log|
    ensures NoDuplicates(Mirror(Tracked(l, log[..n]), log[m..]))
    ensures multiset(Mirror(Tracked(l, log[..n]), log[m..])) == multiset(Tracked(l, log))
  {
    hide NoDuplicates;
    hide Present;
    LegalPrefix(l, log, n);
    TrackedIsMirror(l, log[..n]);
    TrackedIsMirror(l, log);
    var snapshot := Mirror(l, log[..n]);
    MirrorPresence(l, log[..n]);
    MirrorPresence(l, log);
    MirrorPresence(snapshot, log[m..]);
    forall p: string ensures p in Mirror(snapshot, log[m..]) <==> p in Mirror(l, log) {
      OverlapIsHarmless(p, p in l, log, m, n);
    }
    SamePathsOnce(Mirror(snapshot, log[m..]), Mirror(l, log));
  }

  // ---- what the client does with what it hears ----------------------------

  datatype State = State(devices: seq<string>, isEnumerated: bool)

  datatype Input = Heard(s: Signal) | Enumerate(reply: Option<seq<string>>)

  const FRESH := State([], false)

  /** Signals count only after an enumeration has succeeded; an enumeration adds
      without looking. */
  function Receive(c: State, i: Input): State {
    match i
    case Heard(s) => if c.isEnumerated then c.(devices := MirrorStep(c.devices, s)) else c
    case Enumerate(None) => c
    case Enumerate(Some(paths)) => State(c.devices + paths, true)
  }

  function After(c: State, inputs: seq<Input>): State
    decreases |inputs|
  {
    if inputs == [] then c else Receive(After(c, inputs[..|inputs| - 1]), inputs[|inputs| - 1])
  }

  predicate Unanswered(i: Input) {
    i.Enumerate? ==> i.reply == None
  }

  function Hearing(log: seq<Signal>): (r: seq<Input>)
    ensures |r| == |log| && forall k :: 0 <= k < |log| ==> r[k] == Heard(log[k])
  {
    seq(|log|, k requires 0 <= k < |log| => Heard(log[k]))
  }

  lemma {:induction false} NothingBefore(before: seq<Input>)
    requires forall i :: i in before ==> Unanswered(i)
    ensures After(FRESH, before) == FRESH
    decreases |before|
  {
    if before != [] {
      assert before[|before| - 1] in before;
      NothingBefore(before[..|before| - 1]);
    }
  }

  lemma {:induction false} HearingIsMirroring(c: State, before: seq<Input>, log: seq<Signal>)
    requires After(c, before).isEnumerated
    ensures After(c, before + Hearing(log)) == State(Mirror(After(c, before).devices, log), true)
    decreases |log|
  {
    if log == [] {
      assert before + Hearing(log) == before;
    } else {
      var init := log[..|log| - 1];
      HearingIsMirroring(c, before, init);
      var all := before + Hearing(log);
      assert all[..|all| - 1] == before + Hearing(init);
      assert all[|all| - 1] == Heard(log[|log| - 1]);
    }
  }

  /** A client that missed whatever it missed, then enumerated once at n, then heard
      the signals from m on, has the daemon's devices. */
  lemma ClientConverges(l: seq<string>, log: seq<Signal>, m: nat, n: nat, before: seq<Input>)
    requires NoDuplicates(l) && LegalLog(l, log) && m <= n <= |log|
    requires forall i :: i in before ==> Unanswered(i)
    ensures var c := After(FRESH, before + [Enumerate(Some(Tracked(l, log[..n])))] + Hearing(log[m..]));
            c.isEnumerated && NoDuplicates(c.devices) && multiset(c.devices) == multiset(Tracked(l, log))
  {
    var snapshot := Tracked(l, log[..n]);
    var start := before + [Enumerate(Some(snapshot))];
    assert start[..|start| - 1] == before;
    NothingBefore(before);
    assert [] + snapshot == snapshot;
    HearingIsMirroring(FRESH, start, log[m..]);
    MirrorConverges(l, log, m, n);
  }

  lemma JoinedIff(mine: seq<string>, reply: seq<string>)
    requires NoDuplicates(mine) && NoDuplicates(reply)
    ensures NoDuplicates(Receive(State(mine, true), Enumerate(Some(reply))).devices)
            <==> forall p :: p in mine ==> p !in reply
  {
    var both := mine + reply;
    if p :| p in mine && p in reply {
      assert multiset(both)[p] == multiset(mine)[p] + multiset(reply)[p];
      assert p in multiset(mine) && p in multiset(reply);
    } else {
      forall p: string ensures multiset(both)[p] <= 1 {
        assert multiset(both)[p] == multiset(mine)[p] + multiset(reply)[p];
        assert multiset(mine)[p] <= 1 && multiset(reply)[p] <= 1;
        assert p in mine <==> multiset(mine)[p] > 0;
        assert p in reply <==> multiset(reply)[p] > 0;
      }
    }
  }

  /** A client in step with the daemon may enumerate again without duplicates only
      while it lists nothing. */
  lemma EnumerateAgainIff(l: seq<string>, log: seq<Signal>, m: nat, n: nat, before: seq<Input>)
    requires NoDuplicates(l) && LegalLog(l, log) && m <= n <= |log|
    requires forall i :: i in before ==> Unanswered(i)
    ensures var c := After(FRESH, before + [Enumerate(Some(Tracked(l, log[..n])))] + Hearing(log[m..]));
            NoDuplicates(Receive(c, Enumerate(Some(Tracked(l, log)))).devices) <==> c.devices == []
  {
    hide NoDuplicates;
    hide After;
    ClientConverges(l, log, m, n, before);
    var c := After(FRESH, before + [Enumerate(Some(Tracked(l, log[..n])))] + Hearing(log[m..]));
    SameElements(c.devices, Tracked(l, log));
    EnumerateInStepIff(c.devices, Tracked(l, log));
  }

  lemma SameElements(a: seq<string>, b: seq<string>)
    requires multiset(a) == multiset(b)
    ensures (forall p :: p in a <==> p in b) && (NoDuplicates(a) ==> NoDuplicates(b))
  {
    assert forall p :: p in a <==> p in multiset(a);
    assert forall p :: p in b <==> p in multiset(b);
  }

  lemma EnumerateInStepIff(mine: seq<string>, reply: seq<string>)
    requires NoDuplicates(mine) && NoDuplicates(reply) && forall p :: p in mine <==> p in reply
    ensures NoDuplicates(Receive(State(mine, true), Enumerate(Some(reply))).devices) <==> mine == []
  {
    JoinedIff(mine, reply);
    assert mine != [] ==> mine[0] in mine;
  }

  /** A path listed twice outlives its removal. */
  lemma DuplicateOutlivesRemoval(mine: seq<string>, reply: seq<string>, path: string)
    requires path in mine && path in reply
    ensures path in After(State(mine, true), [Enumerate(Some(reply)), Heard(DeviceRemoved(path))]).devices
  {
    var inputs := [Enumerate(Some(reply)), Heard(DeviceRemoved(path))];
    assert inputs[..1][..0] == [] && inputs[..1][0] == inputs[0];
    assert After(State(mine, true), inputs[..1]).devices == mine + reply;
    var left := After(State(mine, true), inputs).devices;
    assert path in multiset(mine) && path in multiset(reply);
    assert multiset(left)[path] >= 1;
  }

  // ---- the log of a real daemon -------------------------------------------

  function Digit(n: nat): char
    requires n < 10
  {
    "0123456789"[n]
  }

  function Decimal(n: nat): (s: string)
    ensures s != ""
  {
    if n < 10 then [Digit(n)] else Decimal(n / 10) + [Digit(n % 10)]
  }

  function ObjectPath(i: nat): string {
    "/org/freedesktop/URfkill/devices/" + Decimal(i)
  }

  lemma {:induction false} DecimalIsInjective(a: nat, b: nat)
    requires Decimal(a) == Decimal(b)
    ensures a == b
  {
    var x, y := Decimal(a), Decimal(b);
    assert x[|x| - 1] == Digit(a % 10) && y[|y| - 1] == Digit(b % 10);
    if a >= 10 && b >= 10 {
      assert x[..|x| - 1] == Decimal(a / 10) && y[..|y| - 1] == Decimal(b / 10);
      DecimalIsInjective(a / 10, b / 10);
    } else {
      assert |x| == 1 <==> a < 10;
      assert |y| == 1 <==> b < 10;
    }
  }

  /** The number a row of decimal digits stands for. */
  function Value(s: string): int {
    if s == "" then 0 else 10 * Value(s[..|s| - 1]) + (s[|s| - 1] as int - '0' as int)
  }

  /** The digits of an index spell it, without leading zeros. */
  lemma {:induction false} DecimalReadsBack(n: nat)
    ensures Value(Decimal(n)) == n
    ensures forall c :: c in Decimal(n) ==> '0' <= c <= '9'
    ensures n > 0 ==> Decimal(n)[0] != '0'
  {
    var s := Decimal(n);
    assert Digit(n % 10) as int - '0' as int == n % 10;
    if n < 10 {
      assert s[..0] == "";
    } else {
      DecimalReadsBack(n / 10);
      assert s[..|s| - 1] == Decimal(n / 10) && s[|s| - 1] == Digit(n % 10);
    }
  }

  /** An event without a signal leaves the daemon's table as it was. */
  lemma SilentMeansSame(w: World, platform: bool)
    requires w.kernel.Listed() && w.kernel.queue != [] && Emitted(w, DaemonHandle(platform)) == []
    ensures Next(w, DaemonHandle(platform)).daemon == w.daemon
  {
  }

  lemma ObjectPathIsInjective(a: nat, b: nat)
    requires ObjectPath(a) == ObjectPath(b)
    ensures a == b
  {
    var prefix := "/org/freedesktop/URfkill/devices/";
    assert ObjectPath(a)[|prefix|..] == Decimal(a) && ObjectPath(b)[|prefix|..] == Decimal(b);
    DecimalIsInjective(a, b);
  }

  /** What the daemon signals in one step. */
  function Emitted(w: World, s: Step): seq<Signal> {
    if !s.DaemonHandle? || w.kernel.queue == [] then []
    else
      var e := w.kernel.queue[0];
      match e.op
      case ADD => if e.idx in w.daemon.table then [] else [DeviceAdded(ObjectPath(e.idx))]
      case DEL => if e.idx in w.daemon.table then [DeviceRemoved(ObjectPath(e.idx))] else []
      case CHANGE =>
        if e.idx in w.daemon.table
           && (w.daemon.table[e.idx].soft != e.soft || w.daemon.table[e.idx].hard != e.hard)
        then [DeviceChanged(ObjectPath(e.idx))] else []
  }

  /** The signals of steps i to j of a run. */
  function Log(ws: seq<World>, ss: seq<Step>, i: nat, j: nat): seq<Signal>
    requires i <= j <= |ss| && |ws| == |ss| + 1
    decreases j
  {
    if i == j then [] else Log(ws, ss, i, j - 1) + Emitted(ws[j - 1], ss[j - 1])
  }

  lemma {:induction false} LogSplits(ws: seq<World>, ss: seq<Step>, i: nat, j: nat)
    requires i <= j <= |ss| && |ws| == |ss| + 1
    ensures Log(ws, ss, 0, j) == Log(ws, ss, 0, i) + Log(ws, ss, i, j)
    decreases j
  {
    if i < j {
      LogSplits(ws, ss, i, j - 1);
    }
  }

  /** A list of paths that shows each tracked device once and nothing else. */
  ghost predicate Shows(l: seq<string>, d: Table) {
    NoDuplicates(l) && forall p :: p in l <==> IsPathIn(p, d)
  }

  ghost predicate IsPathIn(p: string, d: Table) {
    exists i :: i in d && p == ObjectPath(i)
  }

  lemma {:induction false} FlightKeepsKeys(w: World, t: int, block: bool)
    requires RFKILL_TYPE_ALL < t <= NUM_RFKILL_TYPES && w.kernel.Listed()
    ensures FlightFrom(w, t, block).daemon.table.Keys == w.daemon.table.Keys
    decreases NUM_RFKILL_TYPES - t
  {
    if t < NUM_RFKILL_TYPES {
      assert FlightType(w, t, block).daemon.table.Keys == w.daemon.table.Keys;
      FlightKeepsKeys(FlightType(w, t, block), t + 1, block);
    }
  }

  lemma ReactKeepsKeys(w: World, e: Protocol.Event, platform: bool)
    requires w.kernel.Listed()
    ensures var d, d1 := w.daemon.table.Keys, React(w, e, platform).daemon.table.Keys;
            d1 == match e.op case ADD => d + {e.idx} case DEL => d - {e.idx} case CHANGE => d
  {
    hide Write;
    match e.op {
      case ADD =>
        if e.idx !in w.daemon.table {
          var w1 := Enlist(w, e, platform);
          assert w1.daemon.table.Keys == w.daemon.table.Keys + {e.idx};
          SyncKeepsKeys(w1, e.idx, e.rf, e.soft, platform);
        }
      case DEL =>
      case CHANGE =>
    }
  }

  lemma SyncKeepsKeys(w: World, i: nat, t: RfType, soft: bool, platform: bool)
    requires w.kernel.Listed() && i in w.daemon.table
    ensures SyncNew(w, i, t, soft, platform).daemon.table.Keys == w.daemon.table.Keys
  {
    hide Write;
    assert SetSoft(w, i, soft).daemon.table.Keys == w.daemon.table.Keys;
  }

  /** Only a handled ADD or DEL changes which devices the daemon tracks. */
  lemma StepKeys(w: World, s: Step)
    requires w.kernel.Listed()
    ensures var d, d1 := w.daemon.table.Keys, Next(w, s).daemon.table.Keys;
            if !s.DaemonHandle? || w.kernel.queue == [] then d1 == d
            else
              var e := w.kernel.queue[0];
              d1 == match e.op case ADD => d + {e.idx} case DEL => d - {e.idx} case CHANGE => d
  {
    hide Write;
    hide React;
    hide FlightFrom;
    match s {
      case DaemonHandle(platform) =>
        if w.kernel.queue != [] {
          ReactKeepsKeys(Pop(w), w.kernel.queue[0], platform);
        }
      case DaemonFlightMode(b) =>
        var start := w.(daemon := w.daemon.(persisted := w.daemon.persisted[RFKILL_TYPE_ALL := b]));
        FlightKeepsKeys(start, RFKILL_TYPE_ALL + 1, b);
      case _ =>
    }
  }

  lemma AddedShows(l: seq<string>, d: Table, d1: Table, i: nat)
    requires Shows(l, d) && i !in d && d1.Keys == d.Keys + {i}
    ensures ObjectPath(i) !in l && Shows(l + [ObjectPath(i)], d1)
  {
    forall j | j in d ensures ObjectPath(j) != ObjectPath(i) {
      if ObjectPath(j) == ObjectPath(i) {
        ObjectPathIsInjective(j, i);
      }
    }
    assert !IsPathIn(ObjectPath(i), d);
    var more := l + [ObjectPath(i)];
    forall p: string ensures multiset(more)[p] <= 1 && (p in more <==> IsPathIn(p, d1)) {
      assert p in l <==> multiset(l)[p] > 0;
      assert IsPathIn(p, d1) <==> IsPathIn(p, d) || p == ObjectPath(i) by {
        assert i in d1 && forall j :: j in d1 <==> j in d || j == i;
      }
    }
  }

  lemma RemovedShows(l: seq<string>, d: Table, d1: Table, i: nat)
    requires Shows(l, d) && i in d && d1.Keys == d.Keys - {i}
    ensures ObjectPath(i) in l && Shows(WithoutFirst(l, ObjectPath(i)), d1)
  {
    assert IsPathIn(ObjectPath(i), d);
    var less := WithoutFirst(l, ObjectPath(i));
    forall p: string ensures multiset(less)[p] <= 1 && (p in less <==> IsPathIn(p, d1)) {
      assert multiset(l)[p] <= 1;
      assert p in l <==> multiset(l)[p] > 0;
      assert p in less <==> multiset(less)[p] > 0;
      assert IsPathIn(p, d1) <==> IsPathIn(p, d) && p != ObjectPath(i) by {
        assert forall j :: j in d1 <==> j in d && j != i;
        if IsPathIn(p, d1) {
          var j :| j in d1 && p == ObjectPath(j);
          if p == ObjectPath(i) {
            ObjectPathIsInjective(j, i);
          }
        }
      }
    }
  }

  lemma OneMoreSignal(l: seq<string>, log: seq<Signal>, s: Signal)
    ensures Tracked(l, log + [s]) == TrackStep(Tracked(l, log), s)
    ensures LegalLog(l, log + [s])
            <==> LegalLog(l, log) && (s.DeviceAdded? ==> s.path !in Tracked(l, log))
                                  && (s.DeviceRemoved? ==> s.path in Tracked(l, log))
  {
    assert (log + [s])[..|log|] == log;
  }

  /** What a step emits is legal after what was emitted before, and tells of exactly
      the change it makes. */
  lemma StepShows(w: World, s: Step, l: seq<string>, log: seq<Signal>)
    requires w.kernel.Listed() && LegalLog(l, log) && Shows(Tracked(l, log), w.daemon.table)
    ensures LegalLog(l, log + Emitted(w, s)) && Shows(Tracked(l, log + Emitted(w, s)), Next(w, s).daemon.table)
  {
    hide Next;
    hide Shows;
    hide LegalLog;
    hide Tracked;
    StepKeys(w, s);
    var d, d1 := w.daemon.table, Next(w, s).daemon.table;
    var out := Emitted(w, s);
    if out == [] {
      assert log + out == log;
      assert d1.Keys == d.Keys;
      SameKeysShow(Tracked(l, log), d, d1);
    } else {
      OneMoreSignal(l, log, out[0]);
      var e := w.kernel.queue[0];
      match e.op {
        case ADD => AddedShows(Tracked(l, log), d, d1, e.idx);
        case DEL => RemovedShows(Tracked(l, log), d, d1, e.idx);
        case CHANGE => SameKeysShow(Tracked(l, log), d, d1);
      }
    }
  }

  lemma SameKeysShow(l: seq<string>, d: Table, d1: Table)
    requires Shows(l, d) && d1.Keys == d.Keys
    ensures Shows(l, d1)
  {
    assert forall j :: j in d1 <==> j in d;
    assert forall p :: IsPathIn(p, d1) <==> IsPathIn(p, d);
  }

  /** Over any run the daemon's signals are legal and its list shows its table. */
  lemma {:induction false} LogShows(ws: seq<World>, ss: seq<Step>, l: seq<string>, j: nat)
    requires RunOf(ws, ss) && Shows(l, ws[0].daemon.table) && j <= |ss|
    ensures LegalLog(l, Log(ws, ss, 0, j)) && Shows(Tracked(l, Log(ws, ss, 0, j)), ws[j].daemon.table)
  {
    hide Next;
    hide Shows;
    hide Emitted;
    if j > 0 {
      LogShows(ws, ss, l, j - 1);
      StepShows(ws[j - 1], ss[j - 1], l, Log(ws, ss, 0, j - 1));
    }
  }

  /** End to end: a client that enumerates at any point of any run, having missed
      the signals up to any earlier point, shows exactly the daemon's devices. */
  lemma ClientFollowsDaemon(
      ws: seq<World>, ss: seq<Step>, l: seq<string>, from: nat, at: nat, before: seq<Input>)
    requires RunOf(ws, ss) && Shows(l, ws[0].daemon.table)
    requires from <= at <= |ss| && forall i :: i in before ==> Unanswered(i)
    ensures var snapshot, heard := Tracked(l, Log(ws, ss, 0, at)), Log(ws, ss, from, |ss|);
            Shows(After(FRESH, before + [Enumerate(Some(snapshot))] + Hearing(heard)).devices, ws[|ss|].daemon.table)
  {
    hide Next;
    hide Shows;
    hide Emitted;
    hide After;
    var log := Log(ws, ss, 0, |ss|);
    var m, n := |Log(ws, ss, 0, from)|, |Log(ws, ss, 0, at)|;
    LogSplits(ws, ss, from, at);
    LogSplits(ws, ss, from, |ss|);
    LogSplits(ws, ss, at, |ss|);
    assert log[m..] == Log(ws, ss, from, |ss|) && log[..n] == Log(ws, ss, 0, at);
    LogShows(ws, ss, l, |ss|);
    assert NoDuplicates(l) by { ShowsOnce(l, ws[0].daemon.table); }
    ClientConverges(l, log, m, n, before);
    var c := After(FRESH, before + [Enumerate(Some(Tracked(l, log[..n])))] + Hearing(log[m..]));
    SameShows(c.devices, Tracked(l, log), ws[|ss|].daemon.table);
  }

  /** Once the queue is empty these are the kernel's devices, after any startup:
      only the hardware of the two tables has to be aligned, not their soft bits. */
  lemma ClientFollowsKernel(
      ws: seq<World>, ss: seq<Step>, l: seq<string>, from: nat, at: nat, before: seq<Input>)
    requires RunOf(ws, ss) && Aligned(ws[0]) && Shows(l, ws[0].daemon.table) && ws[|ss|].kernel.queue == []
    requires from <= at <= |ss| && forall i :: i in before ==> Unanswered(i)
    ensures var snapshot, heard := Tracked(l, Log(ws, ss, 0, at)), Log(ws, ss, from, |ss|);
            Shows(After(FRESH, before + [Enumerate(Some(snapshot))] + Hearing(heard)).devices, ws[|ss|].kernel.table)
  {
    hide Next;
    hide Shows;
    hide Emitted;
    hide Aligned;
    hide After;
    ClientFollowsDaemon(ws, ss, l, from, at, before);
    HardwareConverges(ws, ss, |ss|);
    var snapshot, heard := Tracked(l, Log(ws, ss, 0, at)), Log(ws, ss, from, |ss|);
    var c := After(FRESH, before + [Enumerate(Some(snapshot))] + Hearing(heard));
    SameKeysShow(c.devices, ws[|ss|].daemon.table, ws[|ss|].kernel.table);
  }

  lemma ShowsOnce(l: seq<string>, d: Table)
    requires Shows(l, d)
    ensures NoDuplicates(l)
  {
  }

  lemma SameShows(mine: seq<string>, theirs: seq<string>, d: Table)
    requires Shows(theirs, d) && multiset(mine) == multiset(theirs)
    ensures Shows(mine, d)
  {
    assert forall p :: p in mine <==> p in multiset(mine);
    assert forall p :: p in theirs <==> p in multiset(theirs);
  }

  // ---- the object ---------------------------------------------------------

  class UrfDevice {
    const objectPath: string

    constructor (objectPath: string)
      ensures this.objectPath == objectPath
    {
      this.objectPath := objectPath;
    }
  }

  function Paths(devices: seq<UrfDevice>): (l: seq<string>)
    ensures |l| == |devices| && forall k :: 0 <= k < |l| ==> l[k] == devices[k].objectPath
  {
    seq(|devices|, k requires 0 <= k < |devices| => devices[k].objectPath)
  }

  class UrfClient {
    var devices: seq<UrfDevice>
    var isEnumerated: bool

    ghost function View(): State
      reads this
    {
      State(Paths(devices), isEnumerated)
    }

    constructor ()
      ensures View() == FRESH
    {
      devices, isEnumerated := [], false;
    }

    method FindDevice(path: string) returns (k: nat)
      ensures k == Find(Paths(devices), path)
    {
      k := 0;
      while k < |devices|
        invariant k <= |devices| && path !in Paths(devices)[..k]
      {
        if devices[k].objectPath == path {
          return;
        }
        k := k + 1;
      }
      assert Paths(devices)[..k] == Paths(devices);
    }

    method Add(path: string)
      modifies this
      ensures View() == old(View()).(devices := old(View()).devices + [path])
    {
      var device := new UrfDevice(path);
      devices := devices + [device];
    }

    method OnDeviceAdded(path: string) returns (emitted: bool)
      modifies this
      ensures View() == old(View()).(devices := MirrorStep(old(View()).devices, DeviceAdded(path)))
      ensures emitted <==> path !in old(View()).devices
    {
      var k := FindDevice(path);
      if k < |devices| {
        return false;
      }
      assert Paths(devices)[..k] == Paths(devices);
      Add(path);
      emitted := true;
    }

    method OnDeviceRemoved(path: string) returns (emitted: bool)
      modifies this
      ensures View() == old(View()).(devices := MirrorStep(old(View()).devices, DeviceRemoved(path)))
      ensures emitted <==> path in old(View()).devices
    {
      var k := FindDevice(path);
      if k == |devices| {
        assert Paths(devices)[..k] == Paths(devices);
        return false;
      }
      ghost var before := Paths(devices);
      devices := devices[..k] + devices[k + 1..];
      assert Paths(devices) == before[..k] + before[k + 1..];
      emitted := true;
    }

    /** The enumeration appends every path of the reply; a failed call changes nothing. */
    method EnumerateDevicesSync(reply: Option<seq<string>>) returns (ret: bool)
      modifies this
      ensures View() == Receive(old(View()), Enumerate(reply))
      ensures ret <==> reply.Some?
    {
      if reply == None {
        return false;
      }
      var paths := reply.value;
      ghost var before := View();
      for i := 0 to |paths|
        invariant View() == before.(devices := before.devices + paths[..i])
      {
        Add(paths[i]);
        assert paths[..i + 1] == paths[..i] + [paths[i]];
      }
      assert paths[..|paths|] == paths;
      isEnumerated := true;
      ret := true;
    }

    /** A signal is passed on to the application exactly when it is news. */
    method ProxySignal(s: Signal) returns (emitted: bool)
      modifies this
      ensures View() == Receive(old(View()), Heard(s))
      ensures emitted <==> old(isEnumerated) && (s.DeviceAdded? <==> s.path !in old(View()).devices)
    {
      emitted := false;
      if !isEnumerated {
        return;
      }
      match s
      case DeviceAdded(path) => emitted := OnDeviceAdded(path);
      case DeviceRemoved(path) => emitted := OnDeviceRemoved(path);
      case DeviceChanged(path) =>
        var k := FindDevice(path);
        assert k == |devices| ==> Paths(devices)[..k] == Paths(devices);
        emitted := k < |devices|;
    }
  }
}
