/** Flight mode saves one state per type and restores through the aggregate,
    which is not monotone in the states of the devices. */
module SaveRestore {
  import opened Rfkill
  import opened Aggregate
  import opened Protocol

  function Softened(S: set<Switch>, b: bool): set<Switch> {
    set s | s in S :: s.(soft := b)
  }

  // ---- one type, on sets of switches --------------------------------------

  /** A hard block that no soft-blocked platform device can hide. */
  predicate HardShows(S: set<Switch>) {
    AnyHard(S, true) || (!AnyOf(S, true) && AnyHard(S, false))
  }

  lemma SoftenedFacts(S: set<Switch>, b: bool, platform: bool)
    ensures Softened(S, b) == {} <==> S == {}
    ensures AnyOf(Softened(S, b), platform) == AnyOf(S, platform)
    ensures AnyHard(Softened(S, b), platform) == AnyHard(S, platform)
    ensures AnyBlocked(Softened(S, b), platform) == if b then AnyOf(S, platform) else AnyHard(S, platform)
  {
    var T := Softened(S, b);
    forall s | s in S ensures s.(soft := b) in T {}
    if some :| some in S {
      assert some.(soft := b) in T;
    }
  }

  lemma SomeClass(S: set<Switch>)
    ensures S != {} <==> AnyOf(S, true) || AnyOf(S, false)
    ensures forall p :: AnyHard(S, p) ==> AnyBlocked(S, p) && AnyOf(S, p)
    ensures forall p :: AnyBlocked(S, p) ==> AnyOf(S, p)
  {
    if some :| some in S {
      assert some.platform == true || some.platform == false;
    }
  }

  lemma AggregateOfSoftened(S: set<Switch>, b: bool)
    ensures AggregateOf(Softened(S, b)) ==
            if S == {} then NoAdapter
            else if b then (if HardShows(S) then HardBlocked else SoftBlocked)
            else if AnyHard(S, true) || AnyHard(S, false) then HardBlocked else Unblocked
    ensures HardShows(Softened(S, b)) == HardShows(S)
  {
    SoftenedFacts(S, b, true);
    SoftenedFacts(S, b, false);
    SomeClass(S);
  }

  lemma SoftenedTwice(S: set<Switch>, a: bool, b: bool)
    ensures Softened(Softened(S, a), b) == Softened(S, b)
  {
    forall s | s in S ensures s.(soft := b) in Softened(Softened(S, a), b) {
      assert s.(soft := a) in Softened(S, a) && s.(soft := a).(soft := b) == s.(soft := b);
    }
  }

  /** Block everything, then undo with the state saved before: same aggregate. */
  lemma OnOffRestores(S: set<Switch>)
    ensures var on := Softened(S, true);
            AggregateOf(Softened(on, Want(AggregateOf(S), AggregateOf(on), false))) == AggregateOf(S)
  {
    var want := Want(AggregateOf(S), AggregateOf(Softened(S, true)), false);
    SoftenedTwice(S, true, want);
    AggregateOfSoftened(S, true);
    AggregateOfSoftened(S, want);
    SomeClass(S);
  }

  /** A second "on" saves the state the first one made. The "off" then restores
      the original aggregate exactly if that was already the state after "on". */
  lemma OnOnOffRestoresIff(S: set<Switch>)
    ensures var on := Softened(S, true);
            AggregateOf(Softened(on, Want(AggregateOf(on), AggregateOf(on), false))) == AggregateOf(S)
            <==> AggregateOf(S) == NoAdapter || AggregateOf(S) == SoftBlocked || HardShows(S)
  {
    var want := Want(AggregateOf(Softened(S, true)), AggregateOf(Softened(S, true)), false);
    SoftenedTwice(S, true, want);
    AggregateOfSoftened(S, true);
    AggregateOfSoftened(S, want);
    SomeClass(S);
  }

  // ---- the whole table ----------------------------------------------------

  /** d' is d with every device of type t or higher set to what that type wants. */
  ghost predicate WantedFrom(d: Daemon, d': Daemon, t: int, block: bool) {
    && d'.table.Keys == d.table.Keys
    && forall i :: i in d.table ==>
         d'.table[i] ==
         if d.table[i].rf < t then d.table[i] else d.table[i].(soft := WantBlock(d, d.table[i].rf, block))
  }

  function SavedAfter(d: Daemon, t: RfType, block: bool): KillswitchState {
    if StateOf(d, t) == NoAdapter then NoAdapter else if block then StateOf(d, t) else Saved(d.saved, t)
  }

  lemma NoAdapterMeansNone(d: Daemon, t: RfType)
    ensures StateOf(d, t) == NoAdapter <==> !HasType(d.table, t)
  {
    var S := Switches(d.table, d.platform, t);
    if i :| i in d.table && d.table[i].rf == t {
      assert Switch(i in d.platform, d.table[i].soft, d.table[i].hard) in S;
    } else {
      assert S == {};
    }
  }

  /** r is w after the step for type t, which leaves what the other types look like alone. */
  ghost predicate FlewType(w: World, r: World, t: RfType, block: bool) {
    var d, d' := w.daemon, r.daemon;
    && d'.table.Keys == d.table.Keys && d'.platform == d.platform && d'.forceSync == d.forceSync
    && (forall i :: i in d.table ==>
          d'.table[i] == if d.table[i].rf == t then d.table[i].(soft := WantBlock(d, t, block)) else d.table[i])
    && Saved(d'.saved, t) == SavedAfter(d, t, block)
    && (forall u: RfType :: u != t ==> StateOf(d', u) == StateOf(d, u) && Saved(d'.saved, u) == Saved(d.saved, u))
    && r.kernel.Listed() && r.kernel.writable
  }

  lemma FlightTypeEffect(w: World, t: RfType, block: bool)
    requires w.kernel.Listed() && w.kernel.writable
    ensures FlewType(w, FlightType(w, t, block), t, block)
  {
    var d, d' := w.daemon, FlightType(w, t, block).daemon;
    NoAdapterMeansNone(d, t);
    forall u: RfType | u != t ensures StateOf(d', u) == StateOf(d, u) {
      assert Switches(d'.table, d'.platform, u) == Switches(d.table, d.platform, u);
    }
  }

  /** r is w after the loop over the types from t on. */
  ghost predicate FlownFrom(w: World, r: World, t: int, block: bool) {
    && WantedFrom(w.daemon, r.daemon, t, block) && r.daemon.platform == w.daemon.platform && r.kernel.writable
    && r.daemon.forceSync == w.daemon.forceSync
    && forall u: RfType ::
         Saved(r.daemon.saved, u) == if u < t then Saved(w.daemon.saved, u) else SavedAfter(w.daemon, u, block)
  }

  lemma FlownOneMore(w: World, w1: World, r: World, t: RfType, block: bool)
    requires FlewType(w, w1, t, block) && FlownFrom(w1, r, t + 1, block)
    ensures FlownFrom(w, r, t, block)
  {
    assert forall u: RfType :: u != t ==> WantBlock(w1.daemon, u, block) == WantBlock(w.daemon, u, block);
  }

  lemma {:induction false} FlightFromEffect(w: World, t: int, block: bool)
    requires RFKILL_TYPE_ALL < t <= NUM_RFKILL_TYPES && w.kernel.Listed() && w.kernel.writable
    ensures FlownFrom(w, FlightFrom(w, t, block), t, block)
    decreases NUM_RFKILL_TYPES - t
  {
    if t < NUM_RFKILL_TYPES {
      FlightTypeEffect(w, t, block);
      FlightFromEffect(FlightType(w, t, block), t + 1, block);
      FlownOneMore(w, FlightType(w, t, block), FlightFrom(w, t, block), t, block);
    }
  }

  lemma FlownStart(w: World, w0: World, r: World, block: bool)
    requires w0 == w.(daemon := w.daemon.(persisted := w0.daemon.persisted)) && FlownFrom(w0, r, 1, block)
    ensures FlownFrom(w, r, 1, block)
  {
    assert forall u: RfType :: StateOf(w0.daemon, u) == StateOf(w.daemon, u);
    assert forall u: RfType :: WantBlock(w0.daemon, u, block) == WantBlock(w.daemon, u, block);
  }

  lemma FlightModeEffect(w: World, block: bool)
    requires w.kernel.Listed() && w.kernel.writable
    ensures FlownFrom(w, FlightMode(w, block), 1, block)
  {
    var w0 := w.(daemon := w.daemon.(persisted := w.daemon.persisted[RFKILL_TYPE_ALL := block]));
    FlightFromEffect(w0, 1, block);
    FlownStart(w, w0, FlightMode(w, block), block);
  }

  lemma SwitchesAfterFlight(w: World, block: bool, t: RfType)
    requires w.kernel.Listed() && w.kernel.writable
    ensures var r := FlightMode(w, block).daemon;
            var S := Switches(w.daemon.table, w.daemon.platform, t);
            Switches(r.table, r.platform, t) == Softened(S, WantBlock(w.daemon, t, block))
  {
    FlightModeEffect(w, block);
    var d, r := w.daemon, FlightMode(w, block).daemon;
    var want := WantBlock(d, t, block);
    forall i | i in d.table && d.table[i].rf == t
      ensures Switch(i in r.platform, r.table[i].soft, r.table[i].hard) ==
              Switch(i in d.platform, d.table[i].soft, d.table[i].hard).(soft := want)
    {}
    assert forall i :: i in r.table ==> r.table[i].rf == d.table[i].rf;
    forall s | s in Softened(Switches(d.table, d.platform, t), want) ensures s in Switches(r.table, r.platform, t) {
      var i :| i in d.table && d.table[i].rf == t
            && s == Switch(i in d.platform, d.table[i].soft, d.table[i].hard).(soft := want);
      assert i in r.table && r.table[i].rf == t;
    }
    forall s | s in Switches(r.table, r.platform, t) ensures s in Softened(Switches(d.table, d.platform, t), want) {
      var i :| i in r.table && r.table[i].rf == t && s == Switch(i in r.platform, r.table[i].soft, r.table[i].hard);
      assert Switch(i in d.platform, d.table[i].soft, d.table[i].hard) in Switches(d.table, d.platform, t);
    }
  }

  /** "on" then "off" gives every type back its aggregate state, for every mix of
      devices, if the writes go through and no event comes between. */
  lemma FlightModeRestores(w: World, t: RfType)
    requires w.kernel.Listed() && w.kernel.writable
    ensures var on := FlightMode(w, true);
            on.kernel.Listed() && StateOf(FlightMode(on, false).daemon, t) == StateOf(w.daemon, t)
  {
    var on := FlightMode(w, true);
    FlightModeEffect(w, true);
    SwitchesAfterFlight(w, true, t);
    SwitchesAfterFlight(on, false, t);
    var S := Switches(w.daemon.table, w.daemon.platform, t);
    OnOffRestores(S);
    AggregateOfSoftened(S, true);
  }

  /** The soft bit that "on" then "off" leave on every device of a type. */
  predicate RestoredSoft(S: set<Switch>) {
    AggregateOf(S) == SoftBlocked || HardShows(S)
  }

  lemma OffWants(w: World, t: RfType)
    requires w.kernel.Listed() && w.kernel.writable
    requires Switches(w.daemon.table, w.daemon.platform, t) != {}
    ensures var on := FlightMode(w, true);
            WantBlock(on.daemon, t, false) == RestoredSoft(Switches(w.daemon.table, w.daemon.platform, t))
  {
    var S := Switches(w.daemon.table, w.daemon.platform, t);
    FlightModeEffect(w, true);
    SwitchesAfterFlight(w, true, t);
    AggregateOfSoftened(S, true);
    SomeClass(S);
  }

  lemma OffTable(w: World)
    requires w.kernel.Listed() && w.kernel.writable
    ensures var d, on := w.daemon, FlightMode(w, true);
            && on.kernel.Listed()
            && FlightMode(on, false).daemon.table.Keys == d.table.Keys
            && forall i :: i in d.table ==>
                 var b := RestoredSoft(Switches(d.table, d.platform, d.table[i].rf));
                 FlightMode(on, false).daemon.table[i] == d.table[i].(soft := b)
  {
    var d, on := w.daemon, FlightMode(w, true);
    FlightModeEffect(w, true);
    FlightModeEffect(on, false);
    forall i | i in d.table
      ensures WantBlock(on.daemon, d.table[i].rf, false) == RestoredSoft(Switches(d.table, d.platform, d.table[i].rf))
    {
      var t := d.table[i].rf;
      assert Switch(i in d.platform, d.table[i].soft, d.table[i].hard) in Switches(d.table, d.platform, t);
      OffWants(w, t);
    }
  }

  ghost predicate SoftAsRestored(d: Daemon) {
    forall i :: i in d.table ==> d.table[i].soft == RestoredSoft(Switches(d.table, d.platform, d.table[i].rf))
  }

  lemma SameTableIff(d: Daemon, r: Table)
    requires r.Keys == d.table.Keys
    requires forall i :: i in d.table ==>
               r[i] == d.table[i].(soft := RestoredSoft(Switches(d.table, d.platform, d.table[i].rf)))
    ensures r == d.table <==> SoftAsRestored(d)
  {
    if r == d.table {
      forall i | i in d.table
        ensures d.table[i].soft == RestoredSoft(Switches(d.table, d.platform, d.table[i].rf))
      {
        assert r[i] == d.table[i];
      }
    }
  }

  /** The state comes back, the single devices need not: the table is restored
      exactly if every soft bit was already the one its type is left with. */
  lemma FlightModeRestoresDevicesIff(w: World)
    requires w.kernel.Listed() && w.kernel.writable
    ensures var on := FlightMode(w, true);
            on.kernel.Listed() && (FlightMode(on, false).daemon.table == w.daemon.table <==> SoftAsRestored(w.daemon))
  {
    OffTable(w);
    SameTableIff(w.daemon, FlightMode(FlightMode(w, true), false).daemon.table);
  }

  /** Two WLAN radios, one of them blocked: "on" then "off" leaves both blocked. */
  lemma OnOffLosesADevice()
    ensures var t := map[0 := Entry(1, true, false), 1 := Entry(1, false, false)];
            var w := World(Kernel(t, [0, 1], [], true), Daemon(t, {}, map[], map[], false, false));
            w.kernel.Listed() && FlightMode(w, true).kernel.Listed()
            && FlightMode(FlightMode(w, true), false).daemon.table != t
  {
    var t := map[0 := Entry(1, true, false), 1 := Entry(1, false, false)];
    var w := World(Kernel(t, [0, 1], [], true), Daemon(t, {}, map[], map[], false, false));
    var S := Switches(t, {}, 1);
    assert S == {Switch(false, true, false), Switch(false, false, false)} by {
      assert t[0].rf == 1 && t[1].rf == 1;
      assert Switch(0 in {}, t[0].soft, t[0].hard) in S && Switch(1 in {}, t[1].soft, t[1].hard) in S;
    }
    assert !AnyHard(S, true) && !AnyHard(S, false) && !AnyBlocked(S, true);
    assert Switch(false, true, false) in S && AnyBlocked(S, false);
    assert AggregateOf(S) == SoftBlocked;
    assert RestoredSoft(S) && !t[1].soft;
    FlightModeRestoresDevicesIff(w);
    assert !SoftAsRestored(w.daemon) by {
      assert 1 in w.daemon.table && w.daemon.table[1].rf == 1;
    }
  }

  /** The exact cases in which a doubled "on" still lets "off" restore the state. */
  lemma DoubleOnRestoresIff(w: World, t: RfType)
    requires w.kernel.Listed() && w.kernel.writable
    ensures var on1 := FlightMode(w, true);
            var on2 := FlightMode(on1, true);
            var s := StateOf(w.daemon, t);
            (StateOf(FlightMode(on2, false).daemon, t) == s)
            <==> s == NoAdapter || s == SoftBlocked || HardShows(Switches(w.daemon.table, w.daemon.platform, t))
  {
    var on1 := FlightMode(w, true);
    var on2 := FlightMode(on1, true);
    FlightModeEffect(w, true);
    FlightModeEffect(on1, true);
    SwitchesAfterFlight(w, true, t);
    SwitchesAfterFlight(on1, true, t);
    SwitchesAfterFlight(on2, false, t);
    var S := Switches(w.daemon.table, w.daemon.platform, t);
    SoftenedTwice(S, true, true);
    AggregateOfSoftened(S, true);
    OnOnOffRestoresIff(S);
  }

  /** One unblocked WLAN radio that accepts writes. */
  function LoneRadio(): (w: World)
    ensures w.kernel.Listed() && w.kernel.writable
  {
    World(Kernel(map[0 := Entry(1, false, false)], [0], [], true),
          Daemon(map[0 := Entry(1, false, false)], {}, map[], map[], false, false))
  }

  lemma LoneRadioState()
    ensures var d := LoneRadio().daemon;
            AggregateOf(Switches(d.table, d.platform, 1)) == Unblocked && !HardShows(Switches(d.table, d.platform, 1))
  {
    var d := LoneRadio().daemon;
    var S := Switches(d.table, d.platform, 1);
    assert S == {Switch(false, false, false)} by {
      assert 0 in d.table && Switch(0 in d.platform, d.table[0].soft, d.table[0].hard) in S;
    }
  }

  /** A single unblocked radio: on, on, off leaves it blocked. */
  lemma DoubleOnLosesTheState()
    ensures var w := LoneRadio();
            StateOf(FlightMode(FlightMode(FlightMode(w, true), true), false).daemon, 1) != StateOf(w.daemon, 1)
  {
    LoneRadioState();
    DoubleOnRestoresIff(LoneRadio(), 1);
  }

  /** Flight mode leaves its own bit in the persistence file, whatever the writes do. */
  lemma {:induction false} FlightRemembered(w: World, t: int, block: bool)
    requires RFKILL_TYPE_ALL < t <= NUM_RFKILL_TYPES && w.kernel.Listed()
    requires RFKILL_TYPE_ALL in w.daemon.persisted
    ensures var r := FlightFrom(w, t, block);
            && RFKILL_TYPE_ALL in r.daemon.persisted
            && r.daemon.persisted[RFKILL_TYPE_ALL] == w.daemon.persisted[RFKILL_TYPE_ALL]
    decreases NUM_RFKILL_TYPES - t
  {
    if t < NUM_RFKILL_TYPES {
      FlightRemembered(FlightType(w, t, block), t + 1, block);
    }
  }

  lemma FlightModeRemembered(w: World, block: bool)
    requires w.kernel.Listed()
    ensures var m := FlightMode(w, block).daemon.persisted;
            m[RFKILL_TYPE_ALL := block] == m
  {
    FlightRemembered(w.(daemon := w.daemon.(persisted := w.daemon.persisted[RFKILL_TYPE_ALL := block])), 1, block);
  }

  // ---- keys ---------------------------------------------------------------

  function Pressed(S: set<Switch>): set<Switch> {
    match AggregateOf(S)
    case NoAdapter => S
    case Unblocked => Softened(S, true)
    case HardBlocked => Softened(S, true)
    case SoftBlocked => Softened(S, false)
  }

  /** A second press always moves the aggregate back. */
  lemma PressTwice(S: set<Switch>)
    ensures AggregateOf(Pressed(Pressed(S))) == AggregateOf(S)
  {
    var b1 := AggregateOf(S) != SoftBlocked;
    var b2 := AggregateOf(Softened(S, b1)) != SoftBlocked;
    AggregateOfSoftened(S, b1);
    AggregateOfSoftened(S, b2);
    SoftenedTwice(S, b1, b2);
    SomeClass(S);
  }

  /** One press moves the aggregate unless a hard block shows; without any hard
      block it flips between UNBLOCKED and SOFT. */
  lemma PressMoves(S: set<Switch>)
    ensures AggregateOf(Pressed(S)) != AggregateOf(S) <==> AggregateOf(S) != NoAdapter && !HardShows(S)
    ensures S != {} && !AnyHard(S, true) && !AnyHard(S, false) ==>
            AggregateOf(Pressed(S)) == if AggregateOf(S) == Unblocked then SoftBlocked else Unblocked
  {
    AggregateOfSoftened(S, AggregateOf(S) != SoftBlocked);
    SomeClass(S);
  }

  lemma KeyPressEffect(w: World, t: RfType)
    requires w.kernel.Listed() && w.kernel.writable
    ensures var r := KeyPress(w, t);
            && r.kernel.Listed() && r.kernel.writable
            && Switches(r.daemon.table, r.daemon.platform, t) == Pressed(Switches(w.daemon.table, w.daemon.platform, t))
  {
    var d, r := w.daemon, KeyPress(w, t);
    var S := Switches(d.table, d.platform, t);
    NoAdapterMeansNone(d, t);
    if StateOf(d, t) != NoAdapter {
      var b := StateOf(d, t) != SoftBlocked;
      assert r.daemon.table == WriteAll(d.table, t, b) && r.daemon.platform == d.platform;
      forall s | s in Softened(S, b) ensures s in Switches(r.daemon.table, r.daemon.platform, t) {
        var i :| i in d.table && d.table[i].rf == t
              && s == Switch(i in d.platform, d.table[i].soft, d.table[i].hard).(soft := b);
        assert i in r.daemon.table && r.daemon.table[i].rf == t;
      }
      forall s | s in Switches(r.daemon.table, r.daemon.platform, t) ensures s in Softened(S, b) {
        var i :| i in r.daemon.table && r.daemon.table[i].rf == t
              && s == Switch(i in r.daemon.platform, r.daemon.table[i].soft, r.daemon.table[i].hard);
        assert Switch(i in d.platform, d.table[i].soft, d.table[i].hard) in S;
      }
    }
  }

  function PressedTimes(S: set<Switch>, n: nat): set<Switch> {
    if n == 0 then S else Pressed(PressedTimes(S, n - 1))
  }

  lemma TwoMorePresses(S: set<Switch>, n: nat)
    ensures AggregateOf(PressedTimes(S, n + 2)) == AggregateOf(PressedTimes(S, n))
  {
    var T := PressedTimes(S, n);
    PressTwice(T);
    assert PressedTimes(S, n + 1) == Pressed(T);
    assert PressedTimes(S, n + 2) == Pressed(Pressed(T));
  }

  lemma {:induction false} PressesAlternate(S: set<Switch>, n: nat)
    ensures AggregateOf(PressedTimes(S, n)) == AggregateOf(PressedTimes(S, n % 2))
  {
    if n >= 2 {
      TwoMorePresses(S, n - 2);
      PressesAlternate(S, n - 2);
    }
  }

  function KeyPresses(w: World, t: RfType, n: nat): (r: World)
    requires w.kernel.Listed()
    ensures r.kernel.Listed()
  {
    if n == 0 then w else KeyPress(KeyPresses(w, t, n - 1), t)
  }

  lemma {:induction false} KeyPressesOnSwitches(w: World, t: RfType, n: nat)
    requires w.kernel.Listed() && w.kernel.writable
    ensures var r := KeyPresses(w, t, n);
            && r.kernel.writable
            && Switches(r.daemon.table, r.daemon.platform, t)
            == PressedTimes(Switches(w.daemon.table, w.daemon.platform, t), n)
  {
    if n > 0 {
      KeyPressesOnSwitches(w, t, n - 1);
      KeyPressEffect(KeyPresses(w, t, n - 1), t);
    }
  }

  /** Any even number of presses of a key gives the type its state back, for every
      mix of devices. */
  lemma EvenPressesRestore(w: World, t: RfType, n: nat)
    requires w.kernel.Listed() && w.kernel.writable && n % 2 == 0
    ensures StateOf(KeyPresses(w, t, n).daemon, t) == StateOf(w.daemon, t)
  {
    KeyPressesOnSwitches(w, t, n);
    PressesAlternate(Switches(w.daemon.table, w.daemon.platform, t), n);
  }

  lemma OddPresses(S: set<Switch>, n: nat)
    requires n % 2 == 1
    ensures AggregateOf(PressedTimes(S, n)) != AggregateOf(S) <==> AggregateOf(S) != NoAdapter && !HardShows(S)
  {
    PressesAlternate(S, n);
    assert PressedTimes(S, 1) == Pressed(PressedTimes(S, 0));
    PressMoves(S);
  }

  /** Any odd number of presses moves it, exactly if there is a device and no hard
      block shows. */
  lemma OddPressesMoveIff(w: World, t: RfType, n: nat)
    requires w.kernel.Listed() && w.kernel.writable && n % 2 == 1
    ensures StateOf(KeyPresses(w, t, n).daemon, t) != StateOf(w.daemon, t)
            <==> HasType(w.daemon.table, t) && !HardShows(Switches(w.daemon.table, w.daemon.platform, t))
  {
    KeyPressesOnSwitches(w, t, n);
    OddPresses(Switches(w.daemon.table, w.daemon.platform, t), n);
    NoAdapterMeansNone(w.daemon, t);
  }
}
