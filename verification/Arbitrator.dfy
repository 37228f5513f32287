/** The arbitrator as an object: the list of devices, one killswitch per type and
    the port. Its abstract value is the daemon half of a World, and each method is
    tied to the function of the same step. */
module Arbitrator {
  import opened Rfkill
  import opened Aggregate
  import opened Protocol
  import opened Convergence
  import opened SaveRestore
  import opened Termination
  import opened Device
  import Restart

  /** The remembered bits of the persistence file. */
  class PersistenceFile {
    var persisted: map<int, bool>

    constructor (m: map<int, bool>)
      ensures persisted == m
    {
      persisted := m;
    }

    function Get(t: int): bool
      reads this
    {
      Persisted(persisted, t)
    }

    method Set(t: int, level: int)
      modifies this
      ensures persisted == old(persisted)[t := level > 0]
    {
      persisted := persisted[t := level > 0];
    }
  }

  ghost function OfType(ds: set<KernelDevice>, t: RfType): set<KernelDevice> {
    set d | d in ds && d.rf == t
  }

  lemma NeverTwice<T>(s: seq<T>, S: set<T>, m: nat, n: nat)
    requires multiset(s) == multiset(S) && m < n < |s|
    ensures s[m] != s[n]
  {
    assert s == s[..n] + [s[n]] + s[n + 1..];
    assert s[..n][m] == s[m] && s[m] in multiset(s[..n]);
    assert multiset(s)[s[n]] <= 1;
  }

  lemma AddedOnce<T>(s: seq<T>, S: set<T>, x: T)
    requires multiset(s) == multiset(S) && x !in S
    ensures multiset([x] + s) == multiset(s + [x]) == multiset(S + {x})
  {}

  lemma LeftOnce<T>(s: seq<T>, S: set<T>, x: T)
    requires multiset(s) == multiset(S) && x in S
    ensures multiset(Removed(s, x)) == multiset(S - {x})
  {
    RemovedOnce(s, x);
  }

  lemma AddedOnceOfType(s: seq<KernelDevice>, S: set<KernelDevice>, x: KernelDevice, t: RfType)
    requires multiset(s) == multiset(OfType(S, t)) && x !in S
    ensures multiset(if t == x.rf then [x] + s else s) == multiset(OfType(S + {x}, t))
  {
    if t == x.rf {
      assert OfType(S + {x}, t) == OfType(S, t) + {x};
      AddedOnce(s, OfType(S, t), x);
    } else {
      assert OfType(S + {x}, t) == OfType(S, t);
    }
  }

  lemma LeftOnceOfType(s: seq<KernelDevice>, S: set<KernelDevice>, x: KernelDevice, t: RfType)
    requires multiset(s) == multiset(OfType(S, t)) && x in S
    ensures multiset(if t == x.rf then Removed(s, x) else s) == multiset(OfType(S - {x}, t))
  {
    if t == x.rf {
      assert OfType(S - {x}, t) == OfType(S, t) - {x};
      LeftOnce(s, OfType(S, t), x);
    } else {
      assert OfType(S - {x}, t) == OfType(S, t);
    }
  }

  class UrfArbitrator {
    const config: PersistenceFile
    const forceSync: bool
    const persist: bool
    const killswitch: seq<Killswitch?>
    ghost const switches: set<Killswitch>
    var devices: seq<KernelDevice>
    /** The kernel behind the file descriptor: the environment. */
    var kernel: Kernel
    /** The tracked devices, and the one of each index. */
    ghost var tracked: set<KernelDevice>
    ghost var byIndex: map<nat, KernelDevice>
    /** The abstract value. */
    ghost var table: Table
    ghost var platform: set<nat>
    ghost var saved: map<RfType, KillswitchState>

    ghost predicate Wired() {
      && |killswitch| == NUM_RFKILL_TYPES && killswitch[RFKILL_TYPE_ALL] == null
      && forall t: RfType :: killswitch[t] != null && killswitch[t].rf == t && killswitch[t] in switches
    }

    /** The registry: every tracked device sits exactly once in the arbitrator's list
        and exactly once in the list of its own type, no list holds anything else,
        indices are unique and both lists hold one reference each. */
    ghost predicate Registered()
      requires Wired()
      reads this`devices, this`tracked, this`byIndex, switches`devices, tracked`refs
    {
      && multiset(devices) == multiset(tracked)
      && (forall t: RfType :: multiset(killswitch[t].devices) == multiset(OfType(tracked, t)))
      && (forall d :: d in tracked ==> d.refs == 2 && d.index in byIndex && byIndex[d.index] == d)
      && (forall i :: i in byIndex ==> byIndex[i] in tracked && byIndex[i].index == i)
    }

    /** The abstract table says what the devices say. */
    ghost predicate TableAgrees()
      reads this`tracked, this`byIndex, this`table, this`platform, tracked`soft, tracked`hard
    {
      && table.Keys == byIndex.Keys && platform <= byIndex.Keys
      && (forall d :: d in tracked ==> d.index in table && table[d.index] == Entry(d.rf, d.soft, d.hard))
      && (forall d :: d in tracked ==> (d.index in platform <==> d.platform))
    }

    ghost predicate SavedAgrees()
      requires Wired()
      reads this`saved, switches`saved
    {
      forall t: RfType :: Saved(saved, t) == killswitch[t].saved
    }

    ghost predicate Valid()
      reads this, switches, tracked
    {
      Wired() && Registered() && TableAgrees() && SavedAgrees() && kernel.Listed()
    }

    ghost function View(): World
      reads this, config
    {
      World(kernel, Daemon(table, platform, saved, config.persisted, forceSync, persist))
    }

    lemma NoDevices()
      requires Valid()
      ensures devices == [] <==> tracked == {}
    {
      assert |devices| == |multiset(devices)| == |tracked|;
    }

    /** What the registry says in plain words. */
    lemma RegistryMeans()
      requires Valid()
      ensures forall m, n :: 0 <= m < n < |devices| ==> devices[m].index != devices[n].index
      ensures forall d :: d in devices ==> d.refs == 2 && d in killswitch[d.rf].devices
      ensures forall t: RfType, n :: 0 <= n < |killswitch[t].devices| ==>
                killswitch[t].devices[n] in devices && killswitch[t].devices[n].rf == t
      ensures forall t: RfType, m, n :: 0 <= m < n < |killswitch[t].devices| ==>
                killswitch[t].devices[m] != killswitch[t].devices[n]
    {
      assert forall d :: d in devices <==> d in multiset(devices);
      forall d | d in devices ensures d in killswitch[d.rf].devices {
        ListOfType(d.rf);
      }
      forall m, n | 0 <= m < n < |devices| ensures devices[m].index != devices[n].index {
        NeverTwice(devices, tracked, m, n);
        assert devices[m] in multiset(devices) && devices[n] in multiset(devices);
      }
      forall t: RfType, n | 0 <= n < |killswitch[t].devices|
        ensures killswitch[t].devices[n] in devices && killswitch[t].devices[n].rf == t
      {
        ListOfType(t);
        assert killswitch[t].devices[n] in killswitch[t].devices;
      }
      forall t: RfType, m, n | 0 <= m < n < |killswitch[t].devices|
        ensures killswitch[t].devices[m] != killswitch[t].devices[n]
      {
        NeverTwice(killswitch[t].devices, OfType(tracked, t), m, n);
      }
    }

    constructor (kernel: Kernel, config: PersistenceFile, forceSync: bool, persist: bool)
      requires kernel.Listed()
      ensures Valid() && devices == []
      ensures this.kernel == kernel && this.config == config && this.forceSync == forceSync && this.persist == persist
      ensures View() == World(kernel, Daemon(map[], {}, map[], config.persisted, forceSync, persist))
      ensures fresh(switches)
    {
      this.kernel, this.config, this.forceSync, this.persist := kernel, config, forceSync, persist;
      devices, tracked, byIndex := [], {}, map[];
      var ks: seq<Killswitch?> := [null];
      ghost var made: set<Killswitch> := {};
      for t := RFKILL_TYPE_ALL + 1 to NUM_RFKILL_TYPES
        invariant |ks| == t && ks[0] == null
        invariant forall n :: 1 <= n < t ==>
                    && ks[n] != null && ks[n].rf == n && ks[n] in made
                    && ks[n].devices == [] && ks[n].saved == NoAdapter
        invariant fresh(made)
      {
        var k := new Killswitch(t);
        ks := ks + [k];
        made := made + {k};
      }
      killswitch := ks;
      switches := made;
      table, platform, saved := map[], {}, map[];
    }

    method FindDevice(index: nat) returns (device: KernelDevice?)
      requires Valid()
      ensures index in byIndex ==> device == byIndex[index]
      ensures index !in byIndex ==> device == null
    {
      assert index in byIndex ==> byIndex[index] in multiset(devices);
      for n := 0 to |devices|
        invariant forall m :: 0 <= m < n ==> devices[m].index != index
      {
        assert devices[n] in multiset(devices);
        if devices[n].index == index {
          return devices[n];
        }
      }
      device := null;
    }

    /** What the abstract table says about the tracked devices, and the other way round. */
    lemma TrackedMeans()
      requires Valid()
      ensures table.Keys == byIndex.Keys && platform <= byIndex.Keys
      ensures forall d :: d in tracked ==> d.index in table && table[d.index] == Entry(d.rf, d.soft, d.hard)
      ensures forall d :: d in tracked ==> d.index in byIndex && byIndex[d.index] == d
      ensures forall i :: i in byIndex ==> byIndex[i] in tracked && byIndex[i].index == i
      ensures forall d :: d in tracked ==> (d.index in platform <==> d.platform)
    {}

    /** A soft block asked for through one device, and the abstract table after it. */
    method SetDeviceSoft(device: KernelDevice, block: bool) returns (result: bool)
      requires Valid() && device in tracked
      modifies this`kernel, device`soft, this`table
      ensures Valid() && result == old(kernel.writable)
      ensures kernel == Write(old(kernel), device.rf, block)
      ensures table == if result then old(table)[device.index := Entry(device.rf, block, device.hard)] else old(table)
    {
      hide Registered;
      hide TableAgrees;
      hide SavedAgrees;
      TrackedMeans();
      result, kernel := device.SetSoft(kernel, block);
      RewriteEntry(device);
    }

    method SetBlockIdx(index: nat, block: bool) returns (result: bool)
      requires Valid()
      modifies this`kernel, tracked`soft, this`table
      ensures Valid()
      ensures View() == Protocol.SetBlockIdx(old(View()), index, block)
      ensures result == (index in byIndex && old(kernel.writable))
    {
      result := false;
      var device := FindDevice(index);
      if device != null {
        result := SetDeviceSoft(device, block);
      }
    }

    /** The list of a type holds its tracked devices. */
    lemma ListOfType(t: RfType)
      requires Wired() && Registered() && TableAgrees()
      ensures forall d :: d in killswitch[t].devices <==> d in tracked && d.rf == t
      ensures killswitch[t].devices == [] <==> !HasType(table, t)
    {
      var ds := killswitch[t].devices;
      assert forall d :: d in multiset(ds) <==> d in OfType(tracked, t);
      assert forall d :: d in ds <==> d in multiset(ds);
      if i :| i in table && table[i].rf == t {
        assert byIndex[i] in ds;
      }
      if ds != [] {
        assert ds[0] in ds && table[ds[0].index].rf == t;
      }
    }

    /** What the killswitch computes from its list is what the abstract value shows. */
    lemma StateOfType(t: RfType)
      requires Valid()
      ensures RefreshState(SwitchList(killswitch[t].devices)) == StateOf(View().daemon, t)
    {
      ListOfType(t);
      SwitchesOfList(t);
      RefreshIsAggregate(SwitchList(killswitch[t].devices));
    }

    lemma SwitchesOfList(t: RfType)
      requires Wired() && Registered() && TableAgrees()
      requires forall d :: d in killswitch[t].devices <==> d in tracked && d.rf == t
      ensures (set s | s in SwitchList(killswitch[t].devices)) == Switches(table, platform, t)
    {
      var ds := killswitch[t].devices;
      var S := Switches(table, platform, t);
      forall s | s in SwitchList(ds) ensures s in S {
        var n :| 0 <= n < |ds| && SwitchList(ds)[n] == s;
        var d := ds[n];
        assert d in ds && s == Switch(d.index in platform, table[d.index].soft, table[d.index].hard);
      }
      forall s | s in S ensures s in SwitchList(ds) {
        var i :| i in table && table[i].rf == t && s == Switch(i in platform, table[i].soft, table[i].hard);
        assert byIndex[i] in ds;
        var n :| 0 <= n < |ds| && ds[n] == byIndex[i];
        assert SwitchList(ds)[n] == s;
      }
    }

    /** What the killswitch of a type does to the objects. */
    method SetListSoft(t: RfType, block: bool) returns (result: bool)
      requires Valid()
      modifies this`kernel, tracked`soft
      ensures Registered() && SavedAgrees() && kernel.Listed()
      ensures result == (killswitch[t].devices == [] || old(kernel).writable)
      ensures kernel == if killswitch[t].devices == [] then old(kernel) else Write(old(kernel), t, block)
      ensures forall d :: d in tracked ==> d.soft == if d.rf == t && old(kernel).writable then block else old(d.soft)
    {
      ListOfType(t);
      result, kernel := killswitch[t].SetSoftwareBlocked(kernel, block);
    }

    /** The same, with the abstract value following. */
    method SetTypeSoft(t: RfType, block: bool) returns (result: bool)
      requires Valid()
      modifies this`kernel, tracked`soft, this`table
      ensures Valid() && result == (!HasType(old(table), t) || old(kernel).writable)
      ensures kernel == if HasType(old(table), t) then Write(old(kernel), t, block) else old(kernel)
      ensures table == if HasType(old(table), t) && result then WriteAll(old(table), t, block) else old(table)
    {
      hide Registered;
      hide TableAgrees;
      hide SavedAgrees;
      hide HasType;
      ghost var has := HasType(table, t);
      ListOfType(t);
      TrackedMeans();
      result := SetListSoft(t, block);
      RewriteType(t, block, has && result);
    }

    /** The abstract entries of one type follow its devices, if they changed. */
    ghost method RewriteType(t: RfType, block: bool, changed: bool)
      requires Wired() && Registered() && SavedAgrees() && kernel.Listed()
      requires table.Keys == byIndex.Keys && platform <= byIndex.Keys
      requires forall d :: d in tracked ==> d.index in table && table[d.index].rf == d.rf
      requires forall d :: d in tracked ==>
                 var e := table[d.index];
                 Entry(d.rf, d.soft, d.hard) == if changed && d.rf == t then e.(soft := block) else e
      requires forall d :: d in tracked ==> (d.index in platform <==> d.platform)
      modifies this`table
      ensures Valid() && table == if changed then WriteAll(old(table), t, block) else old(table)
    {
      hide Registered;
      hide SavedAgrees;
      if changed {
        table := WriteAll(table, t, block);
      }
    }

    method SetBlock(t: RfType, block: bool) returns (result: bool)
      requires Valid()
      modifies this`kernel, tracked`soft, this`table, config
      ensures Valid() && result == SetBlockResult(old(View()), t)
      ensures View() == Protocol.SetBlock(old(View()), t, block)
    {
      hide Registered;
      hide TableAgrees;
      hide SavedAgrees;
      result := SetTypeSoft(t, block);
      if result {
        config.Set(t, if block then 1 else 0);
      }
    }

    /** The killswitch of a type recomputes its state and may forget the saved one. */
    method PollState(t: RfType) returns (s: KillswitchState)
      requires Valid()
      modifies switches`state, switches`saved, this`saved
      ensures Valid() && killswitch[t].state == s
      ensures s == RefreshState(SwitchList(killswitch[t].devices))
      ensures saved == if killswitch[t].devices == [] then old(saved)[t := NoAdapter] else old(saved)
    {
      s := killswitch[t].GetState();
      if killswitch[t].devices == [] {
        saved := saved[t := NoAdapter];
      }
      forall u: RfType | u != t ensures Saved(saved, u) == killswitch[u].saved {
        assert killswitch[u] != killswitch[t];
      }
    }

    method GetState(t: RfType) returns (s: KillswitchState)
      requires Valid()
      modifies switches`state, switches`saved, this`saved
      ensures Valid() && killswitch[t].state == s
      ensures s == StateOf(old(View()).daemon, t)
      ensures View() == old(View()).(daemon := Refreshed(old(View()).daemon, t))
    {
      ListOfType(t);
      s := PollState(t);
      StateOfType(t);
    }

    method SetSavedState(t: RfType, s: KillswitchState)
      requires Valid()
      modifies switches`saved, this`saved
      ensures Valid() && saved == old(saved)[t := s]
    {
      killswitch[t].saved := s;
      saved := saved[t := s];
      forall u: RfType | u != t ensures Saved(saved, u) == killswitch[u].saved {
        assert killswitch[u] != killswitch[t];
      }
    }

    /** What flight mode does to a type that has devices. */
    method FlightWithDevices(t: RfType, state: KillswitchState, block: bool) returns (ret: bool)
      requires Valid() && HasType(table, t) && state != NoAdapter && state == StateOf(View().daemon, t)
      modifies this`kernel, this`table, this`saved, tracked`soft, switches`saved, config
      ensures Valid() && View() == Protocol.FlightType(old(View()), t, block)
      ensures ret == old(kernel).writable
    {
      ghost var w := View();
      var savedState := killswitch[t].saved;
      if block {
        SetSavedState(t, state);
      }
      var wantState := if !block && state == savedState then savedState.Level() > Unblocked.Level() else block;
      assert wantState == WantBlock(w.daemon, t, block);
      ret := SetBlock(t, wantState);
    }

    lemma TypeIsTracked(t: RfType)
      requires Wired() && Registered() && TableAgrees()
      ensures StateOf(View().daemon, t) != NoAdapter <==> exists d :: d in tracked && d.rf == t
    {
      NoAdapterMeansNone(View().daemon, t);
      if i :| i in table && table[i].rf == t {
        assert byIndex[i] in tracked;
      }
      if d :| d in tracked && d.rf == t {
        assert d.index in table;
      }
    }

    /** The body of the flight-mode loop. */
    method FlightType(t: RfType, block: bool) returns (acted: bool, ret: bool)
      requires Valid()
      modifies this`kernel, this`table, this`saved, tracked`soft, switches`state, switches`saved, config
      ensures Valid() && View() == Protocol.FlightType(old(View()), t, block)
      ensures acted <==> exists d :: d in tracked && d.rf == t
      ensures kernel.writable == old(kernel).writable && (acted ==> ret == kernel.writable)
    {
      TypeIsTracked(t);
      NoAdapterMeansNone(View().daemon, t);
      var state := GetState(t);
      acted, ret := state != NoAdapter, false;
      if acted {
        ret := FlightWithDevices(t, state, block);
      }
    }

    /** The loop over the types from first on. */
    method FlightLoop(first: int, block: bool) returns (ret: bool)
      requires Valid() && RFKILL_TYPE_ALL < first <= NUM_RFKILL_TYPES
      modifies this`kernel, this`table, this`saved, tracked`soft, switches`state, switches`saved, config
      ensures Valid() && View() == FlightFrom(old(View()), first, block)
      ensures ret == (old(kernel).writable && exists d :: d in tracked && first <= d.rf)
    {
      hide Registered;
      hide TableAgrees;
      hide SavedAgrees;
      hide Protocol.FlightType;
      ret := false;
      ghost var goal := FlightFrom(View(), first, block);
      for t := first to NUM_RFKILL_TYPES
        invariant Valid() && FlightFrom(View(), t, block) == goal
        invariant kernel.writable == old(kernel).writable
        invariant ret == (kernel.writable && exists d :: d in tracked && first <= d.rf < t)
      {
        var acted, r := FlightType(t, block);
        if acted {
          ret := r;
        }
      }
    }

    /** Flight mode reports success if there is any device and the kernel accepts writes. */
    method SetFlightMode(block: bool) returns (ret: bool)
      requires Valid()
      modifies this`kernel, this`table, this`saved, tracked`soft, switches`state, switches`saved, config
      ensures Valid() && View() == Protocol.FlightMode(old(View()), block)
      ensures ret == (tracked != {} && old(kernel).writable)
    {
      config.Set(RFKILL_TYPE_ALL, if block then 1 else 0);
      ret := FlightLoop(RFKILL_TYPE_ALL + 1, block);
    }

    /** The killswitch of its type takes a new device in, and no other does. */
    method EnterKillswitch(device: KernelDevice)
      requires Wired() && device !in killswitch[device.rf].devices
      modifies switches, device`refs
      ensures killswitch[device.rf].devices == [device] + old(killswitch[device.rf].devices)
      ensures device.refs == old(device.refs) + 1
      ensures forall u: RfType :: u != device.rf ==> killswitch[u].devices == old(killswitch[u].devices)
      ensures forall u: RfType :: killswitch[u].saved == old(killswitch[u].saved)
    {
      var t := device.rf;
      assert forall u: RfType :: u != t ==> killswitch[u] != killswitch[t];
      killswitch[t].AddDevice(device);
    }

    /** A new device enters both lists, each of which holds a reference. */
    method EnterLists(device: KernelDevice)
      requires Valid() && device !in tracked && device.refs == 1
      modifies this`devices, switches, device`refs
      ensures devices == old(devices) + [device] && device.refs == 2
      ensures multiset(devices) == multiset(tracked + {device})
      ensures forall u: RfType :: multiset(killswitch[u].devices) == multiset(OfType(tracked + {device}, u))
      ensures forall u: RfType :: killswitch[u].saved == old(killswitch[u].saved)
    {
      assert device !in killswitch[device.rf].devices by {
        ListOfType(device.rf);
      }
      devices := devices + [device];
      EnterKillswitch(device);
      AddedOnce(old(devices), tracked, device);
      forall u: RfType ensures multiset(killswitch[u].devices) == multiset(OfType(tracked + {device}, u)) {
        AddedOnceOfType(old(killswitch[u].devices), tracked, device, u);
      }
    }

    method Track(device: KernelDevice)
      requires Valid() && device !in tracked && device.index !in byIndex && device.refs == 1
      modifies this`devices, this`tracked, this`byIndex, switches, device`refs
      ensures Registered() && SavedAgrees() && devices == old(devices) + [device]
      ensures tracked == old(tracked) + {device} && byIndex == old(byIndex)[device.index := device]
    {
      hide TableAgrees;
      EnterLists(device);
      ExtendIndex(device);
    }

    ghost method ExtendIndex(device: KernelDevice)
      requires Wired() && device !in tracked && device.index !in byIndex && device.refs == 2
      requires multiset(devices) == multiset(tracked + {device})
      requires forall u: RfType :: multiset(killswitch[u].devices) == multiset(OfType(tracked + {device}, u))
      requires forall d :: d in tracked ==> d.refs == 2 && d.index in byIndex && byIndex[d.index] == d
      requires forall i :: i in byIndex ==> byIndex[i] in tracked && byIndex[i].index == i
      modifies this`tracked, this`byIndex
      ensures Registered()
      ensures tracked == old(tracked) + {device} && byIndex == old(byIndex)[device.index := device]
    {
      tracked := tracked + {device};
      byIndex := byIndex[device.index := device];
    }

    method EnlistDevice(device: KernelDevice)
      requires Valid() && device !in tracked && device.index !in byIndex && device.refs == 1
      modifies this`devices, this`tracked, this`byIndex, this`table, this`platform, switches, device`refs
      ensures Valid() && tracked == old(tracked) + {device} && devices == old(devices) + [device]
      ensures table == old(table)[device.index := Entry(device.rf, device.soft, device.hard)]
      ensures platform == if device.platform then old(platform) + {device.index} else old(platform) - {device.index}
    {
      assert forall d :: d in tracked ==> d.index != device.index;
      hide Registered;
      hide SavedAgrees;
      Track(device);
      ExtendTable(device);
    }

    /** The abstract value follows. */
    ghost method ExtendTable(device: KernelDevice)
      requires table.Keys + {device.index} == byIndex.Keys && platform <= table.Keys && device in tracked
      requires forall d :: d in tracked && d != device ==> d.index in table && d.index != device.index
      requires forall d :: d in tracked && d != device ==> table[d.index] == Entry(d.rf, d.soft, d.hard)
      requires forall d :: d in tracked && d != device ==> (d.index in platform <==> d.platform)
      modifies this`table, this`platform
      ensures TableAgrees()
      ensures table == old(table)[device.index := Entry(device.rf, device.soft, device.hard)]
      ensures platform == if device.platform then old(platform) + {device.index} else old(platform) - {device.index}
    {
      table := table[device.index := Entry(device.rf, device.soft, device.hard)];
      platform := if device.platform then platform + {device.index} else platform - {device.index};
    }

    /** The writes a new device may cause: its own bit, then the remembered one. */
    method SyncNewDevice(index: nat, t: RfType, soft: bool, isPlatform: bool)
      requires Valid() && index in table
      modifies this`kernel, tracked`soft, this`table
      ensures Valid()
      ensures View() == SyncNew(old(View()), index, t, soft, isPlatform)
    {
      hide Registered;
      hide TableAgrees;
      hide SavedAgrees;
      if forceSync && !isPlatform {
        var _ := SetBlockIdx(index, soft);
      }
      if persist {
        var _ := SetBlockIdx(index, config.Get(t));
      }
    }

    method TakeIn(e: Event, isPlatform: bool)
      requires Valid() && e.idx !in byIndex
      modifies this`kernel, this`devices, this`tracked, this`byIndex, this`table, this`platform, switches, tracked`soft
      ensures Valid() && fresh(tracked - old(tracked))
      ensures View() == AddDevice(old(View()), e, isPlatform)
    {
      hide Registered;
      hide TableAgrees;
      hide SavedAgrees;
      TrackedMeans();
      ghost var w := View();
      var device := new KernelDevice(e.idx, e.rf, e.soft, e.hard, isPlatform);
      EnlistDevice(device);
      assert View() == Enlist(w, e, isPlatform);
      SyncNewDevice(e.idx, e.rf, e.soft, isPlatform);
    }

    /** An ADD event: the device of a new index is listed and then written to. */
    method AddKillswitch(e: Event, isPlatform: bool)
      requires Valid()
      modifies this`kernel, this`devices, this`tracked, this`byIndex, this`table, this`platform, switches, tracked`soft
      ensures Valid() && fresh(tracked - old(tracked))
      ensures View() == AddDevice(old(View()), e, isPlatform)
    {
      var found := FindDevice(e.idx);
      if found != null {
        return;
      }
      TakeIn(e, isPlatform);
    }

    method LeaveKillswitch(device: KernelDevice)
      requires Wired() && device in killswitch[device.rf].devices && device.refs > 0
      modifies switches, device`refs
      ensures killswitch[device.rf].devices == Removed(old(killswitch[device.rf].devices), device)
      ensures device.refs == old(device.refs) - 1
      ensures forall u: RfType :: u != device.rf ==> killswitch[u].devices == old(killswitch[u].devices)
      ensures forall u: RfType ::
                killswitch[u].saved ==
                if u == device.rf && killswitch[u].devices == [] then NoAdapter else old(killswitch[u].saved)
    {
      var t := device.rf;
      assert forall u: RfType :: u != t ==> killswitch[u] != killswitch[t];
      killswitch[t].DelDevice(device);
    }

    /** A device leaves both lists, each of which gives its reference up. */
    method LeaveLists(device: KernelDevice)
      requires Valid() && device in tracked
      modifies this`devices, switches, device`refs
      ensures devices == Removed(old(devices), device) && device.refs == 0
      ensures multiset(devices) == multiset(tracked - {device})
      ensures forall u: RfType :: multiset(killswitch[u].devices) == multiset(OfType(tracked - {device}, u))
      ensures forall u: RfType ::
                killswitch[u].saved ==
                if u == device.rf && killswitch[u].devices == [] then NoAdapter else old(killswitch[u].saved)
    {
      assert device in killswitch[device.rf].devices by {
        ListOfType(device.rf);
      }
      devices := Removed(devices, device);
      LeaveKillswitch(device);
      device.Unref();
      LeftOnce(old(devices), tracked, device);
      forall u: RfType ensures multiset(killswitch[u].devices) == multiset(OfType(tracked - {device}, u)) {
        LeftOnceOfType(old(killswitch[u].devices), tracked, device, u);
      }
    }

    method Untrack(device: KernelDevice)
      requires Valid() && device in tracked
      modifies this`devices, this`tracked, this`byIndex, switches, device`refs
      ensures Registered() && device.refs == 0
      ensures tracked == old(tracked) - {device} && byIndex == old(byIndex) - {device.index}
      ensures forall u: RfType ::
                killswitch[u].saved ==
                if u == device.rf && killswitch[u].devices == [] then NoAdapter else old(killswitch[u].saved)
    {
      LeaveLists(device);
      tracked := tracked - {device};
      byIndex := byIndex - {device.index};
    }

    method ForgetDevice(device: KernelDevice)
      requires Valid() && device in tracked
      modifies this`devices, this`tracked, this`byIndex, this`table, this`platform, switches, device`refs
      ensures Registered() && TableAgrees() && device.refs == 0
      ensures tracked == old(tracked) - {device}
      ensures table == old(table) - {device.index} && platform == old(platform) - {device.index}
      ensures forall u: RfType ::
                killswitch[u].saved ==
                if u == device.rf && killswitch[u].devices == [] then NoAdapter else old(killswitch[u].saved)
    {
      Untrack(device);
      table := table - {device.index};
      platform := platform - {device.index};
    }

    method RemoveTracked(device: KernelDevice)
      requires Valid() && device in tracked
      modifies this`devices, this`tracked, this`byIndex, this`table, this`platform, this`saved, switches, device`refs
      ensures Valid() && device.refs == 0
      ensures tracked == old(tracked) - {device}
      ensures table == old(table) - {device.index} && platform == old(platform) - {device.index}
      ensures saved == if HasType(table, device.rf) then old(saved) else old(saved)[device.rf := NoAdapter]
    {
      hide Registered;
      hide TableAgrees;
      ForgetDevice(device);
      assert killswitch[device.rf].devices == [] <==> !HasType(table, device.rf) by {
        ListOfType(device.rf);
      }
      if killswitch[device.rf].devices == [] {
        saved := saved[device.rf := NoAdapter];
      }
    }

    /** A DEL event. */
    method RemoveKillswitch(index: nat)
      requires Valid()
      modifies this`devices, this`tracked, this`byIndex, this`table, this`platform, this`saved, switches, tracked`refs
      ensures Valid() && View() == RemoveDevice(old(View()), index)
      ensures index in old(byIndex) ==> old(byIndex)[index].refs == 0 && tracked == old(tracked) - {old(byIndex)[index]}
      ensures index !in old(byIndex) ==> devices == old(devices) && tracked == old(tracked)
    {
      var device := FindDevice(index);
      if device == null {
        return;
      }
      RemoveTracked(device);
    }

    method OverwriteDevice(device: KernelDevice, soft: bool, hard: bool) returns (changed: bool)
      requires Valid() && device in tracked
      modifies device`soft, device`hard, this`table
      ensures Valid()
      ensures changed <==> old(table)[device.index].soft != soft || old(table)[device.index].hard != hard
      ensures table == old(table)[device.index := Entry(device.rf, soft, hard)]
    {
      hide Registered;
      hide TableAgrees;
      hide SavedAgrees;
      TrackedMeans();
      changed := device.UpdateStates(soft, hard);
      RewriteEntry(device);
    }

    /** The abstract entry of one tracked device follows the device. */
    ghost method RewriteEntry(device: KernelDevice)
      requires device in tracked && device.index in table
      requires table.Keys == byIndex.Keys && platform <= byIndex.Keys
      requires forall d :: d in tracked && d != device ==> d.index != device.index
      requires forall d :: d in tracked && d != device ==>
                 d.index in table && table[d.index] == Entry(d.rf, d.soft, d.hard)
      requires forall d :: d in tracked ==> (d.index in platform <==> d.platform)
      modifies this`table
      ensures TableAgrees() && table == old(table)[device.index := Entry(device.rf, device.soft, device.hard)]
    {
      table := table[device.index := Entry(device.rf, device.soft, device.hard)];
    }

    method SyncChanged(index: nat, oldHard: bool, soft: bool, hard: bool)
      requires Valid() && index in table
      modifies this`kernel, tracked`soft, this`table
      ensures Valid()
      ensures var w := old(View());
              View() == if forceSync && hard && !soft then Protocol.SetBlockIdx(w, index, true)
                        else if forceSync && oldHard && !hard then Protocol.SetBlockIdx(w, index, false)
                        else w
    {
      hide Registered;
      hide TableAgrees;
      hide SavedAgrees;
      if forceSync {
        if hard && !soft {
          var _ := SetBlockIdx(index, true);
        } else if hard != oldHard && !hard {
          var _ := SetBlockIdx(index, false);
        }
      }
    }

    /** A CHANGE event: overwrite, and with force_sync bring the soft bit in line. */
    method UpdateKillswitch(index: nat, soft: bool, hard: bool)
      requires Valid()
      modifies this`kernel, tracked`soft, tracked`hard, this`table
      ensures Valid() && View() == UpdateDevice(old(View()), index, soft, hard)
    {
      hide Registered;
      hide TableAgrees;
      hide SavedAgrees;
      TrackedMeans();
      var device := FindDevice(index);
      if device == null {
        return;
      }
      ghost var w := View();
      var oldHard := device.hard;
      var changed := OverwriteDevice(device, soft, hard);
      if changed {
        SyncChanged(index, oldHard, soft, hard);
      } else {
        assert table == w.daemon.table;
      }
    }

    /** One event, by its operation. */
    method HandleEvent(e: Event, isPlatform: bool)
      requires Valid()
      modifies this, switches, tracked
      ensures Valid() && fresh(tracked - old(tracked)) && config.persisted == old(config.persisted)
      ensures View() == React(old(View()), e, isPlatform)
    {
      hide Registered;
      hide TableAgrees;
      hide SavedAgrees;
      match e.op
      case CHANGE => UpdateKillswitch(e.idx, e.soft, e.hard);
      case DEL => RemoveKillswitch(e.idx);
      case ADD => AddKillswitch(e, isPlatform);
    }

    /** The read loop: handles events until none is left. It always ends, also when
        handling an event makes the kernel queue more. It leaves the kernel's devices,
        types and hard bits, and from a consistent start equal tables. */
    method EventCb(udev: nat -> bool)
      requires Valid() && Aligned(View())
      modifies this, switches, tracked
      ensures Valid() && View() == Drain(old(View()), udev)
      ensures kernel.queue == [] && SameHardware(table, kernel.table)
      ensures Consistent(old(View())) ==> table == kernel.table
    {
      hide Registered;
      hide TableAgrees;
      hide SavedAgrees;
      hide Aligned;
      hide Consistent;
      hide React;
      ghost var goal := Drain(View(), udev);
      while kernel.queue != []
        invariant Valid() && Aligned(View()) && Drain(View(), udev) == goal
        invariant fresh(tracked - old(tracked))
        decreases Adds(kernel.queue), FallingEdges(table, kernel.queue), Releases(kernel.queue), |kernel.queue|
      {
        ghost var w := View();
        var e := kernel.queue[0];
        var isPlatform := udev(e.idx);
        DrainOneMore(w, udev);
        kernel := kernel.(queue := kernel.queue[1..]);
        HandleEvent(e, isPlatform);
        assert View() == Handle(w, isPlatform);
      }
      RestMeansAgreement(old(View()), udev);
    }

    /** The loop that reads the queue at startup and keeps the ADD events only. */
    method ReadInitialEvents(udev: nat -> bool)
      requires Valid()
      modifies this, switches, tracked
      ensures Valid() && fresh(tracked - old(tracked))
      ensures View() == Restart.StartupLoop(old(View()), udev)
    {
      hide Registered;
      hide TableAgrees;
      hide SavedAgrees;
      ghost var goal := Restart.StartupLoop(View(), udev);
      while kernel.queue != []
        invariant Valid() && Restart.StartupLoop(View(), udev) == goal
        invariant fresh(tracked - old(tracked))
        decreases Adds(kernel.queue), |kernel.queue|
      {
        ghost var w := View();
        var e := kernel.queue[0];
        kernel := kernel.(queue := kernel.queue[1..]);
        if e.op != ADD {
          continue;
        }
        var isPlatform := udev(e.idx);
        Restart.AddDeviceLowersAdds(w, isPlatform);
        AddKillswitch(e, isPlatform);
      }
    }

    /** Every type from first on gets the remembered bit. */
    method BlockSaved(first: int)
      requires Valid() && RFKILL_TYPE_ALL < first <= NUM_RFKILL_TYPES
      modifies this`kernel, tracked`soft, this`table, config
      ensures Valid() && View() == Restart.BlockSavedFrom(old(View()), first)
    {
      hide Registered;
      hide TableAgrees;
      hide SavedAgrees;
      ghost var goal := Restart.BlockSavedFrom(View(), first);
      for t := first to NUM_RFKILL_TYPES
        invariant Valid() && Restart.BlockSavedFrom(View(), t) == goal
      {
        var _ := SetBlock(t, config.Get(t));
      }
    }

    method Startup(udev: nat -> bool)
      requires Valid()
      modifies this, switches, tracked, config
      ensures Valid() && View() == Restart.Startup(old(View()), udev)
    {
      hide Registered;
      hide TableAgrees;
      hide SavedAgrees;
      if persist {
        var _ := SetFlightMode(config.Get(RFKILL_TYPE_ALL));
      }
      ReadInitialEvents(udev);
      if persist {
        BlockSaved(RFKILL_TYPE_ALL + 1);
      }
    }

    /** At the end of a run the state of every type is remembered. */
    method Dispose()
      requires Valid()
      modifies switches`state, switches`saved, this`saved, config
      ensures Valid()
      ensures config.persisted ==
              if persist then Restart.Dispose(old(View()).daemon).persisted else old(config.persisted)
    {
      hide Registered;
      hide TableAgrees;
      hide SavedAgrees;
      if persist {
        ghost var d := View().daemon;
        Restart.SaveNone(d);
        for t := RFKILL_TYPE_ALL + 1 to NUM_RFKILL_TYPES
          invariant Valid()
          invariant config.persisted == Restart.SavedBelow(d, t) && table == d.table && platform == d.platform
        {
          var state := GetState(t);
          Restart.SaveOneMore(d, t);
          config.Set(t, state.Level());
        }
      }
    }
  }

  datatype Key = Wlan | Bluetooth | Uwb | Wimax | Other {
    function Type(): RfType
      requires this != Other
    {
      match this
      case Wlan => RFKILL_TYPE_WLAN
      case Bluetooth => RFKILL_TYPE_BLUETOOTH
      case Uwb => RFKILL_TYPE_UWB
      case Wimax => RFKILL_TYPE_WIMAX
    }
  }

  /** The part of the daemon that drives the arbitrator, with the master key off. */
  class UrfDaemon {
    const arbitrator: UrfArbitrator
    var flightMode: bool

    constructor (arbitrator: UrfArbitrator)
      ensures this.arbitrator == arbitrator && !flightMode
    {
      this.arbitrator, flightMode := arbitrator, false;
    }

    /** A key press toggles its type unless some session inhibits the keys. */
    method InputEvent(key: Key, inhibited: bool) returns (emitted: bool)
      requires arbitrator.Valid()
      modifies arbitrator, arbitrator.switches, arbitrator.tracked, arbitrator.config
      ensures arbitrator.Valid() && (emitted <==> inhibited || key != Other)
      ensures inhibited || key == Other ==> arbitrator.View() == old(arbitrator.View())
      ensures !inhibited && key == Wlan ==> arbitrator.View() == Next(old(arbitrator.View()), DaemonKeyPress(1))
      ensures !inhibited && key == Bluetooth ==> arbitrator.View() == Next(old(arbitrator.View()), DaemonKeyPress(2))
      ensures !inhibited && key == Uwb ==> arbitrator.View() == Next(old(arbitrator.View()), DaemonKeyPress(3))
      ensures !inhibited && key == Wimax ==> arbitrator.View() == Next(old(arbitrator.View()), DaemonKeyPress(4))
    {
      hide UrfArbitrator.Registered;
      hide UrfArbitrator.TableAgrees;
      hide UrfArbitrator.SavedAgrees;
      if inhibited {
        return true;
      }
      if key == Other {
        return false;
      }
      var t := key.Type();
      emitted := true;
      var state := arbitrator.GetState(t);
      match state
      case NoAdapter => return;
      case Unblocked => var _ := arbitrator.SetBlock(t, true);
      case HardBlocked => var _ := arbitrator.SetBlock(t, true);
      case SoftBlocked => var _ := arbitrator.SetBlock(t, false);
    }

    /** A flight-mode request: refused without devices or authority, and remembered
        only if the arbitrator reports success. */
    method FlightMode(block: bool, authorized: bool) returns (ret: bool)
      requires arbitrator.Valid()
      modifies this`flightMode, arbitrator, arbitrator.switches, arbitrator.tracked, arbitrator.config
      ensures arbitrator.Valid()
      ensures ret <==> old(arbitrator.devices) != [] && authorized && old(arbitrator.kernel.writable)
      ensures flightMode == if ret then block else old(flightMode)
      ensures arbitrator.View() ==
              if old(arbitrator.devices) != [] && authorized then Protocol.FlightMode(old(arbitrator.View()), block)
              else old(arbitrator.View())
    {
      hide UrfArbitrator.Registered;
      hide UrfArbitrator.TableAgrees;
      hide UrfArbitrator.SavedAgrees;
      hide Protocol.FlightMode;
      arbitrator.NoDevices();
      ret := false;
      if arbitrator.devices == [] || !authorized {
        return;
      }
      FlightModeRemembered(arbitrator.View(), block);
      ret := arbitrator.SetFlightMode(block);
      if ret {
        flightMode := block;
        arbitrator.config.Set(RFKILL_TYPE_ALL, if block then SoftBlocked.Level() else Unblocked.Level());
      }
    }
  }
}
