/** Kernel devices and the killswitch of one type, as
    objects that are updated in place. */
module Device {
  import opened Rfkill
  import opened Aggregate
  import opened Protocol
  import opened Convergence

  class KernelDevice {
    const index: nat
    const rf: RfType
    const platform: bool
    var soft: bool
    var hard: bool
    /** Who holds a reference: the arbitrator's list and the killswitch's list. */
    var refs: nat

    constructor (index: nat, rf: RfType, soft: bool, hard: bool, platform: bool)
      ensures this.index == index && this.rf == rf && this.platform == platform
      ensures this.soft == soft && this.hard == hard && refs == 1
    {
      this.index, this.rf, this.platform := index, rf, platform;
      this.soft, this.hard, refs := soft, hard, 1;
    }

    function View(): Entry
      reads this`soft, this`hard
    {
      Entry(rf, soft, hard)
    }

    function AsSwitch(): Switch
      reads this`soft, this`hard
    {
      Switch(platform, soft, hard)
    }

    /** Asks the kernel for the whole type, then trusts its own copy at once. The
        kernel is handed in and out: it is the environment, not part of the device. */
    method SetSoft(kernel: Kernel, blocked: bool) returns (ok: bool, kernel': Kernel)
      requires kernel.Listed()
      modifies this`soft
      ensures kernel' == Write(kernel, rf, blocked) && ok == kernel.writable
      ensures soft == if ok then blocked else old(soft)
    {
      ok, kernel' := kernel.writable, Write(kernel, rf, blocked);
      if !ok {
        return;
      }
      soft := blocked;
    }

    method UpdateStates(soft: bool, hard: bool) returns (changed: bool)
      modifies this`soft, this`hard
      ensures this.soft == soft && this.hard == hard
      ensures changed <==> old(this.soft) != soft || old(this.hard) != hard
    {
      changed := false;
      if this.soft != soft || this.hard != hard {
        this.soft := soft;
        this.hard := hard;
        changed := true;
      }
    }

    method Ref()
      modifies this`refs
      ensures refs == old(refs) + 1
    {
      refs := refs + 1;
    }

    method Unref()
      requires refs > 0
      modifies this`refs
      ensures refs == old(refs) - 1
    {
      refs := refs - 1;
    }
  }

  /** The list without the first occurrence of x, as g_list_remove leaves it. */
  function Removed<T(==)>(s: seq<T>, x: T): seq<T> {
    if s == [] then []
    else if s[0] == x then s[1..]
    else [s[0]] + Removed(s[1..], x)
  }

  lemma {:induction false} RemovedOnce<T>(s: seq<T>, x: T)
    ensures multiset(Removed(s, x)) == multiset(s) - multiset{x}
  {
    if s != [] {
      assert s == [s[0]] + s[1..];
      RemovedOnce(s[1..], x);
    }
  }

  function SwitchList(ds: seq<KernelDevice>): (r: seq<Switch>)
    reads ds`soft, ds`hard
    ensures |r| == |ds| && forall n :: 0 <= n < |ds| ==> r[n] == ds[n].AsSwitch()
  {
    if ds == [] then [] else SwitchList(ds[..|ds| - 1]) + [ds[|ds| - 1].AsSwitch()]
  }

  class Killswitch {
    const rf: RfType
    var devices: seq<KernelDevice>
    var state: KillswitchState
    var saved: KillswitchState

    constructor (rf: RfType)
      ensures this.rf == rf && devices == [] && state == saved == NoAdapter
    {
      this.rf := rf;
      devices, state, saved := [], NoAdapter, NoAdapter;
    }

    /** One pass over the list with a running maximum per class of devices. */
    method CurrentState() returns (newState: KillswitchState)
      ensures newState == RefreshState(SwitchList(devices))
    {
      ghost var all := SwitchList(devices);
      var platform, platformChecked := NoAdapter, false;
      newState := NoAdapter;
      for n := 0 to |devices|
        invariant platform == Highest(all[..n], true)
        invariant newState == Highest(all[..n], false)
        invariant platformChecked == AnyPlatform(all[..n])
      {
        var s := EventToState(devices[n].soft, devices[n].hard);
        HighestExtends(all, n, true);
        HighestExtends(all, n, false);
        assert all[n] == devices[n].AsSwitch();
        if devices[n].platform {
          platformChecked := true;
          if s.Level() > platform.Level() {
            platform := s;
          }
        } else {
          if s.Level() > newState.Level() {
            newState := s;
          }
        }
      }
      assert all[..|devices|] == all;
      if platformChecked {
        newState := AggregateStates(platform, newState);
      }
    }

    /** The cached state becomes the aggregate; without devices the saved state is
        forgotten. */
    method Refresh()
      modifies this`state, this`saved
      ensures state == RefreshState(SwitchList(devices))
      ensures saved == if devices == [] then NoAdapter else old(saved)
    {
      hide RefreshState;
      hide SwitchList;
      if devices == [] {
        NoSwitches();
        assert SwitchList(devices) == [];
        state := NoAdapter;
        saved := NoAdapter;
        return;
      }
      var newState := CurrentState();
      if state != newState {
        state := newState;
      }
    }

    method GetState() returns (s: KillswitchState)
      modifies this`state, this`saved
      ensures s == state == RefreshState(SwitchList(devices))
      ensures saved == if devices == [] then NoAdapter else old(saved)
    {
      Refresh();
      s := state;
    }

    method AddDevice(device: KernelDevice)
      modifies this, device`refs
      ensures if device.rf == rf && device !in old(devices)
              then devices == [device] + old(devices) && device.refs == old(device.refs) + 1 && saved == old(saved)
              else devices == old(devices) && device.refs == old(device.refs) && saved == old(saved)
    {
      if device.rf != rf || device in devices {
        return;
      }
      device.Ref();
      devices := [device] + devices;
      Refresh();
    }

    method DelDevice(device: KernelDevice)
      requires device.refs > 0
      modifies this, device`refs
      ensures if device.rf == rf && device in old(devices)
              then devices == Removed(old(devices), device) && device.refs == old(device.refs) - 1
                   && saved == (if devices == [] then NoAdapter else old(saved))
              else devices == old(devices) && device.refs == old(device.refs) && saved == old(saved)
    {
      if device.rf != rf || device !in devices {
        return;
      }
      devices := Removed(devices, device);
      device.Unref();
      Refresh();
    }

    /** One write per device, of which the first already does the work: the kernel
        ends as after a single write, and every listed device has the bit. */
    method SetSoftwareBlocked(kernel: Kernel, blocked: bool) returns (ret: bool, kernel': Kernel)
      requires kernel.Listed()
      requires forall d :: d in devices ==> d.rf == rf
      modifies devices`soft
      ensures ret == (devices == [] || kernel.writable)
      ensures kernel' == if devices == [] then kernel else Write(kernel, rf, blocked)
      ensures forall d :: d in devices ==> d.soft == if kernel.writable then blocked else old(d.soft)
    {
      ret, kernel' := true, kernel;
      WriteIsIdempotent(kernel, rf, blocked);
      for n := 0 to |devices|
        invariant kernel' == if n == 0 then kernel else Write(kernel, rf, blocked)
        invariant ret == (n == 0 || kernel.writable)
        invariant forall d :: d in devices[..n] ==> d.soft == if kernel.writable then blocked else old(d.soft)
        invariant forall d :: d in devices && d !in devices[..n] ==> d.soft == old(d.soft)
      {
        assert devices[..n + 1] == devices[..n] + [devices[n]];
        var result;
        result, kernel' := devices[n].SetSoft(kernel', blocked);
        if !result {
          ret := false;
        }
      }
      assert devices[..|devices|] == devices;
    }
  }
}
