/** The state of a killswitch: one value for all the devices of a type. */
module Aggregate {
  import opened Rfkill

  /** A device as its killswitch looks at it. */
  datatype Switch = Switch(platform: bool, soft: bool, hard: bool) {
    function State(): KillswitchState { EventToState(soft, hard) }
    predicate Blocked() { soft || hard }
  }

  predicate AnyOf(S: set<Switch>, platform: bool) {
    exists s :: s in S && s.platform == platform
  }

  predicate AnyBlocked(S: set<Switch>, platform: bool) {
    exists s :: s in S && s.platform == platform && s.Blocked()
  }

  predicate AnyHard(S: set<Switch>, platform: bool) {
    exists s :: s in S && s.platform == platform && s.hard
  }

  /** The reference: which state a set of devices has, whatever their order and
      number. Platform devices decide unless all of them are unblocked. */
  function AggregateOf(S: set<Switch>): KillswitchState {
    if S == {} then NoAdapter
    else if AnyHard(S, true) || (!AnyBlocked(S, true) && AnyHard(S, false)) then HardBlocked
    else if AnyBlocked(S, true) || AnyBlocked(S, false) then SoftBlocked
    else Unblocked
  }

  function AggregateStates(platform: KillswitchState, nonPlatform: KillswitchState): KillswitchState {
    if platform == Unblocked && nonPlatform != NoAdapter then nonPlatform else platform
  }

  function Higher(a: KillswitchState, b: KillswitchState): KillswitchState {
    if b.Level() > a.Level() then b else a
  }

  /** The highest state among the devices of one class. */
  function Highest(ds: seq<Switch>, platform: bool): KillswitchState {
    if ds == [] then NoAdapter
    else
      var rest := Highest(ds[..|ds| - 1], platform);
      var last := ds[|ds| - 1];
      if last.platform == platform then Higher(rest, last.State()) else rest
  }

  predicate AnyPlatform(ds: seq<Switch>) {
    exists s :: s in ds && s.platform
  }

  /** What a refresh computes from the device list. */
  function RefreshState(ds: seq<Switch>): KillswitchState {
    if AnyPlatform(ds)
    then AggregateStates(Highest(ds, true), Highest(ds, false))
    else Highest(ds, false)
  }

  lemma NoSwitches()
    ensures RefreshState([]) == NoAdapter
  {}

  lemma {:induction false} HighestBounds(ds: seq<Switch>, platform: bool)
    ensures forall s :: s in ds && s.platform == platform ==> s.State().Level() <= Highest(ds, platform).Level()
    ensures Highest(ds, platform) == NoAdapter ||
            exists s :: s in ds && s.platform == platform && s.State() == Highest(ds, platform)
  {
    if ds != [] {
      var init, last := ds[..|ds| - 1], ds[|ds| - 1];
      assert ds == init + [last];
      HighestBounds(init, platform);
      assert last in ds;
      if last.platform == platform && last.State().Level() > Highest(init, platform).Level() {
        assert Highest(ds, platform) == last.State();
      } else if Highest(init, platform) != NoAdapter {
        var s :| s in init && s.platform == platform && s.State() == Highest(init, platform);
        assert s in ds && Highest(ds, platform) == s.State();
      }
    }
  }

  lemma HighestExtends(ds: seq<Switch>, n: nat, platform: bool)
    requires n < |ds|
    ensures ds[..n + 1] == ds[..n] + [ds[n]]
    ensures Highest(ds[..n + 1], platform) ==
            if ds[n].platform == platform then Higher(Highest(ds[..n], platform), ds[n].State())
            else Highest(ds[..n], platform)
  {
    assert ds[..n + 1][..n] == ds[..n];
  }

  /** The two running maxima and aggregate_states compute the reference. */
  lemma RefreshIsAggregate(ds: seq<Switch>)
    ensures RefreshState(ds) == AggregateOf(set s | s in ds)
  {
    var S := set s | s in ds;
    HighestBounds(ds, true);
    HighestBounds(ds, false);
    if ds == [] {
      assert S == {};
    } else {
      var first := ds[0];
      assert first in S && first.State().Level() >= 0;
      assert forall s :: s in S <==> s in ds;
      var P, N := Highest(ds, true), Highest(ds, false);
      assert AnyHard(S, true) <==> P == HardBlocked;
      assert AnyHard(S, false) <==> N == HardBlocked;
      assert AnyBlocked(S, true) <==> P.Level() > 0;
      assert AnyBlocked(S, false) <==> N.Level() > 0;
    }
  }

  /** The list order and repetitions of the list do not matter. */
  lemma OrderDoesNotMatter(a: seq<Switch>, b: seq<Switch>)
    requires multiset(a) == multiset(b)
    ensures RefreshState(a) == RefreshState(b)
  {
    forall s ensures s in a <==> s in b {
      assert s in a <==> s in multiset(a);
      assert s in b <==> s in multiset(b);
    }
    assert (set s | s in a) == (set s | s in b);
    RefreshIsAggregate(a);
    RefreshIsAggregate(b);
  }
}
