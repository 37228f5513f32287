/** Inhibitors held by bus names, seats with their active sessions, and the cached
    flag that says whether some active session is inhibited. */
module SessionChecker {
  import opened Rfkill

  const G_MAXINT := 2147483647

  datatype Inhibitor = Inhibitor(cookie: int, sessionId: string, busName: string, reason: string)

  datatype Seat = Seat(objectPath: string, active: Option<string>)

  datatype Registry = Registry(seats: seq<Seat>, inhibitors: seq<Inhibitor>, inhibit: bool)

  // ---- lookups ------------------------------------------------------------

  /** The position of the first inhibitor of a bus name, or the length of the list. */
  function FindBus(inhibitors: seq<Inhibitor>, busName: string): (k: nat)
    ensures k <= |inhibitors| && (k < |inhibitors| ==> inhibitors[k].busName == busName)
    ensures forall j :: 0 <= j < k ==> inhibitors[j].busName != busName
  {
    if inhibitors == [] || inhibitors[0].busName == busName then 0
    else 1 + FindBus(inhibitors[1..], busName)
  }

  /** No inhibitor has cookie 0, so 0 finds none. */
  function FindCookie(inhibitors: seq<Inhibitor>, cookie: int): (k: nat)
    ensures k <= |inhibitors| && (k < |inhibitors| ==> cookie != 0 && inhibitors[k].cookie == cookie)
    ensures forall j :: 0 <= j < k ==> cookie == 0 || inhibitors[j].cookie != cookie
  {
    if inhibitors == [] || (cookie != 0 && inhibitors[0].cookie == cookie) then 0
    else 1 + FindCookie(inhibitors[1..], cookie)
  }

  function FindSeat(seats: seq<Seat>, path: string): (k: nat)
    ensures k <= |seats| && (k < |seats| ==> seats[k].objectPath == path)
    ensures forall j :: 0 <= j < k ==> seats[j].objectPath != path
  {
    if seats == [] || seats[0].objectPath == path then 0 else 1 + FindSeat(seats[1..], path)
  }

  predicate HasInhibitor(inhibitors: seq<Inhibitor>, session: Option<string>) {
    exists k | 0 <= k < |inhibitors| :: Some(inhibitors[k].sessionId) == session
  }

  /** Some seat's active session has a live inhibitor. */
  predicate Inhibited(seats: seq<Seat>, inhibitors: seq<Inhibitor>) {
    exists k | 0 <= k < |seats| :: HasInhibitor(inhibitors, seats[k].active)
  }

  // ---- the calls ----------------------------------------------------------

  datatype Call =
    | Inhibit(busName: string, reason: string, session: Option<string>, draw: int)
    | Uninhibit(cookie: int)
    | OwnerChanged(oldOwner: string, newOwner: string)
    | ActiveChanged(seat: nat, active: string)
    | SeatNew(path: string, found: Option<string>)
    | SeatRemoved(path: string)

  function Recompute(r: Registry): Registry {
    r.(inhibit := Inhibited(r.seats, r.inhibitors))
  }

  function Removed<T>(s: seq<T>, k: nat): (r: seq<T>)
    requires k < |s|
    ensures |r| == |s| - 1
  {
    s[..k] + s[k + 1..]
  }

  lemma RemovedAt<T>(s: seq<T>, k: nat, i: nat)
    requires k < |s| && i < |s| - 1
    ensures Removed(s, k)[i] == s[if i < k then i else i + 1]
  {}

  function Release(r: Registry, k: nat): Registry
    requires k <= |r.inhibitors|
  {
    if k == |r.inhibitors| then r else Recompute(r.(inhibitors := Removed(r.inhibitors, k)))
  }

  function Do(r: Registry, c: Call): Registry {
    match c
    case Inhibit(busName, reason, session, draw) =>
      if FindBus(r.inhibitors, busName) < |r.inhibitors| || session == None then r
      else Recompute(r.(inhibitors := [Inhibitor(draw, session.value, busName, reason)] + r.inhibitors))
    case Uninhibit(cookie) => Release(r, FindCookie(r.inhibitors, cookie))
    case OwnerChanged(oldOwner, newOwner) =>
      if newOwner == "" && oldOwner != "" then Release(r, FindBus(r.inhibitors, oldOwner)) else r
    case ActiveChanged(seat, active) =>
      if seat < |r.seats| then Recompute(r.(seats := r.seats[seat := r.seats[seat].(active := Some(active))])) else r
    case SeatNew(path, found) =>
      if FindSeat(r.seats, path) < |r.seats| || found == None then r
      else r.(seats := [Seat(path, found)] + r.seats)
    case SeatRemoved(path) =>
      var k := FindSeat(r.seats, path);
      if k == |r.seats| then r else r.(seats := Removed(r.seats, k))
  }

  /** The cookie a caller of Inhibit gets; 0 when its session is not known. */
  function Reply(r: Registry, c: Call): int {
    if !c.Inhibit? then 0
    else
      var k := FindBus(r.inhibitors, c.busName);
      if k < |r.inhibitors| then r.inhibitors[k].cookie
      else if c.session == None then 0
      else c.draw
  }

  predicate Free(inhibitors: seq<Inhibitor>, cookie: int) {
    1 <= cookie < G_MAXINT && forall k :: 0 <= k < |inhibitors| ==> inhibitors[k].cookie != cookie
  }

  /** What GenerateUniqueCookie promises about the draw of an inhibit call. */
  predicate Legal(r: Registry, c: Call) {
    c.Inhibit? ==> Free(r.inhibitors, c.draw)
  }

  // ---- a call history -----------------------------------------------------

  function After(r: Registry, calls: seq<Call>): Registry {
    if calls == [] then r else Do(After(r, calls[..|calls| - 1]), calls[|calls| - 1])
  }

  ghost predicate LegalRun(r: Registry, calls: seq<Call>) {
    forall n :: 0 <= n < |calls| ==> Legal(After(r, calls[..n]), calls[n])
  }

  predicate Releases(c: Call, busName: string, cookie: int) {
    c == Uninhibit(cookie) || (busName != "" && c == OwnerChanged(busName, ""))
  }

  predicate GrantedAt(r: Registry, calls: seq<Call>, i: nat, busName: string, cookie: int)
    requires i < |calls|
  {
    && calls[i].Inhibit? && calls[i].busName == busName
    && cookie != 0 && Reply(After(r, calls[..i]), calls[i]) == cookie
  }

  /** The bus name was granted the cookie and neither gave it back nor left since. */
  ghost predicate Live(r: Registry, calls: seq<Call>, busName: string, cookie: int) {
    exists i :: 0 <= i < |calls| && GrantedAt(r, calls, i, busName, cookie)
             && forall j :: i < j < |calls| ==> !Releases(calls[j], busName, cookie)
  }

  ghost predicate Listed(inhibitors: seq<Inhibitor>, busName: string, cookie: int) {
    exists k :: 0 <= k < |inhibitors| && inhibitors[k].busName == busName && inhibitors[k].cookie == cookie
  }

  /** Cookies are in range, and neither a cookie nor a bus name occurs twice. */
  ghost predicate Sound(inhibitors: seq<Inhibitor>) {
    && (forall k :: 0 <= k < |inhibitors| ==> 1 <= inhibitors[k].cookie < G_MAXINT)
    && (forall j, k :: 0 <= j < k < |inhibitors| ==>
          inhibitors[j].cookie != inhibitors[k].cookie && inhibitors[j].busName != inhibitors[k].busName)
  }

  lemma StepKeepsSound(r: Registry, c: Call)
    requires Sound(r.inhibitors) && Legal(r, c)
    ensures Sound(Do(r, c).inhibitors)
  {
    hide Inhibited;
    match c {
      case Uninhibit(cookie) => ReleaseKeepsSound(r, FindCookie(r.inhibitors, cookie));
      case OwnerChanged(oldOwner, newOwner) => ReleaseKeepsSound(r, FindBus(r.inhibitors, oldOwner));
      case _ =>
    }
  }

  lemma ReleaseKeepsSound(r: Registry, k: nat)
    requires Sound(r.inhibitors) && k <= |r.inhibitors|
    ensures Sound(Release(r, k).inhibitors)
  {
    hide Inhibited;
    if k < |r.inhibitors| {
      var rest := Removed(r.inhibitors, k);
      assert forall i :: 0 <= i < |rest| ==> rest[i] == r.inhibitors[if i < k then i else i + 1];
    }
  }

  lemma RemovedListed(inhibitors: seq<Inhibitor>, k: nat, busName: string, cookie: int)
    requires Sound(inhibitors) && k < |inhibitors|
    ensures Listed(Removed(inhibitors, k), busName, cookie)
            <==> Listed(inhibitors, busName, cookie)
                 && !(inhibitors[k].busName == busName && inhibitors[k].cookie == cookie)
  {
    hide Removed;
    var rest := Removed(inhibitors, k);
    if Listed(inhibitors, busName, cookie) && !(inhibitors[k].busName == busName && inhibitors[k].cookie == cookie) {
      var j :| 0 <= j < |inhibitors| && inhibitors[j].busName == busName && inhibitors[j].cookie == cookie;
      RemovedAt(inhibitors, k, if j < k then j else j - 1);
    }
    if Listed(rest, busName, cookie) {
      var j :| 0 <= j < |rest| && rest[j].busName == busName && rest[j].cookie == cookie;
      RemovedAt(inhibitors, k, j);
    }
  }

  /** One call: what is listed is what was listed and not released, or just granted. */
  lemma GrantListed(inhibitors: seq<Inhibitor>, one: Inhibitor, busName: string, cookie: int)
    ensures Listed([one] + inhibitors, busName, cookie)
            <==> Listed(inhibitors, busName, cookie) || (one.busName == busName && one.cookie == cookie)
  {
    var more := [one] + inhibitors;
    assert more[0] == one && forall k :: 0 <= k < |inhibitors| ==> more[k + 1] == inhibitors[k];
  }

  lemma ReleaseListed(r: Registry, k: nat, busName: string, cookie: int)
    requires Sound(r.inhibitors) && k <= |r.inhibitors|
    ensures Listed(Release(r, k).inhibitors, busName, cookie)
            <==> Listed(r.inhibitors, busName, cookie)
                 && !(k < |r.inhibitors| && r.inhibitors[k].busName == busName && r.inhibitors[k].cookie == cookie)
  {
    hide Inhibited;
    if k < |r.inhibitors| {
      RemovedListed(r.inhibitors, k, busName, cookie);
    }
  }

  lemma FoundIsListed(inhibitors: seq<Inhibitor>, b: string, busName: string, cookie: int)
    requires Sound(inhibitors)
    ensures var k := FindBus(inhibitors, b);
            Listed(inhibitors, busName, cookie) && busName == b
            <==> k < |inhibitors| && inhibitors[k].busName == busName && inhibitors[k].cookie == cookie
  {
  }

  lemma CookieIsListed(inhibitors: seq<Inhibitor>, released: int, busName: string, cookie: int)
    requires Sound(inhibitors)
    ensures var k := FindCookie(inhibitors, released);
            Listed(inhibitors, busName, cookie) && cookie == released
            <==> k < |inhibitors| && inhibitors[k].busName == busName && inhibitors[k].cookie == cookie
  {
  }

  lemma ListedStep(r: Registry, c: Call, busName: string, cookie: int)
    requires Sound(r.inhibitors) && Legal(r, c)
    ensures Listed(Do(r, c).inhibitors, busName, cookie)
            <==> ((Listed(r.inhibitors, busName, cookie) && !Releases(c, busName, cookie))
                  || (c.Inhibit? && c.busName == busName && cookie != 0 && Reply(r, c) == cookie))
  {
    hide Inhibited;
    hide Listed;
    match c {
      case Inhibit(b, reason, session, draw) =>
        if FindBus(r.inhibitors, b) == |r.inhibitors| && session.Some? {
          GrantListed(r.inhibitors, Inhibitor(draw, session.value, b, reason), busName, cookie);
        } else {
          FoundIsListed(r.inhibitors, b, busName, cookie);
        }
      case Uninhibit(released) =>
        ReleaseListed(r, FindCookie(r.inhibitors, released), busName, cookie);
        CookieIsListed(r.inhibitors, released, busName, cookie);
      case OwnerChanged(oldOwner, newOwner) =>
        ReleaseListed(r, FindBus(r.inhibitors, oldOwner), busName, cookie);
        FoundIsListed(r.inhibitors, oldOwner, busName, cookie);
      case _ =>
    }
  }

  lemma GrantedPrefix(r: Registry, calls: seq<Call>, c: Call, i: nat, busName: string, cookie: int)
    requires i <= |calls|
    ensures var longer := calls + [c];
            && (i < |calls| ==> GrantedAt(r, longer, i, busName, cookie) == GrantedAt(r, calls, i, busName, cookie))
            && (i == |calls| ==>
                  (GrantedAt(r, longer, i, busName, cookie)
                   <==> (c.Inhibit? && c.busName == busName && cookie != 0 && Reply(After(r, calls), c) == cookie)))
  {
    hide After;
    hide Reply;
    assert (calls + [c])[..i] == calls[..i] && calls[..|calls|] == calls;
  }

  lemma LiveGoesOn(r: Registry, calls: seq<Call>, c: Call, busName: string, cookie: int)
    requires Live(r, calls, busName, cookie) && !Releases(c, busName, cookie)
    ensures Live(r, calls + [c], busName, cookie)
  {
    hide GrantedAt;
    hide Releases;
    var i :| 0 <= i < |calls| && GrantedAt(r, calls, i, busName, cookie)
          && (forall j :: i < j < |calls| ==> !Releases(calls[j], busName, cookie));
    GrantedPrefix(r, calls, c, i, busName, cookie);
    assert forall j :: i < j < |calls| ==> (calls + [c])[j] == calls[j];
    assert GrantedAt(r, calls + [c], i, busName, cookie);
  }

  lemma LiveWasGranted(r: Registry, calls: seq<Call>, c: Call, busName: string, cookie: int)
    requires Live(r, calls + [c], busName, cookie)
    ensures (Live(r, calls, busName, cookie) && !Releases(c, busName, cookie))
         || GrantedAt(r, calls + [c], |calls|, busName, cookie)
  {
    hide GrantedAt;
    hide Releases;
    var longer := calls + [c];
    var i :| 0 <= i < |longer| && GrantedAt(r, longer, i, busName, cookie)
          && (forall j :: i < j < |longer| ==> !Releases(longer[j], busName, cookie));
    if i < |calls| {
      GrantedPrefix(r, calls, c, i, busName, cookie);
      assert longer[|calls|] == c && forall j :: i < j < |calls| ==> longer[j] == calls[j];
    }
  }

  lemma LiveStep(r: Registry, calls: seq<Call>, c: Call, busName: string, cookie: int)
    ensures Live(r, calls + [c], busName, cookie)
            <==> ((Live(r, calls, busName, cookie) && !Releases(c, busName, cookie))
                  || (c.Inhibit? && c.busName == busName && cookie != 0 && Reply(After(r, calls), c) == cookie))
  {
    hide GrantedAt;
    hide Releases;
    GrantedPrefix(r, calls, c, |calls|, busName, cookie);
    if Live(r, calls + [c], busName, cookie) {
      LiveWasGranted(r, calls, c, busName, cookie);
    } else if Live(r, calls, busName, cookie) && !Releases(c, busName, cookie) {
      LiveGoesOn(r, calls, c, busName, cookie);
    }
  }

  /** After any history of calls from an empty list: a bus name is listed with a
      cookie if and only if it was granted that cookie and neither gave it back nor
      left since; cookies are nonzero, and nothing is listed twice. */
  lemma {:induction false} RegistryRefinesHistory(r: Registry, calls: seq<Call>)
    requires r.inhibitors == [] && LegalRun(r, calls)
    ensures Sound(After(r, calls).inhibitors)
    ensures forall busName, cookie ::
              Live(r, calls, busName, cookie) <==> Listed(After(r, calls).inhibitors, busName, cookie)
    decreases |calls|
  {
    if calls != [] {
      var init, c := calls[..|calls| - 1], calls[|calls| - 1];
      assert calls == init + [c];
      assert forall n :: 0 <= n <= |init| ==> init[..n] == calls[..n];
      RegistryRefinesHistory(r, init);
      StepKeepsSound(After(r, init), c);
      forall busName, cookie
        ensures Live(r, calls, busName, cookie) <==> Listed(After(r, calls).inhibitors, busName, cookie)
      {
        LiveStep(r, init, c, busName, cookie);
        ListedStep(After(r, init), c, busName, cookie);
      }
    }
  }

  /** Who holds a cookie and asks again is told the same cookie, and nothing changes. */
  lemma RepeatIsHarmless(r: Registry, calls: seq<Call>, again: Call, cookie: int)
    requires r.inhibitors == [] && LegalRun(r, calls) && again.Inhibit?
    requires Live(r, calls, again.busName, cookie)
    ensures Reply(After(r, calls), again) == cookie && Do(After(r, calls), again) == After(r, calls)
  {
    hide Inhibited;
    hide After;
    hide LegalRun;
    hide Live;
    RegistryRefinesHistory(r, calls);
    assert Listed(After(r, calls).inhibitors, again.busName, cookie);
  }

  /** Giving a fresh cookie back undoes the inhibit. */
  lemma UninhibitUndoes(r: Registry, c: Call)
    requires c.Inhibit? && Legal(r, c) && FindBus(r.inhibitors, c.busName) == |r.inhibitors| && c.session.Some?
    ensures Do(Do(r, c), Uninhibit(Reply(r, c))) == Recompute(r)
  {
    var more := Do(r, c).inhibitors;
    assert more[0].cookie == c.draw;
    assert Removed(more, 0) == r.inhibitors;
  }

  // ---- whose session it is ------------------------------------------------

  /** The inhibitor that a call creates, if it does: of a name that holds none. */
  ghost predicate Creates(r: Registry, c: Call, x: Inhibitor) {
    && c.Inhibit? && c.session == Some(x.sessionId)
    && c.busName == x.busName && c.reason == x.reason && c.draw == x.cookie
    && forall cookie :: !Listed(r.inhibitors, c.busName, cookie)
  }

  lemma NotFoundIff(inhibitors: seq<Inhibitor>, busName: string)
    ensures FindBus(inhibitors, busName) == |inhibitors| <==> forall cookie :: !Listed(inhibitors, busName, cookie)
  {
    var k := FindBus(inhibitors, busName);
    if k < |inhibitors| {
      assert Listed(inhibitors, busName, inhibitors[k].cookie);
    }
  }

  lemma MembersOfRemoved(inhibitors: seq<Inhibitor>, k: nat, x: Inhibitor)
    requires Sound(inhibitors) && k < |inhibitors|
    ensures x in Removed(inhibitors, k) <==> x in inhibitors && x != inhibitors[k]
  {
    hide Removed;
    var rest := Removed(inhibitors, k);
    if j :| 0 <= j < |inhibitors| && inhibitors[j] == x && j != k {
      RemovedAt(inhibitors, k, if j < k then j else j - 1);
    }
    if j :| 0 <= j < |rest| && rest[j] == x {
      RemovedAt(inhibitors, k, j);
    }
  }

  lemma MembersOfRelease(r: Registry, k: nat, x: Inhibitor)
    requires Sound(r.inhibitors) && k <= |r.inhibitors|
    ensures x in Release(r, k).inhibitors <==> x in r.inhibitors && (k < |r.inhibitors| ==> x != r.inhibitors[k])
  {
    hide Inhibited;
    hide Removed;
    if k < |r.inhibitors| {
      MembersOfRemoved(r.inhibitors, k, x);
    }
  }

  /** One call: who is listed, with session and reason, was listed and not released,
      or was just created. */
  lemma MembersStep(r: Registry, c: Call, x: Inhibitor)
    requires Sound(r.inhibitors) && Legal(r, c)
    ensures x in Do(r, c).inhibitors
            <==> ((x in r.inhibitors && !Releases(c, x.busName, x.cookie)) || Creates(r, c, x))
  {
    hide Inhibited;
    hide Release;
    hide Listed;
    match c {
      case Inhibit(busName, reason, session, draw) => NotFoundIff(r.inhibitors, busName);
      case Uninhibit(cookie) => MembersOfRelease(r, FindCookie(r.inhibitors, cookie), x);
      case OwnerChanged(oldOwner, newOwner) => MembersOfRelease(r, FindBus(r.inhibitors, oldOwner), x);
      case _ =>
    }
  }

  ghost predicate CreatedAt(r: Registry, calls: seq<Call>, i: nat, x: Inhibitor)
    requires i < |calls|
  {
    && calls[i].Inhibit? && calls[i].session == Some(x.sessionId)
    && calls[i].busName == x.busName && calls[i].reason == x.reason && calls[i].draw == x.cookie
    && forall cookie :: !Live(r, calls[..i], x.busName, cookie)
  }

  /** Created by a call while its name held nothing, and not released since. */
  ghost predicate Stands(r: Registry, calls: seq<Call>, x: Inhibitor) {
    exists i :: 0 <= i < |calls| && CreatedAt(r, calls, i, x)
             && forall j :: i < j < |calls| ==> !Releases(calls[j], x.busName, x.cookie)
  }

  lemma CreatedPrefix(r: Registry, calls: seq<Call>, c: Call, i: nat, x: Inhibitor)
    requires i <= |calls|
    ensures i < |calls| ==> CreatedAt(r, calls + [c], i, x) == CreatedAt(r, calls, i, x)
    ensures (calls + [c])[..i] == calls[..i]
  {
    hide Live;
    assert (calls + [c])[..i] == calls[..i];
  }

  lemma StandsGoesOn(r: Registry, calls: seq<Call>, c: Call, x: Inhibitor)
    requires Stands(r, calls, x) && !Releases(c, x.busName, x.cookie)
    ensures Stands(r, calls + [c], x)
  {
    hide CreatedAt;
    hide Releases;
    var i :| 0 <= i < |calls| && CreatedAt(r, calls, i, x)
          && (forall j :: i < j < |calls| ==> !Releases(calls[j], x.busName, x.cookie));
    CreatedPrefix(r, calls, c, i, x);
    assert forall j :: i < j < |calls| ==> (calls + [c])[j] == calls[j];
    assert CreatedAt(r, calls + [c], i, x);
  }

  lemma StandsWasCreated(r: Registry, calls: seq<Call>, c: Call, x: Inhibitor)
    requires Stands(r, calls + [c], x)
    ensures (Stands(r, calls, x) && !Releases(c, x.busName, x.cookie)) || CreatedAt(r, calls + [c], |calls|, x)
  {
    hide CreatedAt;
    hide Releases;
    var longer := calls + [c];
    var i :| 0 <= i < |longer| && CreatedAt(r, longer, i, x)
          && (forall j :: i < j < |longer| ==> !Releases(longer[j], x.busName, x.cookie));
    if i < |calls| {
      CreatedPrefix(r, calls, c, i, x);
      assert longer[|calls|] == c && forall j :: i < j < |calls| ==> longer[j] == calls[j];
    }
  }

  lemma StandsStep(r: Registry, calls: seq<Call>, c: Call, x: Inhibitor)
    ensures Stands(r, calls + [c], x)
            <==> ((Stands(r, calls, x) && !Releases(c, x.busName, x.cookie)) || CreatedAt(r, calls + [c], |calls|, x))
  {
    hide CreatedAt;
    hide Releases;
    if Stands(r, calls + [c], x) {
      StandsWasCreated(r, calls, c, x);
    } else if Stands(r, calls, x) && !Releases(c, x.busName, x.cookie) {
      StandsGoesOn(r, calls, c, x);
    }
  }

  lemma CreatedNow(r: Registry, calls: seq<Call>, c: Call, x: Inhibitor)
    requires r.inhibitors == [] && LegalRun(r, calls)
    ensures CreatedAt(r, calls + [c], |calls|, x) <==> Creates(After(r, calls), c, x)
  {
    hide Live;
    hide Listed;
    hide After;
    RegistryRefinesHistory(r, calls);
    CreatedPrefix(r, calls, c, |calls|, x);
    assert calls[..|calls|] == calls;
  }

  /** After any history the list holds exactly the standing inhibitors, each with the
      session, the reason and the draw of the call that created it. */
  lemma {:induction false} MembersAreStanding(r: Registry, calls: seq<Call>, x: Inhibitor)
    requires r.inhibitors == [] && LegalRun(r, calls)
    ensures x in After(r, calls).inhibitors <==> Stands(r, calls, x)
    decreases |calls|
  {
    if calls != [] {
      var init, c := calls[..|calls| - 1], calls[|calls| - 1];
      assert calls == init + [c];
      assert forall n :: 0 <= n <= |init| ==> init[..n] == calls[..n];
      hide Stands;
      hide CreatedAt;
      hide Creates;
      hide Releases;
      hide Do;
      RegistryRefinesHistory(r, init);
      MembersAreStanding(r, init, x);
      StandsStep(r, init, c, x);
      CreatedNow(r, init, c, x);
      MembersStep(After(r, init), c, x);
    }
  }

  /** The flag, told from the history alone: up if and only if the active session of
      some seat has a standing inhibitor, as long as no seat change went unnoticed. */
  lemma FlagMeansStandingSession(r: Registry, calls: seq<Call>)
    requires r.inhibitors == [] && !r.inhibit && LegalRun(r, calls)
    requires forall n :: 0 <= n < |calls| ==> !Unnoticed(After(r, calls[..n]), calls[n])
    ensures var now := After(r, calls);
            now.inhibit <==>
            exists seat, x :: seat in now.seats && Stands(r, calls, x) && seat.active == Some(x.sessionId)
  {
    hide After;
    hide Stands;
    hide Unnoticed;
    hide LegalRun;
    assert FlagIsRight(r);
    FlagOverHistories(r, calls, 0);
    var now := After(r, calls);
    InhibitedMeans(now.seats, now.inhibitors);
    forall x ensures x in now.inhibitors <==> Stands(r, calls, x) {
      MembersAreStanding(r, calls, x);
    }
  }

  lemma InhibitedMeans(seats: seq<Seat>, inhibitors: seq<Inhibitor>)
    ensures Inhibited(seats, inhibitors)
            <==> exists seat, x :: seat in seats && x in inhibitors && seat.active == Some(x.sessionId)
  {
    if k :| 0 <= k < |seats| && HasInhibitor(inhibitors, seats[k].active) {
      var j :| 0 <= j < |inhibitors| && Some(inhibitors[j].sessionId) == seats[k].active;
      assert seats[k] in seats && inhibitors[j] in inhibitors;
    }
    if seat, x :| seat in seats && x in inhibitors && seat.active == Some(x.sessionId) {
      var k :| 0 <= k < |seats| && seats[k] == seat;
      var j :| 0 <= j < |inhibitors| && inhibitors[j] == x;
      assert HasInhibitor(inhibitors, seats[k].active);
    }
  }

  // ---- the list of seats --------------------------------------------------

  ghost predicate SeatsDistinct(seats: seq<Seat>) {
    forall j, k :: 0 <= j < k < |seats| ==> seats[j].objectPath != seats[k].objectPath
  }

  /** Each call on the list of seats: a new path is listed with the session found; a
      removed path is gone; a change of session touches its own seat only. */
  lemma SeatsStep(r: Registry, c: Call, s: Seat)
    requires SeatsDistinct(r.seats)
    ensures SeatsDistinct(Do(r, c).seats)
    ensures s in Do(r, c).seats <==>
            match c
            case SeatNew(path, found) =>
              s in r.seats
              || (s == Seat(path, found) && found.Some? && forall t :: t in r.seats ==> t.objectPath != path)
            case SeatRemoved(path) => s in r.seats && s.objectPath != path
            case ActiveChanged(k, active) =>
              if k < |r.seats| then (s in r.seats && s != r.seats[k]) || s == Seat(r.seats[k].objectPath, Some(active))
              else s in r.seats
            case _ => s in r.seats
  {
    hide Inhibited;
    match c {
      case SeatNew(path, found) => SeatNewStep(r, path, found, s);
      case SeatRemoved(path) => SeatRemovedStep(r, path, s);
      case ActiveChanged(k, active) => ActiveChangedStep(r, k, active, s);
      case _ =>
    }
  }

  lemma SeatNewStep(r: Registry, path: string, found: Option<string>, s: Seat)
    requires SeatsDistinct(r.seats)
    ensures var after := Do(r, SeatNew(path, found)).seats;
            && SeatsDistinct(after)
            && (s in after <==> s in r.seats || (s == Seat(path, found) && found.Some?
                                                 && forall t :: t in r.seats ==> t.objectPath != path))
  {
    var k := FindSeat(r.seats, path);
    if k < |r.seats| {
      assert r.seats[k] in r.seats;
    }
  }

  lemma SeatRemovedStep(r: Registry, path: string, s: Seat)
    requires SeatsDistinct(r.seats)
    ensures var after := Do(r, SeatRemoved(path)).seats;
            SeatsDistinct(after) && (s in after <==> s in r.seats && s.objectPath != path)
  {
    hide Removed;
    var k := FindSeat(r.seats, path);
    if k < |r.seats| {
      var rest := Removed(r.seats, k);
      forall j | 0 <= j < |rest| ensures rest[j] == r.seats[if j < k then j else j + 1] {
        RemovedAt(r.seats, k, j);
      }
      if j :| 0 <= j < |r.seats| && r.seats[j] == s && j != k {
        RemovedAt(r.seats, k, if j < k then j else j - 1);
      }
    }
  }

  lemma ActiveChangedStep(r: Registry, k: nat, active: string, s: Seat)
    requires SeatsDistinct(r.seats)
    ensures var after := Do(r, ActiveChanged(k, active)).seats;
            && SeatsDistinct(after)
            && (k >= |r.seats| ==> after == r.seats)
            && (k < |r.seats| ==>
                  (s in after <==> (s in r.seats && s != r.seats[k]) || s == Seat(r.seats[k].objectPath, Some(active))))
  {
    hide Inhibited;
    if k < |r.seats| {
      var after := Do(r, ActiveChanged(k, active)).seats;
      if j :| 0 <= j < |r.seats| && r.seats[j] == s && j != k {
        assert after[j] == s;
      }
      assert after[k] == Seat(r.seats[k].objectPath, Some(active));
    }
  }

  /** Paths stay distinct over every history. */
  lemma {:induction false} SeatsStayDistinct(r: Registry, calls: seq<Call>)
    requires SeatsDistinct(r.seats)
    ensures SeatsDistinct(After(r, calls).seats)
    decreases |calls|
  {
    if calls != [] {
      SeatsStayDistinct(r, calls[..|calls| - 1]);
      SeatsStep(After(r, calls[..|calls| - 1]), calls[|calls| - 1], Seat("", None));
    }
  }

  /** A seat that comes and goes leaves the registry as it was. */
  lemma SeatComesAndGoes(r: Registry, path: string, found: Option<string>)
    requires FindSeat(r.seats, path) == |r.seats|
    ensures Do(Do(r, SeatNew(path, found)), SeatRemoved(path)) == r
  {
    if found.Some? {
      var more := [Seat(path, found)] + r.seats;
      assert FindSeat(more, path) == 0;
      assert Removed(more, 0) == r.seats;
    }
  }

  // ---- the cached flag ----------------------------------------------------

  predicate FlagIsRight(r: Registry) {
    r.inhibit == Inhibited(r.seats, r.inhibitors)
  }

  /** Every call but a change of the seat list leaves a right flag right; exactly
      these seat changes do not. */
  lemma FlagAfterCallIff(r: Registry, c: Call)
    requires FlagIsRight(r)
    ensures FlagIsRight(Do(r, c)) <==> !Unnoticed(r, c)
  {
    match c {
      case SeatNew(path, found) =>
        if FindSeat(r.seats, path) == |r.seats| && found.Some? {
          var more := [Seat(path, found)] + r.seats;
          assert more[0].active == found && forall k :: 0 <= k < |r.seats| ==> more[k + 1] == r.seats[k];
        }
      case SeatRemoved(path) =>
        var k := FindSeat(r.seats, path);
        if k < |r.seats| {
          InhibitedWithoutIff(r, k);
        }
      case _ =>
    }
  }

  /** A seat whose session holds an inhibitor arrives, and the flag stays down. */
  lemma NewSeatGoesUnnoticed()
    ensures var r := Registry([], [Inhibitor(7, "/session", ":1.1", "")], false);
            FlagIsRight(r) && !FlagIsRight(Do(r, SeatNew("/seat0", Some("/session"))))
  {
    var r := Registry([], [Inhibitor(7, "/session", ":1.1", "")], false);
    assert HasInhibitor(r.inhibitors, Some("/session")) by {
      assert r.inhibitors[0].sessionId == "/session";
    }
    FlagAfterCallIff(r, SeatNew("/seat0", Some("/session")));
  }

  /** A new seat brings an inhibited session, or the last inhibited seat goes. */
  predicate Unnoticed(r: Registry, c: Call) {
    match c
    case SeatNew(path, found) =>
      FindSeat(r.seats, path) == |r.seats| && !r.inhibit && HasInhibitor(r.inhibitors, found)
    case SeatRemoved(path) =>
      var k := FindSeat(r.seats, path);
      k < |r.seats| && HasInhibitor(r.inhibitors, r.seats[k].active)
      && forall j :: 0 <= j < |r.seats| && j != k ==> !HasInhibitor(r.inhibitors, r.seats[j].active)
    case _ => false
  }

  /** Removing a seat lifts the inhibition exactly if it was the only one with it. */
  lemma InhibitedWithoutIff(r: Registry, k: nat)
    requires k < |r.seats|
    ensures Inhibited(r.seats, r.inhibitors) && !Inhibited(Removed(r.seats, k), r.inhibitors)
            <==> HasInhibitor(r.inhibitors, r.seats[k].active)
                 && forall j :: 0 <= j < |r.seats| && j != k ==> !HasInhibitor(r.inhibitors, r.seats[j].active)
    ensures Inhibited(Removed(r.seats, k), r.inhibitors) ==> Inhibited(r.seats, r.inhibitors)
  {
    hide HasInhibitor;
    var rest := Removed(r.seats, k);
    forall j | 0 <= j < |r.seats| && j != k ensures r.seats[j] in rest {
      assert r.seats[j] == rest[if j < k then j else j - 1];
    }
    forall j | 0 <= j < |rest| ensures rest[j] == r.seats[if j < k then j else j + 1] {}
  }

  /** A call that changes the list of inhibitors or an active session. */
  predicate Renews(r: Registry, c: Call) {
    Do(r, c).inhibitors != r.inhibitors || (c.ActiveChanged? && c.seat < |r.seats|)
  }

  lemma RenewedIsRight(r: Registry, c: Call)
    requires Renews(r, c)
    ensures FlagIsRight(Do(r, c))
  {
  }

  /** The flag over whole histories: it is right if it was right at the start, or a
      call renewed it whatever it was, and no seat change since went unnoticed; in
      particular for a fixed list of seats. */
  lemma {:induction false} FlagOverHistories(r: Registry, calls: seq<Call>, k: nat)
    requires k <= |calls|
    requires if k == 0 then FlagIsRight(r) else Renews(After(r, calls[..k - 1]), calls[k - 1])
    requires forall n :: k <= n < |calls| ==> !Unnoticed(After(r, calls[..n]), calls[n])
    ensures FlagIsRight(After(r, calls))
    decreases |calls|
  {
    hide Do;
    hide FlagIsRight;
    hide Renews;
    hide Unnoticed;
    if calls != [] {
      var init := calls[..|calls| - 1];
      assert forall n :: 0 <= n <= |init| ==> init[..n] == calls[..n];
      if k < |calls| {
        FlagOverHistories(r, init, k);
        FlagAfterCallIff(After(r, init), calls[|calls| - 1]);
      } else {
        RenewedIsRight(After(r, init), calls[|calls| - 1]);
      }
    }
  }

  // ---- a free cookie exists -----------------------------------------------

  function Range(lo: int, hi: int): (s: set<int>)
    requires lo <= hi
    ensures |s| == hi - lo && forall c :: c in s <==> lo <= c < hi
    decreases hi - lo
  {
    if lo == hi then {} else Range(lo, hi - 1) + {hi - 1}
  }

  function Cookies(inhibitors: seq<Inhibitor>): (s: set<int>)
    ensures |s| <= |inhibitors| && forall k :: 0 <= k < |inhibitors| ==> inhibitors[k].cookie in s
  {
    if inhibitors == [] then {} else {inhibitors[0].cookie} + Cookies(inhibitors[1..])
  }

  lemma FreeBelow(inhibitors: seq<Inhibitor>, bound: int) returns (cookie: int)
    requires |inhibitors| < bound - 1
    ensures 1 <= cookie < bound && forall k :: 0 <= k < |inhibitors| ==> inhibitors[k].cookie != cookie
  {
    if Range(1, bound) <= Cookies(inhibitors) {
      Smaller(Range(1, bound), Cookies(inhibitors));
      assert false;
    }
    cookie :| cookie in Range(1, bound) && cookie !in Cookies(inhibitors);
  }

  /** With fewer than G_MAXINT - 1 inhibitors one of the G_MAXINT - 1 values is free. */
  lemma FreeCookieExists(inhibitors: seq<Inhibitor>)
    requires |inhibitors| < G_MAXINT - 1
    ensures exists cookie :: Free(inhibitors, cookie)
  {
    var cookie := FreeBelow(inhibitors, G_MAXINT);
    assert Free(inhibitors, cookie);
  }

  lemma Smaller<T>(a: set<T>, b: set<T>)
    requires a <= b
    ensures |a| <= |b|
  {
    assert b == a + (b - a);
  }

  // ---- the object ---------------------------------------------------------

  class UrfSeat {
    var objectPath: string
    var active: Option<string>

    constructor (objectPath: string, active: Option<string>)
      ensures this.objectPath == objectPath && this.active == active
    {
      this.objectPath, this.active := objectPath, active;
    }
  }

  ghost predicate Distinct<T>(s: seq<T>) {
    forall j, k :: 0 <= j < k < |s| ==> s[j] != s[k]
  }

  lemma RemovedDistinct<T>(s: seq<T>, k: nat)
    requires Distinct(s) && k < |s|
    ensures Distinct(Removed(s, k))
  {
    var rest := Removed(s, k);
    assert forall i :: 0 <= i < |rest| ==> rest[i] == s[if i < k then i else i + 1];
  }

  function SeatValues(seats: seq<UrfSeat>): (s: seq<Seat>)
    reads seats
    ensures |s| == |seats| && forall k :: 0 <= k < |seats| ==> s[k] == Seat(seats[k].objectPath, seats[k].active)
  {
    if seats == [] then [] else [Seat(seats[0].objectPath, seats[0].active)] + SeatValues(seats[1..])
  }

  lemma RemovedValues(seats: seq<UrfSeat>, k: nat)
    requires k < |seats|
    ensures SeatValues(Removed(seats, k)) == Removed(SeatValues(seats), k)
  {
    var rest, values := Removed(seats, k), SeatValues(seats);
    forall i | 0 <= i < |rest| ensures SeatValues(rest)[i] == Removed(values, k)[i] {
      RemovedAt(seats, k, i);
      RemovedAt(values, k, i);
    }
  }


  lemma OneSeatUpdated(seats: seq<UrfSeat>, k: nat, before: seq<Seat>, session: string)
    requires k < |seats| == |before| && seats[k].objectPath == before[k].objectPath && seats[k].active == Some(session)
    requires forall j :: 0 <= j < |seats| && j != k ==> before[j] == Seat(seats[j].objectPath, seats[j].active)
    ensures SeatValues(seats) == before[k := before[k].(active := Some(session))]
  {
  }

  lemma DoActiveChanged(r: Registry, k: nat, session: string)
    requires k < |r.seats|
    ensures Do(r, ActiveChanged(k, session))
         == Recompute(r.(seats := r.seats[k := r.seats[k].(active := Some(session))]))
  {
  }

  lemma DoInhibit(r: Registry, busName: string, reason: string, session: Option<string>, draw: int)
    ensures Do(r, Call.Inhibit(busName, reason, session, draw)) ==
            if FindBus(r.inhibitors, busName) < |r.inhibitors| || session == None then r
            else Recompute(r.(inhibitors := [Inhibitor(draw, session.value, busName, reason)] + r.inhibitors))
  {
  }

  lemma DoSeatRemoved(r: Registry, path: string)
    ensures var k := FindSeat(r.seats, path);
            Do(r, SeatRemoved(path)) == if k == |r.seats| then r else r.(seats := Removed(r.seats, k))
  {
  }

  /** A source of draws in range from which every value comes sooner or later. */
  ghost predicate Fair(draw: nat -> int) {
    && (forall n: nat :: 1 <= draw(n) < G_MAXINT)
    && (forall c :: 1 <= c < G_MAXINT ==> IsDrawn(draw, c))
  }

  ghost predicate IsDrawn(draw: nat -> int, c: int) {
    exists n: nat :: draw(n) == c
  }

  class UrfSessionChecker {
    var proxy: bool
    var seats: seq<UrfSeat>
    var inhibitors: seq<Inhibitor>
    var inhibit: bool

    ghost predicate Valid()
      reads this
    {
      Distinct(seats)
    }

    ghost function SeatsView(): (s: seq<Seat>)
      reads this`seats, seats
    {
      SeatValues(seats)
    }

    ghost function View(): Registry
      reads this, seats
    {
      Registry(SeatsView(), inhibitors, inhibit)
    }

    constructor ()
      ensures Valid() && View() == Registry([], [], false) && !proxy
    {
      proxy, seats, inhibitors, inhibit := false, [], [], false;
    }

    method FindInhibitorBySid(session: Option<string>) returns (found: bool)
      ensures found == HasInhibitor(inhibitors, session)
    {
      for i := 0 to |inhibitors|
        invariant forall k :: 0 <= k < i ==> Some(inhibitors[k].sessionId) != session
      {
        if Some(inhibitors[i].sessionId) == session {
          return true;
        }
      }
      found := false;
    }

    method FindInhibitorByBusName(busName: string) returns (k: nat)
      ensures k == FindBus(inhibitors, busName)
    {
      k := 0;
      while k < |inhibitors|
        invariant k <= |inhibitors| && forall j :: 0 <= j < k ==> inhibitors[j].busName != busName
      {
        if inhibitors[k].busName == busName {
          return;
        }
        k := k + 1;
      }
    }

    method FindInhibitorByCookie(cookie: int) returns (k: nat)
      ensures k == FindCookie(inhibitors, cookie)
    {
      if cookie == 0 {
        return |inhibitors|;
      }
      k := 0;
      while k < |inhibitors|
        invariant k <= |inhibitors| && forall j :: 0 <= j < k ==> inhibitors[j].cookie != cookie
      {
        if inhibitors[k].cookie == cookie {
          return;
        }
        k := k + 1;
      }
    }

    method FindSeatByPath(path: string) returns (k: nat)
      ensures k == FindSeat(SeatsView(), path)
    {
      k := 0;
      while k < |seats|
        invariant k <= |seats| && forall j :: 0 <= j < k ==> SeatsView()[j].objectPath != path
      {
        if seats[k].objectPath == path {
          return;
        }
        k := k + 1;
      }
    }

    method IsInhibited() returns (r: bool)
      ensures r == Inhibited(SeatsView(), inhibitors)
    {
      for i := 0 to |seats|
        invariant forall k :: 0 <= k < i ==> !HasInhibitor(inhibitors, SeatsView()[k].active)
      {
        var found := FindInhibitorBySid(seats[i].active);
        assert SeatsView()[i].active == seats[i].active;
        if found {
          return true;
        }
      }
      r := false;
    }

    /** The rejection loop ends if every value is drawn sooner or later and fewer
        inhibitors than values exist; it takes the first draw that is free. */
    method GenerateUniqueCookie(draw: nat -> int) returns (cookie: int)
      requires |inhibitors| < G_MAXINT - 1
      requires Fair(draw)
      ensures Free(inhibitors, cookie)
      ensures exists n: nat :: draw(n) == cookie && forall m: nat :: m < n ==> !Free(inhibitors, draw(m))
    {
      FreeCookieExists(inhibitors);
      ghost var free :| Free(inhibitors, free);
      assert IsDrawn(draw, free);
      ghost var last: nat :| draw(last) == free;
      var n: nat := 0;
      while true
        invariant n <= last && forall m: nat :: m < n ==> !Free(inhibitors, draw(m))
        decreases last - n
      {
        cookie := draw(n);
        var k := FindInhibitorByCookie(cookie);
        if k == |inhibitors| {
          break;
        }
        assert inhibitors[k].cookie == draw(n);
        n := n + 1;
      }
    }

    /** Without a proxy, that is before startup, nobody can inhibit. */
    method Inhibit(busName: string, reason: string, session: Option<string>, draw: nat -> int)
      returns (cookie: int, ghost drawn: int)
      requires Valid() && |inhibitors| < G_MAXINT - 1
      requires Fair(draw)
      modifies this`inhibitors, this`inhibit
      ensures Valid() && Free(old(inhibitors), drawn)
      ensures !proxy ==> View() == old(View()) && cookie == 0
      ensures proxy ==> View() == Do(old(View()), Call.Inhibit(busName, reason, session, drawn))
      ensures proxy ==> cookie == Reply(old(View()), Call.Inhibit(busName, reason, session, drawn))
    {
      hide Inhibited;
      hide Do;
      FreeCookieExists(inhibitors);
      drawn :| Free(inhibitors, drawn);
      DoInhibit(View(), busName, reason, session, drawn);
      if !proxy {
        return 0, drawn;
      }
      var k := FindInhibitorByBusName(busName);
      if k < |inhibitors| {
        return inhibitors[k].cookie, drawn;
      }
      if session == None {
        return 0, drawn;
      }
      cookie := GenerateUniqueCookie(draw);
      drawn := cookie;
      DoInhibit(View(), busName, reason, session, drawn);
      inhibitors := [Inhibitor(cookie, session.value, busName, reason)] + inhibitors;
      inhibit := IsInhibited();
    }

    method RemoveInhibitor(k: nat)
      requires Valid() && k < |inhibitors|
      modifies this`inhibitors, this`inhibit
      ensures Valid()
      ensures View() == if proxy then Release(old(View()), k) else old(View())
    {
      if !proxy {
        return;
      }
      inhibitors := Removed(inhibitors, k);
      inhibit := IsInhibited();
    }

    method Uninhibit(cookie: int)
      requires Valid()
      modifies this`inhibitors, this`inhibit
      ensures Valid()
      ensures View() == if proxy then Do(old(View()), Call.Uninhibit(cookie)) else old(View())
    {
      var k := FindInhibitorByCookie(cookie);
      if k == |inhibitors| {
        return;
      }
      RemoveInhibitor(k);
    }

    method BusOwnerChanged(oldOwner: string, newOwner: string)
      requires Valid()
      modifies this`inhibitors, this`inhibit
      ensures Valid()
      ensures View() == if proxy then Do(old(View()), OwnerChanged(oldOwner, newOwner)) else old(View())
    {
      if |newOwner| == 0 && |oldOwner| > 0 {
        var k := FindInhibitorByBusName(oldOwner);
        if k == |inhibitors| {
          return;
        }
        RemoveInhibitor(k);
      }
    }

    /** The seat stores its new session and then tells the checker. */
    method SeatActiveChanged(k: nat, session: string)
      requires Valid() && k < |seats|
      modifies this`inhibit, seats[k]
      ensures Valid()
      ensures View() == Do(old(View()), ActiveChanged(k, session))
    {
      hide Inhibited;
      hide Do;
      ghost var was := View();
      DoActiveChanged(was, k, session);
      seats[k].active := Some(session);
      OneSeatUpdated(seats, k, was.seats, session);
      inhibit := IsInhibited();
    }

    method SeatAdded(path: string, found: Option<string>)
      requires Valid()
      modifies this`seats
      ensures Valid()
      ensures View() == Do(old(View()), SeatNew(path, found))
    {
      var k := FindSeatByPath(path);
      if k < |seats| || found == None {
        return;
      }
      ghost var before := SeatsView();
      var seat := new UrfSeat(path, found);
      seats := [seat] + seats;
      assert SeatsView() == [Seat(path, found)] + before;
    }

    method RemoveSeat(path: string)
      requires Valid()
      modifies this`seats
      ensures Valid()
      ensures View() == Do(old(View()), SeatRemoved(path))
    {
      hide Inhibited;
      hide Do;
      hide Removed;
      hide Distinct;
      DoSeatRemoved(View(), path);
      var k := FindSeatByPath(path);
      if k == |seats| {
        return;
      }
      RemovedDistinct(seats, k);
      RemovedValues(seats, k);
      seats := Removed(seats, k);
    }
  }
}
