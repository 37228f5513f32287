/** How the daemon arrives at its four options: defaults, then either the saved
    hardware profile or a fold over the profile directory, then urfkill.conf. */
module Config {
  import opened Rfkill
  import opened MatchOperators
  import opened ProfileParser

  // ---- key files ----------------------------------------------------------

  /** A key file by group and key. */
  type KeyFile = map<string, map<string, string>>

  function GetBoolean(kf: KeyFile, group: string, key: string): Option<bool> {
    if group !in kf || key !in kf[group] then None
    else if kf[group][key] == "true" || kf[group][key] == "1" then Some(true)
    else if kf[group][key] == "false" || kf[group][key] == "0" then Some(false)
    else None
  }

  function Or(b: Option<bool>, otherwise: bool): bool {
    if b.Some? then b.value else otherwise
  }

  /** The keys of one group override the options one by one. */
  function Override(o: Options, kf: KeyFile, group: string): Options {
    Options(
      Or(GetBoolean(kf, group, "key_control"), o.keyControl),
      Or(GetBoolean(kf, group, "master_key"), o.masterKey),
      Or(GetBoolean(kf, group, "force_sync"), o.forceSync),
      Or(GetBoolean(kf, group, "persist"), o.persist))
  }

  function Written(b: bool): string {
    if b then "true" else "false"
  }

  function Saved(o: Options): KeyFile {
    map["Profile" := map[
      "key_control" := Written(o.keyControl),
      "master_key" := Written(o.masterKey),
      "force_sync" := Written(o.forceSync),
      "persist" := Written(o.persist)]]
  }

  /** What is saved reads back whatever the options were before. */
  lemma SavedReadsBack(o: Options, before: Options)
    ensures Override(before, Saved(o), "Profile") == o
  {
    assert forall b :: Written(b) == "true" <==> b;
    assert forall b :: Written(b) == "false" <==> !b;
    var group := Saved(o)["Profile"];
    assert group["key_control"] == Written(o.keyControl);
    assert group["master_key"] == Written(o.masterKey);
    assert group["force_sync"] == Written(o.forceSync);
    assert group["persist"] == Written(o.persist);
  }

  // ---- the profile directory ----------------------------------------------

  /** A profile: not a regular file, unreadable, a document, or one that the XML
      parser gives up on after the given events, which nest as far as they go. */
  datatype Content = NotRegular | Unreadable | Malformed(events: seq<Event>) | Document(root: Node)

  type Profile = c: Content | (c.Document? ==> c.root.Element?) && (c.Malformed? ==> NestedPrefix(c.events))
    witness Unreadable

  /** Byte order of names, as strcmp. */
  predicate NameLeq(a: string, b: string) {
    a == "" || (b != "" && (a[0] < b[0] || (a[0] == b[0] && NameLeq(a[1..], b[1..]))))
  }

  lemma {:induction false} NameOrder(a: string, b: string, c: string)
    ensures NameLeq(a, b) || NameLeq(b, a)
    ensures NameLeq(a, b) && NameLeq(b, a) ==> a == b
    ensures NameLeq(a, b) && NameLeq(b, c) ==> NameLeq(a, c)
  {
    if a != "" && b != "" {
      NameOrder(a[1..], b[1..], if c == "" then "" else c[1..]);
      if a[0] == b[0] && a[1..] == b[1..] {
        assert a == [a[0]] + a[1..] && b == [b[0]] + b[1..];
      }
    }
  }

  /** Strictly before in byte order: the shorter of two names of which one begins the
      other, else the one with the smaller character where they first differ. */
  predicate Before(a: string, b: string) {
    exists i | 0 <= i <= |a| :: DiffersAt(a, b, i)
  }

  predicate DiffersAt(a: string, b: string, i: nat) {
    && i <= |a| && i < |b| && a[..i] == b[..i]
    && (i == |a| || a[i] < b[i])
  }

  lemma FirstIsLeq(a: string, b: string, i: nat)
    requires a != "" && DiffersAt(a, b, i)
    ensures a[0] <= b[0]
  {
    if i > 0 {
      assert a[..i][0] == b[..i][0];
    }
  }

  lemma {:induction false} NameLeqIff(a: string, b: string)
    ensures NameLeq(a, b) <==> a == b || Before(a, b)
  {
    if a == "" {
      if b != "" {
        assert DiffersAt(a, b, 0);
      }
    } else if b != "" {
      if a[0] == b[0] {
        NameLeqIff(a[1..], b[1..]);
        assert a == [a[0]] + a[1..] && b == [b[0]] + b[1..];
        if i :| 0 <= i <= |a[1..]| && DiffersAt(a[1..], b[1..], i) {
          assert a[..i + 1] == [a[0]] + a[1..][..i] && b[..i + 1] == [b[0]] + b[1..][..i];
          assert DiffersAt(a, b, i + 1);
        }
        if i :| 0 <= i <= |a| && DiffersAt(a, b, i) {
          assert i > 0;
          assert a[1..][..i - 1] == a[..i][1..] && b[1..][..i - 1] == b[..i][1..];
          assert DiffersAt(a[1..], b[1..], i - 1);
        }
      } else {
        if a[0] < b[0] {
          assert DiffersAt(a, b, 0);
        }
        if i :| 0 <= i <= |a| && DiffersAt(a, b, i) {
          FirstIsLeq(a, b, i);
        }
      }
    }
  }

  ghost predicate SortedNames(names: seq<string>) {
    forall i, j :: 0 <= i < j < |names| ==> NameLeq(names[i], names[j])
  }

  function Insert(name: string, names: seq<string>): (r: seq<string>)
    requires SortedNames(names)
    ensures SortedNames(r) && multiset(r) == multiset{name} + multiset(names)
  {
    if names == [] then [name]
    else if NameLeq(name, names[0]) then
      assert forall j :: 0 <= j < |names| ==> NameLeq(name, names[j]) by {
        forall j | 0 <= j < |names| ensures NameLeq(name, names[j]) {
          NameOrder(name, names[0], names[j]);
        }
      }
      [name] + names
    else
      var rest := Insert(name, names[1..]);
      assert names == [names[0]] + names[1..];
      assert forall x :: x in rest ==> NameLeq(names[0], x) by {
        NameOrder(name, names[0], "");
        forall x | x in rest ensures NameLeq(names[0], x) {
          assert x in multiset(rest);
          if x != name {
            assert x in multiset(names[1..]) && x in names[1..];
          }
        }
      }
      [names[0]] + rest
  }

  function Sort(names: seq<string>): (r: seq<string>)
    ensures SortedNames(r) && multiset(r) == multiset(names)
  {
    if names == [] then []
    else
      assert names == [names[0]] + names[1..];
      Insert(names[0], Sort(names[1..]))
  }

  lemma SmallestIsFirst(a: seq<string>, b: seq<string>)
    requires SortedNames(a) && SortedNames(b) && multiset(a) == multiset(b) && a != [] && b != []
    ensures a[0] == b[0]
  {
    assert a[0] in multiset(b) && b[0] in multiset(a);
    var i :| 0 <= i < |b| && b[i] == a[0];
    var j :| 0 <= j < |a| && a[j] == b[0];
    NameOrder(a[0], b[0], "");
    NameOrder(a[0], a[0], "");
  }

  lemma RestOfSorted(a: seq<string>)
    requires SortedNames(a) && a != []
    ensures SortedNames(a[1..]) && multiset(a[1..]) == multiset(a) - multiset{a[0]}
  {
    hide NameLeq;
    assert a == [a[0]] + a[1..];
  }

  /** Names have only one sorted order. */
  lemma {:induction false} SortedIsUnique(a: seq<string>, b: seq<string>)
    requires SortedNames(a) && SortedNames(b) && multiset(a) == multiset(b)
    ensures a == b
  {
    hide SortedNames;
    assert |multiset(a)| == |multiset(b)|;
    if a != [] {
      SmallestIsFirst(a, b);
      RestOfSorted(a);
      RestOfSorted(b);
      SortedIsUnique(a[1..], b[1..]);
      assert a == [a[0]] + a[1..] && b == [b[0]] + b[1..];
    }
  }

  /** The part of the directory a boot can see. */
  type Profiles = map<string, Profile>

  predicate Eligible(name: string, profiles: Profiles) {
    && name != "" && name[0] != '.' && EndsWith(name, ".xml")
    && name in profiles && !profiles[name].NotRegular?
  }

  function Select(listing: seq<string>, profiles: Profiles): (r: seq<string>)
    ensures forall n :: n in r ==> n in listing && n in profiles && Eligible(n, profiles)
  {
    if listing == [] then []
    else (if Eligible(listing[0], profiles) then [listing[0]] else []) + Select(listing[1..], profiles)
  }

  lemma {:induction false} SelectConcat(a: seq<string>, b: seq<string>, profiles: Profiles)
    ensures Select(a + b, profiles) == Select(a, profiles) + Select(b, profiles)
  {
    hide Eligible;
    if a == [] {
      assert a + b == b;
    } else {
      assert (a + b)[0] == a[0] && (a + b)[1..] == a[1..] + b;
      SelectConcat(a[1..], b, profiles);
    }
  }

  lemma SelectOneMore(listing: seq<string>, i: nat, profiles: Profiles)
    requires i < |listing|
    ensures Select(listing[..i + 1], profiles)
         == Select(listing[..i], profiles) + if Eligible(listing[i], profiles) then [listing[i]] else []
  {
    SelectConcat(listing[..i], [listing[i]], profiles);
    assert listing[..i + 1] == listing[..i] + [listing[i]];
    assert [listing[i]][1..] == [];
  }

  lemma {:induction false} SelectCounts(listing: seq<string>, profiles: Profiles, n: string)
    ensures multiset(Select(listing, profiles))[n] == if Eligible(n, profiles) then multiset(listing)[n] else 0
  {
    if listing != [] {
      assert listing == [listing[0]] + listing[1..];
      SelectCounts(listing[1..], profiles, n);
    }
  }

  /** Exactly the listed regular files whose name ends in .xml and begins with no dot. */
  lemma SelectedIff(listing: seq<string>, profiles: Profiles, name: string)
    ensures name in Select(listing, profiles) <==>
            && name in listing && name in profiles && !profiles[name].NotRegular?
            && (exists stem: string :: name == stem + ".xml") && name[0] != '.'
  {
    hide EndsWith;
    EndsWithMeans(name, ".xml");
    SelectCounts(listing, profiles, name);
    assert name in Select(listing, profiles) <==> name in multiset(Select(listing, profiles));
    assert name in listing <==> name in multiset(listing);
  }

  /** What one profile makes of the options; None is the crash on a match the
      parser cannot decide. A failed parse leaves the options as they were. */
  function ProfileEffect(hw: DmiInfo, profile: Profile, o: Options): Option<Options> {
    match profile
    case NotRegular => Some(o)
    case Unreadable => Some(o)
    case Malformed(events) => if Run(Some(hw), Initial(o), events) == None then None else Some(o)
    case Document(root) => Eval(Some(hw), root, o)
  }

  function Fold(hw: DmiInfo, profiles: Profiles, names: seq<string>, o: Options): Option<Options>
    requires forall n :: n in names ==> n in profiles
  {
    if names == [] then Some(o)
    else
      match ProfileEffect(hw, profiles[names[0]], o)
      case None => None
      case Some(o1) => Fold(hw, profiles, names[1..], o1)
  }

  function FoldDirectory(hw: DmiInfo, profiles: Profiles, listing: seq<string>, o: Options): Option<Options> {
    var names := Sort(Select(listing, profiles));
    assert forall n :: n in names ==> n in multiset(names);
    Fold(hw, profiles, names, o)
  }

  /** A profile that crashes the parser, told from its contents alone. */
  ghost predicate ProfileStuck(hw: DmiInfo, profile: Profile) {
    match profile
    case NotRegular => false
    case Unreadable => false
    case Malformed(events) => StuckStream(Some(hw), events)
    case Document(root) => Stuck(Some(hw), root)
  }

  lemma ProfileFailsIff(hw: DmiInfo, profile: Profile, o: Options)
    ensures ProfileEffect(hw, profile, o) == None <==> ProfileStuck(hw, profile)
  {
    hide Stuck;
    match profile {
      case Malformed(events) => RunFailsIff(Some(hw), o, events);
      case Document(root) => EvalFailsIff(Some(hw), root, o);
      case _ =>
    }
  }

  lemma {:induction false} FoldFailsIff(hw: DmiInfo, profiles: Profiles, names: seq<string>, o: Options)
    requires forall n :: n in names ==> n in profiles
    ensures Fold(hw, profiles, names, o) == None <==> exists n :: n in names && ProfileStuck(hw, profiles[n])
  {
    hide ProfileStuck;
    hide ProfileEffect;
    if names != [] {
      assert names == [names[0]] + names[1..];
      ProfileFailsIff(hw, profiles[names[0]], o);
      var r := ProfileEffect(hw, profiles[names[0]], o);
      if r.Some? {
        FoldFailsIff(hw, profiles, names[1..], r.value);
      }
    }
  }

  /** Some listed profile crashes the parser. */
  ghost predicate DirectoryStuck(hw: DmiInfo, profiles: Profiles, listing: seq<string>) {
    exists n :: n in listing && n in profiles && Eligible(n, profiles) && ProfileStuck(hw, profiles[n])
  }

  lemma DirectoryFailsIff(hw: DmiInfo, profiles: Profiles, listing: seq<string>, o: Options)
    ensures FoldDirectory(hw, profiles, listing, o) == None <==> DirectoryStuck(hw, profiles, listing)
  {
    hide ProfileStuck;
    hide Eligible;
    hide Fold;
    var selected := Select(listing, profiles);
    var names := Sort(selected);
    assert forall n :: n in names <==> n in multiset(names);
    assert forall n :: n in selected <==> n in multiset(selected);
    FoldFailsIff(hw, profiles, names, o);
    forall n | n in listing && Eligible(n, profiles) ensures n in selected {
      SelectCounts(listing, profiles, n);
      assert n in multiset(listing);
    }
  }

  /** The order in which the directory lists its files does not matter. */
  lemma ListingOrderDoesNotMatter(hw: DmiInfo, profiles: Profiles, a: seq<string>, b: seq<string>, o: Options)
    requires multiset(a) == multiset(b)
    ensures FoldDirectory(hw, profiles, a, o) == FoldDirectory(hw, profiles, b, o)
  {
    var sa, sb := Select(a, profiles), Select(b, profiles);
    forall n: string ensures multiset(sa)[n] == multiset(sb)[n] {
      SelectCounts(a, profiles, n);
      SelectCounts(b, profiles, n);
    }
    assert multiset(sa) == multiset(sb);
    SortedIsUnique(Sort(sa), Sort(sb));
  }

  lemma TwoNamesSorted(a: string, b: string, names: seq<string>)
    requires Before(a, b) && SortedNames(names) && multiset(names) == multiset{a, b}
    ensures names == [a, b]
  {
    NameLeqIff(a, b);
    SortedIsUnique(names, [a, b]);
  }

  /** Of two profiles the one earlier in byte order is applied first, in whatever
      order the directory lists them. */
  lemma ProfilesInNameOrder(hw: DmiInfo, profiles: Profiles, a: string, b: string, listing: seq<string>, o: Options)
    requires Before(a, b) && multiset(listing) == multiset{a, b}
    requires a in profiles && b in profiles && Eligible(a, profiles) && Eligible(b, profiles)
    ensures FoldDirectory(hw, profiles, listing, o) ==
            match ProfileEffect(hw, profiles[a], o)
            case None => None
            case Some(o1) => ProfileEffect(hw, profiles[b], o1)
  {
    hide Before;
    hide Eligible;
    hide ProfileEffect;
    var selected := Select(listing, profiles);
    forall n: string ensures multiset(selected)[n] == multiset{a, b}[n] {
      SelectCounts(listing, profiles, n);
    }
    assert multiset(selected) == multiset{a, b};
    TwoNamesSorted(a, b, Sort(selected));
    FoldTwo(hw, profiles, a, b, o);
  }

  lemma FoldTwo(hw: DmiInfo, profiles: Profiles, a: string, b: string, o: Options)
    requires a in profiles && b in profiles
    ensures Fold(hw, profiles, [a, b], o) ==
            match ProfileEffect(hw, profiles[a], o)
            case None => None
            case Some(o1) => ProfileEffect(hw, profiles[b], o1)
  {
    hide ProfileEffect;
    assert [a, b][1..] == [b] && [b][1..] == [];
    if ProfileEffect(hw, profiles[a], o).Some? {
      var o1 := ProfileEffect(hw, profiles[a], o).value;
      var r := ProfileEffect(hw, profiles[b], o1);
      if r.Some? {
        assert Fold(hw, profiles, [b][1..], r.value) == r;
      }
      assert Fold(hw, profiles, [b], o1) == r;
    }
  }

  /** A profile that does nothing but set persist. */
  function SetsPersist(text: string): Profile {
    Document(Element("option", ["key", "persist"], [Chars(text)]))
  }

  /** Of two profiles that set one option, the later in byte order wins. */
  lemma LaterProfileWins(
      hw: DmiInfo, profiles: Profiles, a: string, b: string, first: string, second: string,
      listing: seq<string>, o: Options)
    requires Before(a, b) && multiset(listing) == multiset{a, b}
    requires a in profiles && b in profiles && Eligible(a, profiles) && Eligible(b, profiles)
    requires profiles[a] == SetsPersist(first) && profiles[b] == SetsPersist(second)
    requires (ReadsTrue(first) || ReadsFalse(first)) && (ReadsTrue(second) || ReadsFalse(second))
    ensures FoldDirectory(hw, profiles, listing, o)
         == Some(Options(o.keyControl, o.masterKey, o.forceSync, ReadsTrue(second)))
  {
    hide Before;
    hide Eligible;
    hide FoldDirectory;
    hide ReadsTrue;
    hide ReadsFalse;
    ProfilesInNameOrder(hw, profiles, a, b, listing, o);
    PersistKey();
    OptionText(Some(hw), ["key", "persist"], Some("persist"), first, o);
    OptionText(Some(hw), ["key", "persist"], Some("persist"), second,
               Options(o.keyControl, o.masterKey, o.forceSync, ReadsTrue(first)));
  }

  lemma PersistKey()
    ensures LastKey(OptionName, ["key", "persist"], 2, Some("persist"))
  {
    var atts := ["key", "persist"];
    OptionReads(atts);
    assert ScanOption(atts, 2, Some("persist")) == Some("persist");
    assert ScanOption(atts, 0, None) == Some("persist");
  }

  /** Only documents contribute: the fold is the fold over the documents alone. */
  lemma {:induction false} FailuresContributeNothing(hw: DmiInfo, profiles: Profiles, names: seq<string>, o: Options)
    requires (forall n :: n in names ==> n in profiles) && Fold(hw, profiles, names, o).Some?
    ensures Fold(hw, profiles, names, o) == Fold(hw, profiles, Documents(names, profiles), o)
  {
    if names != [] {
      var o1 := ProfileEffect(hw, profiles[names[0]], o).value;
      FailuresContributeNothing(hw, profiles, names[1..], o1);
      var rest := Documents(names[1..], profiles);
      assert ([names[0]] + rest)[1..] == rest;
      assert [] + rest == rest;
    }
  }

  function Documents(names: seq<string>, profiles: Profiles): (r: seq<string>)
    requires forall n :: n in names ==> n in profiles
    ensures forall n :: n in r ==> n in names && profiles[n].Document?
  {
    if names == [] then []
    else (if profiles[names[0]].Document? then [names[0]] else []) + Documents(names[1..], profiles)
  }

  // ---- a boot -------------------------------------------------------------

  const DEFAULTS := Options(true, false, false, true)

  /** What the daemon finds when it starts, and whether it can write its file. */
  datatype Surroundings = Surroundings(
    dmi: Option<DmiInfo>, listing: seq<string>, profiles: Profiles, conf: Option<KeyFile>,
    canSave: bool, canUnlink: bool)

  /** The options together with the saved hardware profile, if it can be loaded. */
  datatype Outcome = Outcome(options: Options, hardware: Option<KeyFile>)

  predicate Configured(hardware: Option<KeyFile>) {
    hardware.Some? && "Profile" in hardware.value
  }

  function ProfileOutcome(s: Surroundings, hardware: Option<KeyFile>, o: Options): Option<Outcome> {
    if Configured(hardware) then Some(Outcome(Override(o, hardware.value, "Profile"), hardware))
    else if s.dmi == None then Some(Outcome(o.(keyControl := false), hardware))
    else
      match FoldDirectory(s.dmi.value, s.profiles, s.listing, o)
      case None => None
      case Some(o1) =>
        Some(Outcome(o1, if s.canSave then Some(Saved(o1)) else if s.canUnlink then None else hardware))
  }

  function WithConf(o: Options, conf: Option<KeyFile>): Options {
    if conf.Some? then Override(o, conf.value, "general") else o
  }

  function Boot(s: Surroundings, hardware: Option<KeyFile>): Option<Outcome> {
    match ProfileOutcome(s, hardware, DEFAULTS)
    case None => None
    case Some(l) => Some(l.(options := WithConf(l.options, s.conf)))
  }

  /** Successive boots, each finding the saved profile the one before left. */
  function Boots(ss: seq<Surroundings>, hardware: Option<KeyFile>): Option<seq<Options>>
  {
    if ss == [] then Some([])
    else
      match Boot(ss[0], hardware)
      case None => None
      case Some(first) =>
        match Boots(ss[1..], first.hardware)
        case None => None
        case Some(rest) => Some([first.options] + rest)
  }

  /** Exactly when a boot fails: no profile is saved, the hardware is known, and some
      listed profile crashes the parser. */
  lemma BootFailsIff(s: Surroundings, hardware: Option<KeyFile>)
    ensures Boot(s, hardware) == None
            <==> !Configured(hardware) && s.dmi.Some? && DirectoryStuck(s.dmi.value, s.profiles, s.listing)
  {
    hide FoldDirectory;
    hide DirectoryStuck;
    hide Override;
    if s.dmi.Some? {
      DirectoryFailsIff(s.dmi.value, s.profiles, s.listing, DEFAULTS);
    }
  }

  /** The defaults: a boot that finds nothing keeps persist on and the rest off, but for
      key control, which a machine with hardware information has. */
  lemma BootThatFindsNothing(s: Surroundings, hardware: Option<KeyFile>)
    requires !Configured(hardware) && s.conf == None && s.listing == []
    ensures Boot(s, hardware).Some?
    ensures Boot(s, hardware).value.options == Options(s.dmi.Some?, false, false, true)
  {
  }

  /** How urfkill.conf spells a boolean; anything else leaves the default. */
  lemma ConfTexts(text: string)
    ensures var s := Surroundings(None, [], map[], Some(map["general" := map["persist" := text]]), false, false);
            Boot(s, None).value.options == Options(false, false, false, text != "false" && text != "0")
  {
    var conf := map["general" := map["persist" := text]];
    assert "general" in conf && conf["general"]["persist"] == text;
  }

  /** What urfkill.conf says wins over saved profile, fold and defaults; on what it
      does not say it has no influence. */
  lemma ConfWins(s: Surroundings, hardware: Option<KeyFile>)
    requires Boot(s, hardware).Some? && s.conf.Some?
    ensures var o, without := Boot(s, hardware).value.options, Boot(s.(conf := None), hardware).value.options;
            && o.keyControl == Or(GetBoolean(s.conf.value, "general", "key_control"), without.keyControl)
            && o.masterKey == Or(GetBoolean(s.conf.value, "general", "master_key"), without.masterKey)
            && o.forceSync == Or(GetBoolean(s.conf.value, "general", "force_sync"), without.forceSync)
            && o.persist == Or(GetBoolean(s.conf.value, "general", "persist"), without.persist)
  {
    hide FoldDirectory;
    hide GetBoolean;
  }

  /** A boot leaves a saved profile behind exactly when it found one or could fold
      and save; one that was there is kept as it is. */
  lemma ConfiguredAfterIff(s: Surroundings, hardware: Option<KeyFile>)
    requires Boot(s, hardware).Some?
    ensures Configured(Boot(s, hardware).value.hardware) <==> Configured(hardware) || (s.dmi.Some? && s.canSave)
    ensures Configured(hardware) ==> Boot(s, hardware).value.hardware == hardware
  {
    if !Configured(hardware) && s.dmi.Some? && s.canSave {
      assert "Profile" in Saved(FoldDirectory(s.dmi.value, s.profiles, s.listing, DEFAULTS).value);
    }
  }

  /** With a saved profile every boot, whatever the hardware and the profiles, gives
      that profile under urfkill.conf, and no boot fails. */
  lemma {:induction false} SavedProfileRules(ss: seq<Surroundings>, hardware: Option<KeyFile>, conf: Option<KeyFile>)
    requires Configured(hardware) && forall s :: s in ss ==> s.conf == conf
    ensures Boots(ss, hardware).Some? && |Boots(ss, hardware).value| == |ss|
    ensures forall o :: o in Boots(ss, hardware).value
              ==> o == WithConf(Override(DEFAULTS, hardware.value, "Profile"), conf)
  {
    if ss != [] {
      assert ss[0] in ss;
      SavedProfileRules(ss[1..], hardware, conf);
    }
  }

  /** After a boot that folded and saved, every later boot with the same
      urfkill.conf gives the options of that boot. */
  lemma FirstSaveDecides(first: Surroundings, hardware: Option<KeyFile>, later: seq<Surroundings>)
    requires !Configured(hardware) && first.dmi.Some? && first.canSave
    requires forall s :: s in later ==> s.conf == first.conf
    ensures var all := Boots([first] + later, hardware);
            && (all.None? <==> DirectoryStuck(first.dmi.value, first.profiles, first.listing))
            && (all.Some? ==> |all.value| == 1 + |later|
                              && forall o :: o in all.value ==> o == Boot(first, hardware).value.options)
  {
    hide DirectoryStuck;
    BootFailsIff(first, hardware);
    assert ([first] + later)[1..] == later;
    var folded := FoldDirectory(first.dmi.value, first.profiles, first.listing, DEFAULTS);
    if folded.Some? {
      assert Boot(first, hardware).value.hardware == Some(Saved(folded.value));
      SavedReadsBack(folded.value, DEFAULTS);
      SavedProfileRules(later, Some(Saved(folded.value)), first.conf);
    }
  }

  /** Until then each boot decides for itself: by its own fold, or, without
      hardware information, by the defaults with key control off. The boots fail
      exactly when some boot of a known machine lists a profile that crashes it. */
  lemma {:induction false} BeforeAnySave(ss: seq<Surroundings>, hardware: Option<KeyFile>)
    requires !Configured(hardware) && forall s :: s in ss ==> s.dmi == None || !s.canSave
    ensures Boots(ss, hardware) == None
            <==> exists s :: s in ss && s.dmi.Some? && DirectoryStuck(s.dmi.value, s.profiles, s.listing)
    ensures Boots(ss, hardware).Some? ==>
              && |Boots(ss, hardware).value| == |ss|
              && forall i :: 0 <= i < |ss| ==> Some(Boots(ss, hardware).value[i]) == OnItsOwn(ss[i])
  {
    hide Override;
    hide FoldDirectory;
    hide DirectoryStuck;
    if ss != [] {
      assert ss == [ss[0]] + ss[1..];
      BootFailsIff(ss[0], hardware);
      if Boot(ss[0], hardware).Some? {
        BeforeAnySave(ss[1..], Boot(ss[0], hardware).value.hardware);
      }
    }
  }

  function OnItsOwn(s: Surroundings): Option<Options> {
    if s.dmi == None then Some(WithConf(DEFAULTS.(keyControl := false), s.conf))
    else
      match FoldDirectory(s.dmi.value, s.profiles, s.listing, DEFAULTS)
      case None => None
      case Some(o) => Some(WithConf(o, s.conf))
  }

  // ---- the same, with the options updated in place ------------------------

  class UrfConfig {
    var options: Options

    constructor ()
      ensures options == DEFAULTS
    {
      options := DEFAULTS;
    }

    /** A parse works on a copy of the options; only a whole document reports back. */
    static method ProfileXmlParse(hw: DmiInfo, o: Options, profile: Profile) returns (ok: bool, r: Options)
      requires ProfileEffect(hw, profile, o).Some?
      ensures Some(r) == ProfileEffect(hw, profile, o)
      ensures ok <==> profile.Document?
    {
      ok, r := false, o;
      match profile
      case NotRegular =>
      case Unreadable =>
      case Malformed(events) =>
        var info := new ParseInfo(Some(hw), o);
        info.Feed(events);
      case Document(root) =>
        ParserIsEvaluator(Some(hw), root, o);
        var info := new ParseInfo(Some(hw), o);
        info.Feed(EventsOf(root));
        ok, r := true, info.options;
    }

    method ReadGroup(kf: KeyFile, group: string)
      modifies this
      ensures options == Override(old(options), kf, group)
    {
      hide GetBoolean;
      ghost var target := Override(options, kf, group);
      var b := GetBoolean(kf, group, "key_control");
      if b.Some? { options := options.(keyControl := b.value); }
      assert options == old(options).(keyControl := target.keyControl);
      b := GetBoolean(kf, group, "master_key");
      if b.Some? { options := options.(masterKey := b.value); }
      assert options == Options(target.keyControl, target.masterKey, old(options).forceSync, old(options).persist);
      b := GetBoolean(kf, group, "force_sync");
      if b.Some? { options := options.(forceSync := b.value); }
      assert options == target.(persist := old(options).persist);
      b := GetBoolean(kf, group, "persist");
      if b.Some? { options := options.(persist := b.value); }
    }

    method LoadConfiguredSettings(hardware: Option<KeyFile>) returns (ok: bool)
      modifies this
      ensures ok == Configured(hardware)
      ensures options == if ok then Override(old(options), hardware.value, "Profile") else old(options)
    {
      if hardware == None || "Profile" !in hardware.value {
        return false;
      }
      ReadGroup(hardware.value, "Profile");
      ok := true;
    }

    static method ListProfiles(s: Surroundings) returns (profileList: seq<string>)
      ensures profileList == Select(s.listing, s.profiles)
    {
      profileList := [];
      for i := 0 to |s.listing|
        invariant profileList == Select(s.listing[..i], s.profiles)
      {
        var file := s.listing[i];
        SelectOneMore(s.listing, i, s.profiles);
        if file == "" || file[0] == '.' || !EndsWith(file, ".xml") {
          continue;
        }
        if file in s.profiles && !s.profiles[file].NotRegular? {
          profileList := profileList + [file];
        }
      }
      assert s.listing[..|s.listing|] == s.listing;
    }

    static method ParseProfiles(hw: DmiInfo, profiles: Profiles, names: seq<string>, o: Options) returns (r: Options)
      requires (forall n :: n in names ==> n in profiles) && Fold(hw, profiles, names, o).Some?
      ensures Some(r) == Fold(hw, profiles, names, o)
    {
      hide ProfileEffect;
      r := o;
      for i := 0 to |names|
        invariant Fold(hw, profiles, names[i..], r) == Fold(hw, profiles, names, o)
      {
        assert names[i..][0] == names[i] && names[i..][1..] == names[i + 1..];
        var _, parsed := ProfileXmlParse(hw, r, profiles[names[i]]);
        r := parsed;
      }
    }

    method LoadProfile(s: Surroundings, hardware: Option<KeyFile>) returns (left: Option<KeyFile>)
      requires ProfileOutcome(s, hardware, options).Some?
      modifies this
      ensures Some(Outcome(options, left)) == ProfileOutcome(s, hardware, old(options))
    {
      hide Override;
      hide Fold;
      hide Select;
      hide Saved;
      left := hardware;
      var configured := LoadConfiguredSettings(hardware);
      if configured {
        return;
      }
      if s.dmi == None {
        options := options.(keyControl := false);
        return;
      }
      var profileList := ListProfiles(s);
      profileList := Sort(profileList);
      assert forall n :: n in profileList ==> n in multiset(profileList);
      options := ParseProfiles(s.dmi.value, s.profiles, profileList, options);
      if s.canUnlink {
        left := None;
      }
      if s.canSave {
        left := Some(Saved(options));
      }
    }

    method LoadFromFile(s: Surroundings, hardware: Option<KeyFile>) returns (left: Option<KeyFile>)
      requires options == DEFAULTS && Boot(s, hardware).Some?
      modifies this
      ensures Some(Outcome(options, left)) == Boot(s, hardware)
    {
      left := LoadProfile(s, hardware);
      if s.conf == None {
        return;
      }
      ReadGroup(s.conf.value, "general");
    }
  }
}
