/** The profile parser: SAX handlers with two counters and a current option,
    against a recursive evaluator over the element tree. */
module ProfileParser {
  import opened Rfkill
  import opened MatchOperators

  datatype DmiInfo = DmiInfo(
    sysVendor: Option<string>, biosDate: Option<string>, biosVendor: Option<string>,
    biosVersion: Option<string>, productName: Option<string>, productVersion: Option<string>)

  datatype Options = Options(keyControl: bool, masterKey: bool, forceSync: bool, persist: bool)

  datatype Opt = OptNone | OptKeyControl | OptMasterKey | OptForceSync | OptPersist | OptUnknown

  function GetOption(key: Option<string>): Opt {
    if key == Some("key_control") then OptKeyControl
    else if key == Some("master_key") then OptMasterKey
    else if key == Some("force_sync") then OptForceSync
    else if key == Some("persist") then OptPersist
    else OptUnknown
  }

  function GetMatchKey(hw: Option<DmiInfo>, key: Option<string>): Option<string> {
    if hw == None then None
    else if key == Some("sys_vendor") then hw.value.sysVendor
    else if key == Some("bios_date") then hw.value.biosDate
    else if key == Some("bios_vendor") then hw.value.biosVendor
    else if key == Some("bios_version") then hw.value.biosVersion
    else if key == Some("product_name") then hw.value.productName
    else if key == Some("product_version") then hw.value.productVersion
    else None
  }

  // ---- attributes: a flat list of names and values ------------------------

  datatype MatchAtts = MatchAtts(key: Option<string>, op: Operator, body: Option<string>)

  /** Reads a match element's attributes from position i on. An attribute that is
      neither the key nor an operator resets the operator and does not consume its
      value, which is then read as a name. */
  function ScanMatch(atts: seq<string>, i: nat, m: MatchAtts): MatchAtts
    decreases |atts| - i
  {
    if i >= |atts| then m
    else if atts[i] == "key" then
      if i + 1 == |atts| then m else ScanMatch(atts, i + 2, m.(key := Some(atts[i + 1])))
    else
      var m1 := m.(op := GetOperator(atts[i]));
      if m1.op == Unknown then ScanMatch(atts, i + 1, m1)
      else if i + 1 == |atts| then m1
      else ScanMatch(atts, i + 2, m1.(body := Some(atts[i + 1])))
  }

  function MatchOf(atts: seq<string>): MatchAtts {
    ScanMatch(atts, 0, MatchAtts(None, String, None))
  }

  function ScanOption(atts: seq<string>, i: nat, key: Option<string>): Option<string>
    decreases |atts| - i
  {
    if i >= |atts| then key
    else if atts[i] == "key" || atts[i] == "type" then
      if i + 1 == |atts| then key
      else ScanOption(atts, i + 2, if atts[i] == "key" then Some(atts[i + 1]) else key)
    else ScanOption(atts, i + 1, key)
  }

  // ---- what the attribute scans mean --------------------------------------

  predicate MatchName(name: string) {
    name == "key" || GetOperator(name) != Unknown
  }

  predicate OptionName(name: string) {
    name == "key" || name == "type"
  }

  /** Position i is read as a name: a known name takes the next position as its
      value, any other name takes nothing. */
  predicate IsRead(known: string -> bool, atts: seq<string>, i: nat)
    requires i <= |atts|
  {
    || i == 0
    || (IsRead(known, atts, i - 1) && !known(atts[i - 1]))
    || (i >= 2 && IsRead(known, atts, i - 2) && known(atts[i - 2]))
  }

  predicate ReadName(known: string -> bool, atts: seq<string>, i: nat) {
    i < |atts| && IsRead(known, atts, i)
  }

  /** A key with its value. */
  predicate KeyAt(known: string -> bool, atts: seq<string>, i: nat) {
    ReadName(known, atts, i) && atts[i] == "key" && i + 1 < |atts|
  }

  /** A name that decides the operator, were it only to reset it. */
  predicate OperatorAt(atts: seq<string>, i: nat) {
    ReadName(MatchName, atts, i) && atts[i] != "key"
  }

  predicate BodyAt(atts: seq<string>, i: nat) {
    OperatorAt(atts, i) && GetOperator(atts[i]) != Unknown && i + 1 < |atts|
  }

  /** The value of the last key read below n. */
  ghost predicate LastKey(known: string -> bool, atts: seq<string>, n: nat, key: Option<string>) {
    match key
    case None => forall i: nat :: i < n ==> !KeyAt(known, atts, i)
    case Some(v) => exists i: nat ::
      i < n && KeyAt(known, atts, i) && v == atts[i + 1] && forall j: nat :: i < j < n ==> !KeyAt(known, atts, j)
  }

  /** The operator of the last other name read below n; STRING without any. */
  ghost predicate LastOperator(atts: seq<string>, n: nat, op: Operator) {
    || (op == String && forall i: nat :: i < n ==> !OperatorAt(atts, i))
    || exists i: nat ::
      i < n && OperatorAt(atts, i) && op == GetOperator(atts[i]) && forall j: nat :: i < j < n ==> !OperatorAt(atts, j)
  }

  /** The value of the last operator read below n. */
  ghost predicate LastBody(atts: seq<string>, n: nat, body: Option<string>) {
    match body
    case None => forall i: nat :: i < n ==> !BodyAt(atts, i)
    case Some(v) => exists i: nat ::
      i < n && BodyAt(atts, i) && v == atts[i + 1] && forall j: nat :: i < j < n ==> !BodyAt(atts, j)
  }

  ghost predicate ReadsAs(atts: seq<string>, n: nat, m: MatchAtts) {
    LastKey(MatchName, atts, n, m.key) && LastOperator(atts, n, m.op) && LastBody(atts, n, m.body)
  }

  /** A value is not read as a name. */
  lemma {:induction false} ValuesAreNotRead(known: string -> bool, atts: seq<string>, i: nat)
    requires ReadName(known, atts, i) && known(atts[i])
    ensures !IsRead(known, atts, i + 1)
  {
    if i > 0 && IsRead(known, atts, i - 1) && known(atts[i - 1]) {
      ValuesAreNotRead(known, atts, i - 1);
    }
  }

  /** What position n adds. */
  function Considered(atts: seq<string>, n: nat, m: MatchAtts): MatchAtts {
    MatchAtts(
      if KeyAt(MatchName, atts, n) then Some(atts[n + 1]) else m.key,
      if OperatorAt(atts, n) then GetOperator(atts[n]) else m.op,
      if BodyAt(atts, n) then Some(atts[n + 1]) else m.body)
  }

  lemma OneMorePosition(atts: seq<string>, n: nat, m: MatchAtts)
    requires ReadsAs(atts, n, m)
    ensures ReadsAs(atts, n + 1, Considered(atts, n, m))
  {
    hide GetOperator;
    hide IsRead;
    OneMoreKey(MatchName, atts, n, m.key);
    var r := Considered(atts, n, m);
    if !OperatorAt(atts, n) && exists i: nat :: i < n && OperatorAt(atts, i) {
      assert LastOperator(atts, n + 1, m.op);
    }
    if m.body.Some? && !BodyAt(atts, n) {
      var i: nat :| i < n && BodyAt(atts, i) && m.body.value == atts[i + 1]
                 && (forall j: nat :: i < j < n ==> !BodyAt(atts, j));
    }
    assert LastBody(atts, n + 1, r.body);
  }

  lemma OneMoreKey(known: string -> bool, atts: seq<string>, n: nat, key: Option<string>)
    requires LastKey(known, atts, n, key)
    ensures LastKey(known, atts, n + 1, if KeyAt(known, atts, n) then Some(atts[n + 1]) else key)
  {
    hide ReadName;
    if key.Some? && !KeyAt(known, atts, n) {
      var i: nat :| i < n && KeyAt(known, atts, i) && key.value == atts[i + 1]
                 && (forall j: nat :: i < j < n ==> !KeyAt(known, atts, j));
    }
  }

  lemma {:induction false} ScanReads(atts: seq<string>, i: nat, m: MatchAtts)
    requires i <= |atts| && IsRead(MatchName, atts, i) && ReadsAs(atts, i, m)
    ensures ReadsAs(atts, |atts|, ScanMatch(atts, i, m))
    decreases |atts| - i
  {
    hide GetOperator;
    if i < |atts| {
      OneMorePosition(atts, i, m);
      var m1 := Considered(atts, i, m);
      if MatchName(atts[i]) && i + 1 < |atts| {
        ValuesAreNotRead(MatchName, atts, i);
        OneMorePosition(atts, i + 1, m1);
        assert Considered(atts, i + 1, m1) == m1;
        ScanReads(atts, i + 2, m1);
      } else if !MatchName(atts[i]) {
        ScanReads(atts, i + 1, m1);
      }
    }
  }

  /** The scan of a match element, for every list: the key is the value of the last
      key, the operator that of the last other name, the body the value of the last
      operator. */
  lemma MatchOfReads(atts: seq<string>)
    ensures ReadsAs(atts, |atts|, MatchOf(atts))
  {
    ScanReads(atts, 0, MatchAtts(None, String, None));
  }

  lemma {:induction false} ScanOptionReads(atts: seq<string>, i: nat, key: Option<string>)
    requires i <= |atts| && IsRead(OptionName, atts, i) && LastKey(OptionName, atts, i, key)
    ensures LastKey(OptionName, atts, |atts|, ScanOption(atts, i, key))
    decreases |atts| - i
  {
    if i < |atts| {
      OneMoreKey(OptionName, atts, i, key);
      var key1 := if KeyAt(OptionName, atts, i) then Some(atts[i + 1]) else key;
      if OptionName(atts[i]) && i + 1 < |atts| {
        ValuesAreNotRead(OptionName, atts, i);
        OneMoreKey(OptionName, atts, i + 1, key1);
        ScanOptionReads(atts, i + 2, key1);
      } else if !OptionName(atts[i]) {
        ScanOptionReads(atts, i + 1, key1);
      }
    }
  }

  /** For every list: the operator ends UNKNOWN exactly if the last name read, other
      than "key", is no operator. */
  lemma OperatorLostIff(atts: seq<string>)
    ensures MatchOf(atts).op == Unknown
            <==> exists i: nat :: OperatorAt(atts, i) && GetOperator(atts[i]) == Unknown
                                  && forall j: nat :: i < j < |atts| ==> !OperatorAt(atts, j)
  {
    hide GetOperator;
    hide IsRead;
    hide MatchOf;
    hide LastKey;
    hide LastBody;
    MatchOfReads(atts);
  }

  /** The scan of an option element likewise. */
  lemma OptionReads(atts: seq<string>)
    ensures LastKey(OptionName, atts, |atts|, ScanOption(atts, 0, None))
  {
    ScanOptionReads(atts, 0, None);
  }

  /** The attribute list of an XML element: names and values in turn. */
  function Flat(pairs: seq<(string, string)>): (atts: seq<string>)
    ensures |atts| == 2 * |pairs|
    ensures forall k :: 0 <= k < |pairs| ==> atts[2 * k] == pairs[k].0 && atts[2 * k + 1] == pairs[k].1
  {
    if pairs == [] then [] else Flat(pairs[..|pairs| - 1]) + [pairs[|pairs| - 1].0, pairs[|pairs| - 1].1]
  }

  /** No attribute that is unknown to the scan has a value that is known to it. */
  predicate Plain(pairs: seq<(string, string)>) {
    forall p :: p in pairs && !MatchName(p.0) ==> !MatchName(p.1)
  }

  function Took(m: MatchAtts, p: (string, string)): MatchAtts {
    if p.0 == "key" then m.(key := Some(p.1))
    else if GetOperator(p.0) == Unknown then m.(op := Unknown)
    else m.(op := GetOperator(p.0), body := Some(p.1))
  }

  /** The scan of a plain list, pair by pair. */
  function ScanPairs(pairs: seq<(string, string)>, k: nat, m: MatchAtts): MatchAtts
    decreases |pairs| - k
  {
    if k >= |pairs| then m
    else
      ScanPairs(pairs, k + 1, Took(m, pairs[k]))
  }

  lemma {:induction false} ScanIsScanPairs(pairs: seq<(string, string)>, k: nat, m: MatchAtts)
    requires Plain(pairs) && k <= |pairs|
    ensures ScanMatch(Flat(pairs), 2 * k, m) == ScanPairs(pairs, k, m)
    decreases |pairs| - k
  {
    hide GetOperator;
    if k < |pairs| {
      var p, atts := pairs[k], Flat(pairs);
      assert p in pairs && atts[2 * k] == p.0 && atts[2 * k + 1] == p.1;
      ScanIsScanPairs(pairs, k + 1, Took(m, p));
      if !MatchName(p.0) {
        assert ScanMatch(atts, 2 * k, m) == ScanMatch(atts, 2 * k + 1, m.(op := Unknown));
      }
    }
  }

  predicate LastIsKey(pairs: seq<(string, string)>, k: nat)
    requires k < |pairs|
  {
    pairs[k].0 == "key" && forall j :: k < j < |pairs| ==> pairs[j].0 != "key"
  }

  /** The last attribute that is not "key": an operator, or a foreign one. */
  predicate LastDecides(pairs: seq<(string, string)>, k: nat)
    requires k < |pairs|
  {
    pairs[k].0 != "key" && forall j :: k < j < |pairs| ==> pairs[j].0 == "key"
  }

  lemma {:induction false} LastKeyInPairs(pairs: seq<(string, string)>, from: nat, m: MatchAtts, k: nat)
    requires k < |pairs| && LastIsKey(pairs, k)
    ensures ScanPairs(pairs, from, m).key == if from <= k then Some(pairs[k].1) else m.key
    decreases |pairs| - from
  {
    hide GetOperator;
    if from < |pairs| {
      LastKeyInPairs(pairs, from + 1, Took(m, pairs[from]), k);
    }
  }

  lemma {:induction false} LastDeciderInPairs(pairs: seq<(string, string)>, from: nat, m: MatchAtts, k: nat)
    requires k < |pairs| && LastDecides(pairs, k)
    ensures var r := ScanPairs(pairs, from, m);
            if from <= k
            then r.op == GetOperator(pairs[k].0) && (r.op != Unknown ==> r.body == Some(pairs[k].1))
            else r.op == m.op && r.body == m.body
    decreases |pairs| - from
  {
    hide GetOperator;
    if from < |pairs| {
      LastDeciderInPairs(pairs, from + 1, Took(m, pairs[from]), k);
    }
  }

  /** Without a key, or without any other attribute, the scan keeps what it began with. */
  lemma {:induction false} NothingInPairs(pairs: seq<(string, string)>, from: nat, m: MatchAtts)
    ensures var r := ScanPairs(pairs, from, m);
            && ((forall k :: from <= k < |pairs| ==> pairs[k].0 != "key") ==> r.key == m.key)
            && ((forall k :: from <= k < |pairs| ==> pairs[k].0 == "key") ==> r.op == m.op && r.body == m.body)
    decreases |pairs| - from
  {
    hide GetOperator;
    if from < |pairs| {
      NothingInPairs(pairs, from + 1, Took(m, pairs[from]));
    }
  }

  /** What an element with a plain list means: the last key, and the last other
      attribute with its body if it is an operator, in whatever order they stand. */
  lemma MatchOfPairs(pairs: seq<(string, string)>)
    requires Plain(pairs)
    ensures var m := MatchOf(Flat(pairs));
            && ((forall k :: 0 <= k < |pairs| ==> pairs[k].0 != "key") ==> m.key == None)
            && ((forall k :: 0 <= k < |pairs| ==> pairs[k].0 == "key") ==> m.op == String && m.body == None)
            && (forall k :: 0 <= k < |pairs| && LastIsKey(pairs, k) ==> m.key == Some(pairs[k].1))
            && (forall k :: 0 <= k < |pairs| && LastDecides(pairs, k) ==>
                  m.op == GetOperator(pairs[k].0) && (m.op != Unknown ==> m.body == Some(pairs[k].1)))
  {
    hide GetOperator;
    var m0 := MatchAtts(None, String, None);
    ScanIsScanPairs(pairs, 0, m0);
    NothingInPairs(pairs, 0, m0);
    forall k | 0 <= k < |pairs| && LastIsKey(pairs, k) ensures ScanPairs(pairs, 0, m0).key == Some(pairs[k].1) {
      LastKeyInPairs(pairs, 0, m0, k);
    }
    forall k | 0 <= k < |pairs| && LastDecides(pairs, k)
      ensures var r := ScanPairs(pairs, 0, m0);
              r.op == GetOperator(pairs[k].0) && (r.op != Unknown ==> r.body == Some(pairs[k].1))
    {
      LastDeciderInPairs(pairs, 0, m0, k);
    }
  }

  lemma {:induction false} FindLastDecider(pairs: seq<(string, string)>, n: nat)
    requires n <= |pairs| && forall j :: n <= j < |pairs| ==> pairs[j].0 == "key"
    ensures (forall k :: 0 <= k < |pairs| ==> pairs[k].0 == "key")
         || (exists k :: 0 <= k < |pairs| && LastDecides(pairs, k))
  {
    if n > 0 {
      if pairs[n - 1].0 == "key" {
        FindLastDecider(pairs, n - 1);
      } else {
        assert LastDecides(pairs, n - 1);
      }
    }
  }

  /** At most one key and at most one other attribute. */
  predicate Single(pairs: seq<(string, string)>) {
    forall j, k :: 0 <= j < k < |pairs| ==> (pairs[j].0 == "key") != (pairs[k].0 == "key")
  }

  lemma SingleIn(pairs: seq<(string, string)>, p: (string, string))
    requires (forall q :: q in pairs ==> MatchName(q.0)) && Single(pairs) && p in pairs
    ensures var m := MatchOf(Flat(pairs));
            if p.0 == "key" then m.key == Some(p.1) else m.op == GetOperator(p.0) && m.body == Some(p.1)
  {
    hide GetOperator;
    hide MatchOf;
    MatchOfPairs(pairs);
    var k :| 0 <= k < |pairs| && pairs[k] == p;
    assert if p.0 == "key" then LastIsKey(pairs, k) else LastDecides(pairs, k);
  }

  lemma NoneIn(pairs: seq<(string, string)>)
    requires forall q :: q in pairs ==> MatchName(q.0)
    ensures var m := MatchOf(Flat(pairs));
            && ((forall q :: q in pairs ==> q.0 != "key") ==> m.key == None)
            && ((forall q :: q in pairs ==> q.0 == "key") ==> m.op == String && m.body == None)
  {
    hide GetOperator;
    hide MatchOf;
    MatchOfPairs(pairs);
  }

  /** A match with one key and one operator means the same in either order. */
  lemma AttributeOrderDoesNotMatter(a: seq<(string, string)>, b: seq<(string, string)>)
    requires (forall p :: p in a ==> MatchName(p.0)) && (forall p :: p in a <==> p in b) && Single(a) && Single(b)
    ensures MatchOf(Flat(a)) == MatchOf(Flat(b))
  {
    hide MatchName;
    hide MatchOf;
    if p :| p in a && p.0 == "key" {
      SingleIn(a, p);
      SingleIn(b, p);
    } else {
      NoneIn(a);
      NoneIn(b);
    }
    if p :| p in a && p.0 != "key" {
      SingleIn(a, p);
      SingleIn(b, p);
    } else {
      NoneIn(a);
      NoneIn(b);
    }
  }

  lemma {:induction false} BodyInPairs(pairs: seq<(string, string)>, from: nat, m: MatchAtts)
    ensures ScanPairs(pairs, from, m).body == None
            <==> m.body == None && forall k :: from <= k < |pairs| ==> pairs[k].0 == "key" || !MatchName(pairs[k].0)
    decreases |pairs| - from
  {
    hide GetOperator;
    if from < |pairs| {
      BodyInPairs(pairs, from + 1, Took(m, pairs[from]));
    }
  }

  /** Exactly when a foreign attribute spoils a match element: it stands after the
      last operator. The operator is then UNKNOWN, and no rule of it ever fits. */
  lemma ForeignResetsIff(pairs: seq<(string, string)>)
    requires Plain(pairs)
    ensures MatchOf(Flat(pairs)).op == Unknown
            <==> exists k :: 0 <= k < |pairs| && LastDecides(pairs, k) && !MatchName(pairs[k].0)
  {
    hide GetOperator;
    hide MatchOf;
    MatchOfPairs(pairs);
    FindLastDecider(pairs, |pairs|);
  }

  /** Whether a start tag opens the gate for what it encloses. None stands for the
      crash on a known key, with a value that is not empty, without an operator
      attribute. */
  function Passes(hw: Option<DmiInfo>, name: string, atts: seq<string>): Option<bool> {
    if name != "match" then Some(true)
    else
      var m := MatchOf(atts);
      var subject := GetMatchKey(hw, m.key);
      if subject == None then Some(true)
      else if subject.value == "" then Some(false)
      else if m.body == None then None
      else Some(Holds(subject.value, m.op, m.body.value))
  }

  /** Exactly which match elements crash the parser: those whose key has a value that
      is not empty, and in which no operator with a body is read. */
  lemma MatchCrashesIff(hw: Option<DmiInfo>, atts: seq<string>)
    ensures var subject := GetMatchKey(hw, MatchOf(atts).key);
            Passes(hw, "match", atts) == None
            <==> subject.Some? && subject.value != "" && forall i: nat :: i < |atts| ==> !BodyAt(atts, i)
  {
    hide GetMatchKey;
    hide Holds;
    hide MatchOf;
    hide BodyAt;
    hide LastKey;
    hide LastOperator;
    MatchOfReads(atts);
  }

  /** For names and values in turn: those that carry no operator at all. */
  lemma PairsCrashIff(hw: Option<DmiInfo>, pairs: seq<(string, string)>)
    requires Plain(pairs)
    ensures var subject := GetMatchKey(hw, MatchOf(Flat(pairs)).key);
            Passes(hw, "match", Flat(pairs)) == None
            <==> subject.Some? && subject.value != ""
                 && forall k :: 0 <= k < |pairs| ==> pairs[k].0 == "key" || !MatchName(pairs[k].0)
  {
    hide MatchName;
    hide GetMatchKey;
    hide Holds;
    hide ScanMatch;
    hide ScanPairs;
    var m0 := MatchAtts(None, String, None);
    ScanIsScanPairs(pairs, 0, m0);
    BodyInPairs(pairs, 0, m0);
  }

  /** A machine whose vendor is X and that says nothing else. */
  function Vendor(): Option<DmiInfo> {
    Some(DmiInfo(Some("X"), None, None, None, None, None))
  }

  /** A comment after the operator turns a match that fits into one that does not. */
  lemma CommentSpoilsMatch()
    ensures Passes(Vendor(), "match", ["key", "sys_vendor", "string", "X"]) == Some(true)
    ensures Passes(Vendor(), "match", ["key", "sys_vendor", "string", "X", "comment", "y"]) == Some(false)
  {
    var short, long := ["key", "sys_vendor", "string", "X"], ["key", "sys_vendor", "string", "X", "comment", "y"];
    assert ScanMatch(short, 2, MatchAtts(Some("sys_vendor"), String, None))
        == MatchAtts(Some("sys_vendor"), String, Some("X"));
    assert ScanMatch(long, 4, MatchAtts(Some("sys_vendor"), String, Some("X")))
        == MatchAtts(Some("sys_vendor"), Unknown, Some("X"));
  }

  function OptionOf(name: string, atts: seq<string>): Opt {
    if name == "option" then GetOption(ScanOption(atts, 0, None)) else OptNone
  }

  predicate SameIgnoringCase(s: string, t: string) {
    Lower(s) == Lower(t)
  }

  /** Text under an option: anything but true or false is ignored. */
  function Assign(o: Options, opt: Opt, text: string): Options {
    if SameIgnoringCase(text, "TRUE") || SameIgnoringCase(text, "FALSE") then
      var b := SameIgnoringCase(text, "TRUE");
      match opt
      case OptKeyControl => o.(keyControl := b)
      case OptMasterKey => o.(masterKey := b)
      case OptForceSync => o.(forceSync := b)
      case OptPersist => o.(persist := b)
      case OptNone => o
      case OptUnknown => o
    else o
  }

  // ---- the handlers -------------------------------------------------------

  datatype Parse = Parse(depth: int, bound: int, opt: Opt, options: Options)

  datatype Event = Start(name: string, atts: seq<string>) | End(name: string) | Text(text: string)

  function StartElement(hw: Option<DmiInfo>, p: Parse, name: string, atts: seq<string>): Option<Parse> {
    var p1 := p.(depth := p.depth + 1);
    if p1.depth > p1.bound then Some(p1)
    else
      var p2 := if p1.depth < p1.bound then p1.(bound := p1.depth + 1) else p1;
      match Passes(hw, name, atts)
      case None => None
      case Some(false) => Some(p2.(opt := OptNone))
      case Some(true) => Some(p2.(opt := OptionOf(name, atts), bound := p2.bound + 1))
  }

  function EndElement(p: Parse): Parse {
    Parse(p.depth - 1, if p.bound > p.depth then p.depth else p.bound, OptNone, p.options)
  }

  function Handle(hw: Option<DmiInfo>, p: Parse, e: Event): Option<Parse> {
    match e
    case Start(name, atts) => StartElement(hw, p, name, atts)
    case End(_) => Some(EndElement(p))
    case Text(text) => Some(p.(options := Assign(p.options, p.opt, text)))
  }

  function Run(hw: Option<DmiInfo>, p: Parse, evs: seq<Event>): Option<Parse>
    decreases |evs|
  {
    if evs == [] then Some(p)
    else
      match Handle(hw, p, evs[0])
      case None => None
      case Some(p1) => Run(hw, p1, evs[1..])
  }

  function Initial(o: Options): Parse {
    Parse(0, 1, OptNone, o)
  }

  /** The handlers as the parser calls them, on a state updated in place. */
  class ParseInfo {
    var xmlDepth: int
    var xmlBound: int
    var opt: Opt
    var options: Options
    const hardwareInfo: Option<DmiInfo>

    constructor (hw: Option<DmiInfo>, o: Options)
      ensures View() == Initial(o) && hardwareInfo == hw
    {
      xmlDepth, xmlBound, opt, options, hardwareInfo := 0, 1, OptNone, o, hw;
    }

    ghost function View(): Parse
      reads this
    {
      Parse(xmlDepth, xmlBound, opt, options)
    }

    /** One left-to-right pass over the attributes of a match element. */
    method ReadMatch(atts: seq<string>) returns (m: MatchAtts)
      ensures m == MatchOf(atts) && ReadsAs(atts, |atts|, m)
    {
      hide ReadsAs;
      MatchOfReads(atts);
      m := MatchAtts(None, String, None);
      var i := 0;
      while i < |atts|
        invariant 0 <= i && ScanMatch(atts, i, m) == MatchOf(atts)
      {
        if atts[i] == "key" {
          if i + 1 == |atts| {
            i := i + 1;
            continue;
          }
          m := m.(key := Some(atts[i + 1]));
          i := i + 1;
        } else {
          m := m.(op := GetOperator(atts[i]));
          if m.op != Unknown {
            if i + 1 == |atts| {
              i := i + 1;
              continue;
            }
            m := m.(body := Some(atts[i + 1]));
            i := i + 1;
          }
        }
        i := i + 1;
      }
    }

    method ReadOption(atts: seq<string>) returns (key: Option<string>)
      ensures key == ScanOption(atts, 0, None) && LastKey(OptionName, atts, |atts|, key)
    {
      hide LastKey;
      OptionReads(atts);
      key := None;
      var i := 0;
      while i < |atts|
        invariant 0 <= i && ScanOption(atts, i, key) == ScanOption(atts, 0, None)
      {
        if atts[i] == "key" {
          if i + 1 == |atts| {
            i := i + 1;
            continue;
          }
          key := Some(atts[i + 1]);
          i := i + 1;
        } else if atts[i] == "type" {
          if i + 1 == |atts| {
            i := i + 1;
            continue;
          }
          i := i + 1;
        }
        i := i + 1;
      }
    }

    method Start(name: string, atts: seq<string>)
      requires StartElement(hardwareInfo, View(), name, atts).Some?
      modifies this
      ensures Some(View()) == StartElement(hardwareInfo, old(View()), name, atts)
    {
      hide Holds;
      hide GetMatchKey;
      hide GetOption;
      hide MatchOf;
      hide ScanOption;
      hide ReadsAs;
      hide LastKey;
      xmlDepth := xmlDepth + 1;
      if xmlDepth > xmlBound {
        return;
      } else if xmlDepth < xmlBound {
        xmlBound := xmlDepth + 1;
      }
      opt := OptNone;
      if name == "match" {
        var m := ReadMatch(atts);
        var matchKey := GetMatchKey(hardwareInfo, m.key);
        if matchKey.Some? {
          var fits := MatchRule(matchKey.value, m.op, m.body);
          if !fits {
            return;
          }
        }
      } else if name == "option" {
        var key := ReadOption(atts);
        opt := GetOption(key);
      }
      xmlBound := xmlBound + 1;
    }

    method End()
      modifies this
      ensures View() == EndElement(old(View()))
    {
      if xmlBound > xmlDepth {
        xmlBound := xmlDepth;
      }
      opt := OptNone;
      xmlDepth := xmlDepth - 1;
    }

    method CData(text: string)
      modifies this
      ensures View() == old(View()).(options := Assign(old(options), old(opt), text))
    {
      if opt == OptNone || opt == OptUnknown {
        return;
      }
      options := Assign(options, opt, text);
    }

    /** The parser feeding a whole stream to the handlers. */
    method Feed(evs: seq<Event>)
      requires Run(hardwareInfo, View(), evs).Some?
      modifies this
      ensures Some(View()) == Run(hardwareInfo, old(View()), evs)
    {
      ghost var goal := Run(hardwareInfo, View(), evs);
      for n := 0 to |evs|
        invariant Run(hardwareInfo, View(), evs[n..]) == goal
      {
        assert evs[n..][0] == evs[n] && evs[n..][1..] == evs[n + 1..];
        match evs[n]
        case Start(name, atts) => Start(name, atts);
        case End(_) => End();
        case Text(text) => CData(text);
      }
    }
  }

  // ---- the reference: a recursive evaluator -------------------------------

  datatype Node = Element(name: string, atts: seq<string>, children: seq<Node>) | Chars(text: string)

  function EventsOf(n: Node): seq<Event>
    decreases n, 0
  {
    match n
    case Chars(text) => [Text(text)]
    case Element(name, atts, children) => [Start(name, atts)] + EventsOfAll(children) + [End(name)]
  }

  function EventsOfAll(ns: seq<Node>): seq<Event>
    decreases ns, 1
  {
    if ns == [] then [] else EventsOf(ns[0]) + EventsOfAll(ns[1..])
  }

  /** An element applies only if it passes; what fails hides everything inside. */
  function Eval(hw: Option<DmiInfo>, n: Node, o: Options): Option<Options>
    requires n.Element?
    decreases n, 0
  {
    match Passes(hw, n.name, n.atts)
    case None => None
    case Some(false) => Some(o)
    case Some(true) => EvalAll(hw, n.children, OptionOf(n.name, n.atts), o)
  }

  /** Text counts for the enclosing option only up to the first child element. */
  function EvalAll(hw: Option<DmiInfo>, ns: seq<Node>, current: Opt, o: Options): Option<Options>
    decreases ns, 1
  {
    if ns == [] then Some(o)
    else if ns[0].Chars? then EvalAll(hw, ns[1..], current, Assign(o, current, ns[0].text))
    else
      match Eval(hw, ns[0], o)
      case None => None
      case Some(o1) => EvalAll(hw, ns[1..], OptNone, o1)
  }

  lemma {:induction false} RunConcat(hw: Option<DmiInfo>, p: Parse, a: seq<Event>, b: seq<Event>)
    ensures Run(hw, p, a + b) == match Run(hw, p, a) case None => None case Some(p1) => Run(hw, p1, b)
    decreases |a|
  {
    if a == [] {
      assert a + b == b;
    } else {
      assert (a + b)[0] == a[0] && (a + b)[1..] == a[1..] + b;
      if Handle(hw, p, a[0]).Some? {
        RunConcat(hw, Handle(hw, p, a[0]).value, a[1..], b);
      }
    }
  }

  lemma RunElementSplit(hw: Option<DmiInfo>, p: Parse, n: Node)
    requires n.Element?
    ensures Run(hw, p, EventsOf(n)) ==
            match StartElement(hw, p, n.name, n.atts)
            case None => None
            case Some(p1) =>
              match Run(hw, p1, EventsOfAll(n.children))
              case None => None
              case Some(p2) => Some(EndElement(p2))
  {
    var inner, last := EventsOfAll(n.children), [End(n.name)];
    assert EventsOf(n) == [Start(n.name, n.atts)] + (inner + last);
    RunConcat(hw, p, [Start(n.name, n.atts)], inner + last);
    RunOne(hw, p, Start(n.name, n.atts));
    if StartElement(hw, p, n.name, n.atts).Some? {
      var p1 := StartElement(hw, p, n.name, n.atts).value;
      RunConcat(hw, p1, inner, last);
      if Run(hw, p1, inner).Some? {
        RunOne(hw, Run(hw, p1, inner).value, End(n.name));
      }
    }
  }

  lemma RunOne(hw: Option<DmiInfo>, p: Parse, e: Event)
    ensures Run(hw, p, [e]) == Handle(hw, p, e)
  {
    assert [e][1..] == [];
  }

  /** Behind a closed gate nothing is evaluated and nothing is left behind. */
  lemma {:induction false} ClosedGate(hw: Option<DmiInfo>, p: Parse, n: Node)
    requires p.depth >= p.bound && p.opt == OptNone
    ensures Run(hw, p, EventsOf(n)) == Some(p)
    decreases n, 0
  {
    match n {
      case Chars(text) => RunOne(hw, p, Text(text));
      case Element(name, atts, children) =>
        RunElementSplit(hw, p, n);
        ClosedGateAll(hw, p.(depth := p.depth + 1), children);
    }
  }

  lemma {:induction false} ClosedGateAll(hw: Option<DmiInfo>, p: Parse, ns: seq<Node>)
    requires p.depth >= p.bound && p.opt == OptNone
    ensures Run(hw, p, EventsOfAll(ns)) == Some(p)
    decreases ns, 1
  {
    if ns != [] {
      ClosedGate(hw, p, ns[0]);
      ClosedGateAll(hw, p, ns[1..]);
      RunConcat(hw, p, EventsOf(ns[0]), EventsOfAll(ns[1..]));
    }
  }

  /** Through an open gate a whole element restores both counters, clears the
      option and changes the options as the evaluator does. */
  lemma {:induction false} OpenGate(hw: Option<DmiInfo>, p: Parse, n: Node)
    requires n.Element? && p.bound == p.depth + 1
    ensures Run(hw, p, EventsOf(n)) ==
            match Eval(hw, n, p.options) case None => None case Some(o) => Some(p.(opt := OptNone, options := o))
    decreases n, 0
  {
    RunElementSplit(hw, p, n);
    match Passes(hw, n.name, n.atts) {
      case None =>
      case Some(false) => ClosedGateAll(hw, p.(depth := p.depth + 1, opt := OptNone), n.children);
      case Some(true) =>
        var p1 := Parse(p.depth + 1, p.bound + 1, OptionOf(n.name, n.atts), p.options);
        assert StartElement(hw, p, n.name, n.atts) == Some(p1);
        var _ := OpenGateAll(hw, p1, n.children);
    }
  }

  lemma {:induction false} OpenGateAll(hw: Option<DmiInfo>, p: Parse, ns: seq<Node>) returns (last: Opt)
    requires p.bound == p.depth + 1
    ensures match EvalAll(hw, ns, p.opt, p.options)
            case None => Run(hw, p, EventsOfAll(ns)) == None
            case Some(o) => Run(hw, p, EventsOfAll(ns)) == Some(p.(opt := last, options := o))
    decreases ns, 1
  {
    if ns == [] {
      last := p.opt;
    } else {
      RunConcat(hw, p, EventsOf(ns[0]), EventsOfAll(ns[1..]));
      if ns[0].Chars? {
        var p1 := p.(options := Assign(p.options, p.opt, ns[0].text));
        RunOne(hw, p, Text(ns[0].text));
        last := OpenGateAll(hw, p1, ns[1..]);
      } else {
        OpenGate(hw, p, ns[0]);
        last := OptNone;
        if Eval(hw, ns[0], p.options).Some? {
          last := OpenGateAll(hw, p.(opt := OptNone, options := Eval(hw, ns[0], p.options).value), ns[1..]);
        }
      }
    }
  }

  /** The handlers over the events of any document give the evaluator's options,
      and crash exactly where the evaluator reaches a match it cannot decide. */
  lemma ParserIsEvaluator(hw: Option<DmiInfo>, root: Node, o: Options)
    requires root.Element?
    ensures match Eval(hw, root, o)
            case None => Run(hw, Initial(o), EventsOf(root)) == None
            case Some(o1) => Run(hw, Initial(o), EventsOf(root)) == Some(Initial(o1))
  {
    OpenGate(hw, Initial(o), root);
  }

  // ---- what single elements mean ------------------------------------------

  /** TRUE, letter by letter in any case. */
  predicate ReadsTrue(text: string) {
    |text| == 4 && text[0] in "tT" && text[1] in "rR" && text[2] in "uU" && text[3] in "eE"
  }

  predicate ReadsFalse(text: string) {
    |text| == 5 && text[0] in "fF" && text[1] in "aA" && text[2] in "lL" && text[3] in "sS" && text[4] in "eE"
  }

  lemma CasesOfLetters(c: char)
    ensures CaseEqual(c, 'T') <==> c in "tT"
    ensures CaseEqual(c, 'R') <==> c in "rR"
    ensures CaseEqual(c, 'U') <==> c in "uU"
    ensures CaseEqual(c, 'E') <==> c in "eE"
    ensures CaseEqual(c, 'F') <==> c in "fF"
    ensures CaseEqual(c, 'A') <==> c in "aA"
    ensures CaseEqual(c, 'L') <==> c in "lL"
    ensures CaseEqual(c, 'S') <==> c in "sS"
  {
  }

  lemma BooleanTexts(text: string)
    ensures SameIgnoringCase(text, "TRUE") <==> ReadsTrue(text)
    ensures SameIgnoringCase(text, "FALSE") <==> ReadsFalse(text)
  {
    hide CaseEqual;
    hide Lower;
    LowerIsSameButCase(text, "TRUE");
    LowerIsSameButCase(text, "FALSE");
    forall i | 0 <= i < |text|
      ensures CaseEqual(text[i], 'T') <==> text[i] in "tT"
      ensures CaseEqual(text[i], 'R') <==> text[i] in "rR"
      ensures CaseEqual(text[i], 'U') <==> text[i] in "uU"
      ensures CaseEqual(text[i], 'E') <==> text[i] in "eE"
      ensures CaseEqual(text[i], 'F') <==> text[i] in "fF"
      ensures CaseEqual(text[i], 'A') <==> text[i] in "aA"
      ensures CaseEqual(text[i], 'L') <==> text[i] in "lL"
      ensures CaseEqual(text[i], 'S') <==> text[i] in "sS"
    {
      CasesOfLetters(text[i]);
    }
    if |text| == 4 {
      assert SameButCase(text, "TRUE") <==> CaseEqual(text[0], "TRUE"[0]) && CaseEqual(text[1], "TRUE"[1])
                                            && CaseEqual(text[2], "TRUE"[2]) && CaseEqual(text[3], "TRUE"[3]);
    }
    if |text| == 5 {
      assert SameButCase(text, "FALSE") <==> CaseEqual(text[0], "FALSE"[0]) && CaseEqual(text[1], "FALSE"[1])
                                             && CaseEqual(text[2], "FALSE"[2]) && CaseEqual(text[3], "FALSE"[3])
                                             && CaseEqual(text[4], "FALSE"[4]);
    }
  }

  lemma LastKeyIs(known: string -> bool, atts: seq<string>, n: nat, a: Option<string>, b: Option<string>)
    requires LastKey(known, atts, n, a) && LastKey(known, atts, n, b)
    ensures a == b
  {
    hide ReadName;
  }

  /** An option element with a single text: TRUE or FALSE, in any case, sets exactly
      the option that its key names; any other text, and any other key, sets none. */
  lemma OptionText(hw: Option<DmiInfo>, atts: seq<string>, key: Option<string>, text: string, o: Options)
    requires LastKey(OptionName, atts, |atts|, key)
    ensures Eval(hw, Element("option", atts, [Chars(text)]), o) ==
            if !ReadsTrue(text) && !ReadsFalse(text) then Some(o)
            else if key == Some("key_control") then Some(Options(ReadsTrue(text), o.masterKey, o.forceSync, o.persist))
            else if key == Some("master_key") then Some(Options(o.keyControl, ReadsTrue(text), o.forceSync, o.persist))
            else if key == Some("force_sync") then Some(Options(o.keyControl, o.masterKey, ReadsTrue(text), o.persist))
            else if key == Some("persist") then Some(Options(o.keyControl, o.masterKey, o.forceSync, ReadsTrue(text)))
            else Some(o)
  {
    hide SameIgnoringCase;
    hide ReadsTrue;
    hide ReadsFalse;
    hide ScanOption;
    hide LastKey;
    OptionReads(atts);
    LastKeyIs(OptionName, atts, |atts|, key, ScanOption(atts, 0, None));
    BooleanTexts(text);
    TrueIsNotFalse(text);
    OnlyText(hw, "option", atts, text, o);
  }

  lemma TrueIsNotFalse(text: string)
    ensures !(ReadsTrue(text) && ReadsFalse(text))
  {
  }

  lemma OnlyText(hw: Option<DmiInfo>, name: string, atts: seq<string>, text: string, o: Options)
    requires Passes(hw, name, atts) == Some(true)
    ensures Eval(hw, Element(name, atts, [Chars(text)]), o) == Some(Assign(o, OptionOf(name, atts), text))
  {
    hide Passes;
    hide Assign;
    hide OptionOf;
    var ns := [Chars(text)];
    assert ns[1..] == [];
    var opt := OptionOf(name, atts);
    assert EvalAll(hw, ns, opt, o) == EvalAll(hw, ns[1..], opt, Assign(o, opt, text));
  }

  /** Text in any other element changes nothing. */
  lemma TextElsewhere(hw: Option<DmiInfo>, name: string, atts: seq<string>, text: string, o: Options)
    requires name != "option" && Passes(hw, name, atts).Some?
    ensures Eval(hw, Element(name, atts, [Chars(text)]), o) == Some(o)
  {
    hide Passes;
    if Passes(hw, name, atts) == Some(true) {
      OnlyText(hw, name, atts, text, o);
    }
  }

  /** An element counts for the one inside it only as a match, and only if it fails. */
  lemma ElementAround(hw: Option<DmiInfo>, name: string, atts: seq<string>, inner: Node, o: Options)
    requires inner.Element?
    ensures var r := Eval(hw, Element(name, atts, [inner]), o);
            && (name != "match" ==> r == Eval(hw, inner, o))
            && (name == "match" && Passes(hw, name, atts) == Some(true) ==> r == Eval(hw, inner, o))
            && (name == "match" && Passes(hw, name, atts) == Some(false) ==> r == Some(o))
  {
    hide Passes;
    var ns, opt := [inner], OptionOf(name, atts);
    assert ns[1..] == [];
    if Eval(hw, inner, o).Some? {
      assert EvalAll(hw, ns[1..], OptNone, Eval(hw, inner, o).value) == Eval(hw, inner, o);
    }
    assert EvalAll(hw, ns, opt, o) == Eval(hw, inner, o);
    OnlyMatchesAreAsked(hw, name, atts);
  }

  lemma OnlyMatchesAreAsked(hw: Option<DmiInfo>, name: string, atts: seq<string>)
    ensures name != "match" ==> Passes(hw, name, atts) == Some(true)
  {}

  lemma KeyAndOperator(name: string, opName: string, body: string)
    requires opName != "key" && GetOperator(opName) != Unknown
    ensures MatchOf(["key", name, opName, body]) == MatchAtts(Some(name), GetOperator(opName), Some(body))
  {
    hide GetOperator;
    var atts := ["key", name, opName, body];
    assert ScanMatch(atts, 2, MatchAtts(Some(name), String, None))
        == MatchAtts(Some(name), GetOperator(opName), Some(body));
  }

  /** A piece of hardware information that is not known fits everything. */
  predicate Fits(field: Option<string>, value: string) {
    field == None || (field.value != "" && field.value == value)
  }

  /** Each key of a match asks for its own piece of hardware information; other keys,
      and all keys of an unknown machine, let everything pass. */
  lemma MatchKeys(h: DmiInfo, key: string, value: string)
    ensures Passes(None, "match", ["key", key, "string", value]) == Some(true)
    ensures Passes(Some(h), "match", ["key", key, "string", value]) ==
            if key == "sys_vendor" then Some(Fits(h.sysVendor, value))
            else if key == "bios_date" then Some(Fits(h.biosDate, value))
            else if key == "bios_vendor" then Some(Fits(h.biosVendor, value))
            else if key == "bios_version" then Some(Fits(h.biosVersion, value))
            else if key == "product_name" then Some(Fits(h.productName, value))
            else if key == "product_version" then Some(Fits(h.productVersion, value))
            else Some(true)
  {
    hide MatchOf;
    assert GetOperator("string") == String;
    KeyAndOperator(key, "string", value);
  }

  predicate PassesAs(h: DmiInfo, subject: string, opName: string, op: Operator, body: string) {
    Passes(Some(h), "match", ["key", "sys_vendor", opName, body]) == Some(Holds(subject, op, body))
  }

  /** Each operator attribute applies its own rule. */
  lemma MatchOperatorNames(h: DmiInfo, subject: string, body: string)
    requires h.sysVendor == Some(subject) && subject != ""
    ensures PassesAs(h, subject, "string", String, body) && PassesAs(h, subject, "string_outof", StringOutof, body)
    ensures PassesAs(h, subject, "contains", Contains, body)
    ensures PassesAs(h, subject, "contains_outof", ContainsOutof, body)
    ensures PassesAs(h, subject, "contains_ncase", ContainsNcase, body)
    ensures PassesAs(h, subject, "contains_not", ContainsNot, body)
    ensures PassesAs(h, subject, "prefix", Prefix, body) && PassesAs(h, subject, "prefix_outof", PrefixOutof, body)
    ensures PassesAs(h, subject, "prefix_ncase", PrefixNcase, body)
    ensures PassesAs(h, subject, "suffix", Suffix, body) && PassesAs(h, subject, "suffix_outof", SuffixOutof, body)
    ensures PassesAs(h, subject, "suffix_ncase", SuffixNcase, body)
  {
    hide PassesAs;
    OneOperatorName(h, subject, "string", String, body);
    OneOperatorName(h, subject, "string_outof", StringOutof, body);
    OneOperatorName(h, subject, "contains", Contains, body);
    OneOperatorName(h, subject, "contains_ncase", ContainsNcase, body);
    OneOperatorName(h, subject, "contains_not", ContainsNot, body);
    OneOperatorName(h, subject, "contains_outof", ContainsOutof, body);
    OneOperatorName(h, subject, "prefix", Prefix, body);
    OneOperatorName(h, subject, "prefix_ncase", PrefixNcase, body);
    OneOperatorName(h, subject, "prefix_outof", PrefixOutof, body);
    OneOperatorName(h, subject, "suffix", Suffix, body);
    OneOperatorName(h, subject, "suffix_ncase", SuffixNcase, body);
    OneOperatorName(h, subject, "suffix_outof", SuffixOutof, body);
  }

  lemma OneOperatorName(h: DmiInfo, subject: string, opName: string, op: Operator, body: string)
    requires h.sysVendor == Some(subject) && subject != ""
    requires opName != "key" && GetOperator(opName) == op != Unknown
    ensures PassesAs(h, subject, opName, op, body)
  {
    hide MatchOf;
    hide Holds;
    hide GetOperator;
    KeyAndOperator("sys_vendor", opName, body);
  }

  /** Some match that the evaluator reaches cannot be decided. */
  predicate Stuck(hw: Option<DmiInfo>, n: Node) {
    n.Element? &&
    match Passes(hw, n.name, n.atts)
    case None => true
    case Some(false) => false
    case Some(true) => exists c :: c in n.children && Stuck(hw, c)
  }

  /** The evaluator has no answer exactly on such documents, whatever the options. */
  lemma {:induction false} EvalFailsIff(hw: Option<DmiInfo>, n: Node, o: Options)
    requires n.Element?
    ensures Eval(hw, n, o) == None <==> Stuck(hw, n)
    decreases n, 0
  {
    if Passes(hw, n.name, n.atts) == Some(true) {
      EvalAllFailsIff(hw, n.children, OptionOf(n.name, n.atts), o);
    }
  }

  lemma {:induction false} EvalAllFailsIff(hw: Option<DmiInfo>, ns: seq<Node>, current: Opt, o: Options)
    ensures EvalAll(hw, ns, current, o) == None <==> exists c :: c in ns && Stuck(hw, c)
    decreases ns, 1
  {
    if ns != [] {
      assert ns == [ns[0]] + ns[1..];
      if ns[0].Chars? {
        EvalAllFailsIff(hw, ns[1..], current, Assign(o, current, ns[0].text));
      } else {
        EvalFailsIff(hw, ns[0], o);
        if Eval(hw, ns[0], o).Some? {
          EvalAllFailsIff(hw, ns[1..], OptNone, Eval(hw, ns[0], o).value);
        }
      }
    }
  }

  /** A document that crashes the parser: one match with a key and no operator. */
  lemma MatchWithoutOperatorCrashes(o: Options)
    ensures var root := Element("match", ["key", "sys_vendor"], []);
            Stuck(Vendor(), root) && Run(Vendor(), Initial(o), EventsOf(root)) == None
  {
    var root := Element("match", ["key", "sys_vendor"], []);
    assert MatchOf(root.atts) == MatchAtts(Some("sys_vendor"), String, None);
    assert Passes(Vendor(), root.name, root.atts) == None;
    EvalFailsIff(Vendor(), root, o);
    ParserIsEvaluator(Vendor(), root, o);
  }

  // ---- the gate on every prefix -------------------------------------------

  /** Nesting after a stream that never closes more than it has opened. */
  function Nesting(evs: seq<Event>): int {
    if evs == [] then 0
    else
      var e := evs[|evs| - 1];
      Nesting(evs[..|evs| - 1]) + match e case Start(_, _) => 1 case End(_) => -1 case Text(_) => 0
  }

  ghost predicate NestedPrefix(evs: seq<Event>) {
    forall n :: 0 <= n <= |evs| ==> Nesting(evs[..n]) >= 0
  }

  /** The reference stack: for each open element whether it let the gate open.
      Elements behind a closed gate are never asked and count as open. */
  function Verdicts(hw: Option<DmiInfo>, evs: seq<Event>): seq<bool> {
    if evs == [] then []
    else
      var stack := Verdicts(hw, evs[..|evs| - 1]);
      match evs[|evs| - 1]
      case Text(_) => stack
      case End(_) => if stack == [] then [] else stack[..|stack| - 1]
      case Start(name, atts) => stack + [false in stack || Passes(hw, name, atts) != Some(false)]
  }

  /** The depth of the outermost open failed match, or one more than the depth. */
  function Bound(stack: seq<bool>): nat {
    if stack == [] then 1
    else if false in stack[..|stack| - 1] then Bound(stack[..|stack| - 1])
    else if stack[|stack| - 1] then |stack| + 1 else |stack|
  }

  lemma {:induction false} BoundMeaning(stack: seq<bool>)
    ensures if false in stack
            then 1 <= Bound(stack) <= |stack| && !stack[Bound(stack) - 1] && false !in stack[..Bound(stack) - 1]
            else Bound(stack) == |stack| + 1
  {
    if stack != [] {
      var init := stack[..|stack| - 1];
      assert stack == init + [stack[|stack| - 1]];
      BoundMeaning(init);
      if false in init {
        assert init[..Bound(init) - 1] == stack[..Bound(init) - 1];
      }
    }
  }

  /** On every prefix: the depth counts the open elements, the bound is the depth of
      the outermost open failed match or depth + 1, and an option is current only
      while the gate is open. */
  lemma {:induction false} GateInvariant(hw: Option<DmiInfo>, o: Options, evs: seq<Event>)
    requires NestedPrefix(evs) && Run(hw, Initial(o), evs).Some?
    ensures var p, stack := Run(hw, Initial(o), evs).value, Verdicts(hw, evs);
            && p.depth == |stack| == Nesting(evs)
            && p.bound == Bound(stack)
            && (p.opt != OptNone ==> false !in stack)
  {
    hide Passes;
    hide Handle;
    hide Bound;
    if evs != [] {
      var init, e := evs[..|evs| - 1], evs[|evs| - 1];
      assert evs == init + [e];
      RunConcat(hw, Initial(o), init, [e]);
      assert Run(hw, Initial(o), init).Some?;
      var p0, stack0 := Run(hw, Initial(o), init).value, Verdicts(hw, init);
      RunOne(hw, p0, e);
      assert forall n :: 0 <= n <= |init| ==> init[..n] == evs[..n];
      GateInvariant(hw, o, init);
      assert evs[..|evs|] == evs;
      GateStep(hw, p0, stack0, e);
    } else {
      BoundMeaning([]);
    }
  }

  lemma GateStep(hw: Option<DmiInfo>, p: Parse, stack: seq<bool>, e: Event)
    requires p.depth == |stack| && p.bound == Bound(stack) && (p.opt != OptNone ==> false !in stack)
    requires (e.End? ==> stack != []) && Handle(hw, p, e).Some?
    ensures var p1 := Handle(hw, p, e).value;
            var stack1 := match e
                          case Text(_) => stack
                          case End(_) => stack[..|stack| - 1]
                          case Start(name, atts) => stack + [false in stack || Passes(hw, name, atts) != Some(false)];
            p1.depth == |stack1| && p1.bound == Bound(stack1) && (p1.opt != OptNone ==> false !in stack1)
  {
    BoundMeaning(stack);
    match e {
      case Text(_) =>
      case End(_) =>
        var init := stack[..|stack| - 1];
        assert stack == init + [stack[|stack| - 1]];
        BoundMeaning(init);
      case Start(name, atts) =>
        var b := false in stack || Passes(hw, name, atts) != Some(false);
        assert (stack + [b])[..|stack|] == stack;
    }
  }

  /** Some start tag in the stream is reached through an open gate and cannot be decided. */
  ghost predicate StuckStream(hw: Option<DmiInfo>, evs: seq<Event>) {
    exists n :: 0 <= n < |evs| && StuckAt(hw, evs, n)
  }

  predicate StuckAt(hw: Option<DmiInfo>, evs: seq<Event>, n: nat)
    requires n < |evs|
  {
    && evs[n].Start? && false !in Verdicts(hw, evs[..n])
    && Passes(hw, evs[n].name, evs[n].atts) == None
  }

  lemma StuckOneMore(hw: Option<DmiInfo>, init: seq<Event>, e: Event)
    ensures StuckStream(hw, init + [e]) <==> StuckStream(hw, init) || StuckAt(hw, init + [e], |init|)
  {
    var evs := init + [e];
    assert forall n :: 0 <= n <= |init| ==> evs[..n] == init[..n];
    assert forall n :: 0 <= n < |init| ==> StuckAt(hw, evs, n) == StuckAt(hw, init, n);
  }

  /** The same for streams that stop anywhere: exactly when the handlers crash. */
  lemma {:induction false} RunFailsIff(hw: Option<DmiInfo>, o: Options, evs: seq<Event>)
    requires NestedPrefix(evs)
    ensures Run(hw, Initial(o), evs) == None <==> StuckStream(hw, evs)
    decreases |evs|
  {
    if evs != [] {
      var init, e := evs[..|evs| - 1], evs[|evs| - 1];
      assert evs == init + [e];
      assert forall n :: 0 <= n <= |init| ==> init[..n] == evs[..n];
      RunFailsIff(hw, o, init);
      RunConcat(hw, Initial(o), init, [e]);
      StuckOneMore(hw, init, e);
      if Run(hw, Initial(o), init).Some? {
        RunOne(hw, Run(hw, Initial(o), init).value, e);
        GateInvariant(hw, o, init);
        BoundMeaning(Verdicts(hw, init));
      }
    }
  }

  /** The branch that would raise the bound again is never taken. */
  lemma NeverRebounds(hw: Option<DmiInfo>, o: Options, evs: seq<Event>)
    requires NestedPrefix(evs) && Run(hw, Initial(o), evs).Some?
    ensures var p := Run(hw, Initial(o), evs).value; !(p.depth + 1 < p.bound)
  {
    GateInvariant(hw, o, evs);
    BoundMeaning(Verdicts(hw, evs));
  }

  // ---- every prefix of a document is such a stream ------------------------

  lemma {:induction false} NestingConcat(a: seq<Event>, b: seq<Event>)
    ensures Nesting(a + b) == Nesting(a) + Nesting(b)
    decreases |b|
  {
    if b == [] {
      assert a + b == a;
    } else {
      assert (a + b)[..|a + b| - 1] == a + b[..|b| - 1];
      NestingConcat(a, b[..|b| - 1]);
    }
  }

  lemma NestedConcat(a: seq<Event>, b: seq<Event>)
    requires NestedPrefix(a) && NestedPrefix(b) && Nesting(a) == 0
    ensures NestedPrefix(a + b)
  {
    forall n | 0 <= n <= |a + b| ensures Nesting((a + b)[..n]) >= 0 {
      if n <= |a| {
        assert (a + b)[..n] == a[..n];
      } else {
        assert (a + b)[..n] == a + b[..n - |a|];
        NestingConcat(a, b[..n - |a|]);
      }
    }
  }

  lemma NestedWrap(inner: seq<Event>, name: string, atts: seq<string>)
    requires NestedPrefix(inner) && Nesting(inner) == 0
    ensures var evs := [Start(name, atts)] + inner + [End(name)]; NestedPrefix(evs) && Nesting(evs) == 0
  {
    var first, last := [Start(name, atts)], [End(name)];
    var evs := first + inner + last;
    assert first[..|first| - 1] == [] && last[..|last| - 1] == [];
    NestingConcat(first, inner);
    NestingConcat(first + inner, last);
    forall n | 0 <= n <= |evs| ensures Nesting(evs[..n]) >= 0 {
      if n == 0 {
        assert evs[..0] == [];
      } else if n <= |inner| + 1 {
        assert evs[..n] == first + inner[..n - 1];
        NestingConcat(first, inner[..n - 1]);
      } else {
        assert evs[..n] == evs;
      }
    }
  }

  lemma {:induction false} DocumentsNest(n: Node)
    ensures NestedPrefix(EventsOf(n)) && Nesting(EventsOf(n)) == 0
    decreases n, 0
  {
    match n {
      case Chars(text) =>
        assert [Text(text)][..0] == [] && [Text(text)][..1] == [Text(text)];
        assert Nesting([Text(text)]) == 0;
      case Element(name, atts, children) =>
        DocumentsNestAll(children);
        NestedWrap(EventsOfAll(children), name, atts);
    }
  }

  lemma {:induction false} DocumentsNestAll(ns: seq<Node>)
    ensures NestedPrefix(EventsOfAll(ns)) && Nesting(EventsOfAll(ns)) == 0
    decreases ns, 1
  {
    if ns != [] {
      DocumentsNest(ns[0]);
      DocumentsNestAll(ns[1..]);
      NestedConcat(EventsOf(ns[0]), EventsOfAll(ns[1..]));
      NestingConcat(EventsOf(ns[0]), EventsOfAll(ns[1..]));
    }
  }

  /** The gate invariant at every point of parsing any document. */
  lemma GateInsideDocuments(hw: Option<DmiInfo>, o: Options, root: Node, n: nat)
    requires root.Element? && n <= |EventsOf(root)| && Run(hw, Initial(o), EventsOf(root)[..n]).Some?
    ensures var p, stack := Run(hw, Initial(o), EventsOf(root)[..n]).value, Verdicts(hw, EventsOf(root)[..n]);
            && p.depth == |stack| && p.bound == Bound(stack) && (p.opt != OptNone ==> false !in stack)
            && p.bound <= p.depth + 1
  {
    var evs := EventsOf(root);
    DocumentsNest(root);
    forall m | 0 <= m <= n ensures Nesting(evs[..n][..m]) >= 0 {
      assert evs[..n][..m] == evs[..m];
    }
    GateInvariant(hw, o, evs[..n]);
    NeverRebounds(hw, o, evs[..n]);
  }
}
