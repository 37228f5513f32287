/** The string operators of a profile's match elements. */
module MatchOperators {
  import opened Rfkill

  datatype Operator =
    | String | StringOutof
    | Contains | ContainsNcase | ContainsNot | ContainsOutof
    | Prefix | PrefixNcase | PrefixOutof
    | Suffix | SuffixNcase | SuffixOutof
    | Unknown

  function GetOperator(name: string): Operator {
    if name == "string" then String
    else if name == "string_outof" then StringOutof
    else if name == "contains" then Contains
    else if name == "contains_ncase" then ContainsNcase
    else if name == "contains_not" then ContainsNot
    else if name == "contains_outof" then ContainsOutof
    else if name == "prefix" then Prefix
    else if name == "prefix_ncase" then PrefixNcase
    else if name == "prefix_outof" then PrefixOutof
    else if name == "suffix" then Suffix
    else if name == "suffix_ncase" then SuffixNcase
    else if name == "suffix_outof" then SuffixOutof
    else Unknown
  }

  predicate OccursAt(s: string, t: string, i: nat) {
    i + |t| <= |s| && s[i..i + |t|] == t
  }

  predicate Occurs(s: string, t: string) {
    exists i | 0 <= i <= |s| :: OccursAt(s, t, i)
  }

  predicate StartsWith(s: string, t: string) {
    |t| <= |s| && s[..|t|] == t
  }

  predicate EndsWith(s: string, t: string) {
    |t| <= |s| && s[|s| - |t|..] == t
  }

  function LowerChar(c: char): char {
    if 'A' <= c <= 'Z' then c + ('a' - 'A') else c
  }

  function Lower(s: string): (r: string)
    ensures |r| == |s|
  {
    if s == "" then "" else [LowerChar(s[0])] + Lower(s[1..])
  }

  lemma {:induction false} LowerAt(s: string, i: nat)
    requires i < |s|
    ensures Lower(s)[i] == LowerChar(s[i])
  {
    if i > 0 {
      LowerAt(s[1..], i - 1);
    }
  }

  /** What follows the first separator; the text before it is the first token. */
  function FirstSeparator(s: string, c: char): (n: nat)
    ensures n <= |s| && c !in s[..n] && (n < |s| ==> s[n] == c)
  {
    if s == "" || s[0] == c then 0
    else
      assert s == [s[0]] + s[1..];
      1 + FirstSeparator(s[1..], c)
  }

  function SplitNonEmpty(s: string, c: char): seq<string>
    decreases |s|
  {
    var n := FirstSeparator(s, c);
    if n == |s| then [s] else [s[..n]] + SplitNonEmpty(s[n + 1..], c)
  }

  /** The empty string has no tokens, as in g_strsplit. */
  function Split(s: string, c: char): seq<string> {
    if s == "" then [] else SplitNonEmpty(s, c)
  }

  function Join(ts: seq<string>, c: char): string {
    if ts == [] then "" else if |ts| == 1 then ts[0] else ts[0] + [c] + Join(ts[1..], c)
  }

  /** The rule of one operator on a subject and the body of the attribute. */
  predicate Holds(subject: string, op: Operator, body: string) {
    && subject != "" && body != ""
    && match op
       case String => subject == body
       case Contains => Occurs(subject, body)
       case ContainsNcase => Occurs(Lower(subject), Lower(body))
       case ContainsNot => !Occurs(subject, body)
       case Prefix => StartsWith(subject, body)
       case PrefixNcase => StartsWith(Lower(subject), Lower(body))
       case Suffix => EndsWith(subject, body)
       case SuffixNcase => EndsWith(Lower(subject), Lower(body))
       case StringOutof => subject in Split(body, ';')
       case ContainsOutof => exists t :: t in Split(body, ';') && t != "" && Occurs(subject, t)
       case PrefixOutof => exists t :: t in Split(body, ';') && t != "" && StartsWith(subject, t)
       case SuffixOutof => exists t :: t in Split(body, ';') && t != "" && EndsWith(subject, t)
       case Unknown => false
  }

  /** The token loops stop at the first token that fits. The body is looked at only
      when the subject is not empty. */
  method MatchRule(subject: string, op: Operator, maybeBody: Option<string>) returns (matched: bool)
    requires subject != "" ==> maybeBody.Some?
    ensures matched == (subject != "" && Holds(subject, op, maybeBody.value))
  {
    matched := false;
    if |subject| < 1 || |maybeBody.value| < 1 {
      return false;
    }
    var body := maybeBody.value;
    match op
    case String => matched := subject == body;
    case Contains => matched := Occurs(subject, body);
    case ContainsNcase => matched := Occurs(Lower(subject), Lower(body));
    case ContainsNot => matched := !Occurs(subject, body);
    case Prefix => matched := StartsWith(subject, body);
    case PrefixNcase => matched := StartsWith(Lower(subject), Lower(body));
    case Suffix => matched := EndsWith(subject, body);
    case SuffixNcase => matched := EndsWith(Lower(subject), Lower(body));
    case StringOutof =>
      var token := Split(body, ';');
      for i := 0 to |token|
        invariant subject !in token[..i]
      {
        if subject == token[i] {
          return true;
        }
      }
      assert token[..|token|] == token;
    case ContainsOutof =>
      var token := Split(body, ';');
      for i := 0 to |token|
        invariant forall j :: 0 <= j < i ==> token[j] == "" || !Occurs(subject, token[j])
      {
        if |token[i]| < 1 {
          continue;
        } else if Occurs(subject, token[i]) {
          return true;
        }
      }
    case PrefixOutof =>
      var token := Split(body, ';');
      for i := 0 to |token|
        invariant forall j :: 0 <= j < i ==> token[j] == "" || !StartsWith(subject, token[j])
      {
        if |token[i]| < 1 {
          continue;
        } else if StartsWith(subject, token[i]) {
          return true;
        }
      }
    case SuffixOutof =>
      var token := Split(body, ';');
      for i := 0 to |token|
        invariant forall j :: 0 <= j < i ==> token[j] == "" || !EndsWith(subject, token[j])
      {
        if |token[i]| < 1 {
          continue;
        } else if EndsWith(subject, token[i]) {
          return true;
        }
      }
    case Unknown =>
  }

  /** The operator that a *_outof operator applies to single tokens. */
  function Base(op: Operator): Operator {
    match op
    case StringOutof => String
    case ContainsOutof => Contains
    case PrefixOutof => Prefix
    case SuffixOutof => Suffix
    case _ => op
  }

  predicate IsOutof(op: Operator) {
    op == StringOutof || op == ContainsOutof || op == PrefixOutof || op == SuffixOutof
  }

  /** A stretch between separators or ends: what a token is, without splitting. */
  predicate TokenAt(s: string, c: char, i: nat, j: nat) {
    && i <= j <= |s| && (forall k :: i <= k < j ==> s[k] != c)
    && (i == 0 || s[i - 1] == c) && (j == |s| || s[j] == c)
  }

  ghost predicate HasToken(s: string, c: char, t: string) {
    exists i: nat, j: nat :: TokenAt(s, c, i, j) && s[i..j] == t
  }

  lemma FirstToken(s: string, c: char, i: nat, j: nat)
    requires TokenAt(s, c, i, j)
    ensures var n := FirstSeparator(s, c);
            TokenAt(s, c, 0, n) && (i <= n ==> i == 0 && j == n)
  {
    var n := FirstSeparator(s, c);
    forall k | 0 <= k < n ensures s[k] != c {
      assert s[..n][k] == s[k];
    }
  }

  lemma LaterToken(s: string, c: char, i: nat, j: nat)
    requires FirstSeparator(s, c) < i <= j <= |s|
    ensures var n := FirstSeparator(s, c);
            && TokenAt(s, c, i, j) == TokenAt(s[n + 1..], c, i - n - 1, j - n - 1)
            && s[i..j] == s[n + 1..][i - n - 1..j - n - 1]
  {
    ShiftedToken(s, c, FirstSeparator(s, c) + 1, i, j);
  }

  lemma ShiftedToken(s: string, c: char, m: nat, i: nat, j: nat)
    requires 0 < m <= i <= j <= |s| && s[m - 1] == c
    ensures TokenAt(s, c, i, j) == TokenAt(s[m..], c, i - m, j - m) && s[i..j] == s[m..][i - m..j - m]
  {
    var rest := s[m..];
    assert forall k :: m <= k < |s| ==> rest[k - m] == s[k];
    if TokenAt(rest, c, i - m, j - m) {
      forall k | i <= k < j ensures s[k] != c {
        assert rest[k - m] != c;
      }
    }
  }

  lemma TokenOfRest(s: string, c: char, i: nat, j: nat)
    requires FirstSeparator(s, c) < |s| && TokenAt(s, c, i, j)
    ensures s[i..j] == s[..FirstSeparator(s, c)] || HasToken(s[FirstSeparator(s, c) + 1..], c, s[i..j])
  {
    var n := FirstSeparator(s, c);
    var rest := s[n + 1..];
    FirstToken(s, c, i, j);
    if i > n {
      LaterToken(s, c, i, j);
      assert TokenAt(rest, c, i - n - 1, j - n - 1) && rest[i - n - 1..j - n - 1] == s[i..j];
    } else {
      assert s[0..n] == s[..n];
    }
  }

  lemma RestHasToken(s: string, c: char, i: nat, j: nat)
    requires FirstSeparator(s, c) < |s| && TokenAt(s[FirstSeparator(s, c) + 1..], c, i, j)
    ensures HasToken(s, c, s[FirstSeparator(s, c) + 1..][i..j])
  {
    var n := FirstSeparator(s, c);
    assert j <= |s[n + 1..]| == |s| - n - 1;
    LaterToken(s, c, i + n + 1, j + n + 1);
    assert TokenAt(s, c, i + n + 1, j + n + 1);
  }

  lemma NextToken(s: string, c: char, t: string)
    requires FirstSeparator(s, c) < |s|
    ensures var n := FirstSeparator(s, c); HasToken(s, c, t) <==> t == s[..n] || HasToken(s[n + 1..], c, t)
  {
    var n := FirstSeparator(s, c);
    var rest := s[n + 1..];
    assert TokenAt(s, c, 0, n) && s[0..n] == s[..n];
    if HasToken(s, c, t) {
      var i: nat, j: nat :| TokenAt(s, c, i, j) && s[i..j] == t;
      TokenOfRest(s, c, i, j);
    } else if HasToken(rest, c, t) {
      var i: nat, j: nat :| TokenAt(rest, c, i, j) && rest[i..j] == t;
      RestHasToken(s, c, i, j);
    }
  }

  /** Splitting finds exactly the stretches between separators. */
  lemma {:induction false} SplitFindsTokens(s: string, c: char, t: string)
    ensures t in SplitNonEmpty(s, c) <==> HasToken(s, c, t)
    decreases |s|
  {
    var n := FirstSeparator(s, c);
    if n < |s| {
      hide HasToken;
      NextToken(s, c, t);
      SplitFindsTokens(s[n + 1..], c, t);
    } else {
      assert TokenAt(s, c, 0, n) && s[0..n] == s;
      if i: nat, j: nat :| TokenAt(s, c, i, j) && s[i..j] == t {
        FirstToken(s, c, i, j);
      }
    }
  }

  lemma OutofIsSplitToken(subject: string, op: Operator, body: string)
    requires IsOutof(op)
    ensures Holds(subject, op, body) <==> exists t :: t in Split(body, ';') && t != "" && Holds(subject, Base(op), t)
  {
    if t :| t in Split(body, ';') && t != "" && Holds(subject, Base(op), t) {
      assert body != "";
    }
    if Holds(subject, op, body) && op == StringOutof {
      assert subject in Split(body, ';') && Holds(subject, String, subject);
    }
  }

  /** A *_outof operator holds if and only if its base operator holds for a nonempty
      stretch of the body between separators. */
  lemma OutofIsSomeToken(subject: string, op: Operator, body: string)
    requires IsOutof(op)
    ensures Holds(subject, op, body)
            <==> exists i: nat, j: nat :: TokenAt(body, ';', i, j) && i < j && Holds(subject, Base(op), body[i..j])
  {
    hide Holds;
    OutofIsSplitToken(subject, op, body);
    if t :| t in Split(body, ';') && t != "" && Holds(subject, Base(op), t) {
      SplitFindsTokens(body, ';', t);
    }
    if i: nat, j: nat :| TokenAt(body, ';', i, j) && i < j && Holds(subject, Base(op), body[i..j]) {
      SplitFindsTokens(body, ';', body[i..j]);
    }
  }

  /** Joining the tokens gives the body back, and no token holds a separator. */
  lemma {:induction false} SplitJoins(s: string, c: char)
    ensures Join(Split(s, c), c) == s
    ensures forall t :: t in Split(s, c) ==> c !in t
    decreases |s|
  {
    if s != "" {
      SplitNonEmptyJoins(s, c);
    }
  }

  lemma {:induction false} SplitNonEmptyJoins(s: string, c: char)
    ensures SplitNonEmpty(s, c) != [] && Join(SplitNonEmpty(s, c), c) == s
    ensures forall t :: t in SplitNonEmpty(s, c) ==> c !in t
    decreases |s|
  {
    var n := FirstSeparator(s, c);
    if n == |s| {
      assert s[..n] == s;
    } else {
      var rest := SplitNonEmpty(s[n + 1..], c);
      SplitNonEmptyJoins(s[n + 1..], c);
      assert ([s[..n]] + rest)[1..] == rest;
      assert s == s[..n] + [c] + s[n + 1..];
    }
  }

  /** Without a separator in the body there is nothing to choose between. */
  lemma NoSeparatorIsBase(subject: string, op: Operator, body: string)
    requires IsOutof(op) && ';' !in body
    ensures Holds(subject, op, body) == Holds(subject, Base(op), body)
  {
    if body != "" {
      assert FirstSeparator(body, ';') == |body|;
      assert Split(body, ';') == [body];
      assert body in Split(body, ';');
    }
  }

  /** How the operators relate to each other, on every subject and body. */
  lemma OperatorLaws(subject: string, body: string)
    ensures subject != "" && body != "" ==> (Holds(subject, ContainsNot, body) <==> !Holds(subject, Contains, body))
    ensures Holds(subject, Prefix, body) || Holds(subject, Suffix, body) ==> Holds(subject, Contains, body)
    ensures Holds(subject, PrefixNcase, body) || Holds(subject, SuffixNcase, body)
            ==> Holds(subject, ContainsNcase, body)
    ensures Holds(subject, Contains, body) ==> Holds(subject, ContainsNcase, body)
  {
    AtEndsOccurs(subject, body);
    AtEndsOccurs(Lower(subject), Lower(body));
    LowerOccurs(subject, body);
  }

  lemma LowerOccurs(s: string, t: string)
    ensures Occurs(s, t) ==> Occurs(Lower(s), Lower(t))
  {
    if i :| 0 <= i <= |s| && OccursAt(s, t, i) {
      forall j | 0 <= j < |t| ensures Lower(s)[i + j] == Lower(t)[j] {
        LowerAt(s, i + j);
        LowerAt(t, j);
        assert s[i + j] == s[i..i + |t|][j];
      }
      assert Lower(s)[i..i + |Lower(t)|] == Lower(t);
      assert OccursAt(Lower(s), Lower(t), i);
    }
  }

  lemma AtEndsOccurs(s: string, t: string)
    ensures StartsWith(s, t) || EndsWith(s, t) ==> Occurs(s, t)
  {
    if StartsWith(s, t) {
      assert OccursAt(s, t, 0);
    }
    if EndsWith(s, t) {
      assert OccursAt(s, t, |s| - |t|);
    }
  }

  // ---- what the operators mean, on plain strings --------------------------

  /** The same character, or the two cases of one ASCII letter. */
  predicate CaseEqual(c: char, d: char) {
    || c == d
    || ('A' <= c <= 'Z' && d as int == c as int + 32)
    || ('A' <= d <= 'Z' && c as int == d as int + 32)
  }

  predicate SameButCase(s: string, t: string) {
    |s| == |t| && forall i :: 0 <= i < |s| ==> CaseEqual(s[i], t[i])
  }

  lemma LowerIsSameButCase(s: string, t: string)
    ensures Lower(s) == Lower(t) <==> SameButCase(s, t)
  {
    assert forall c, d :: LowerChar(c) == LowerChar(d) <==> CaseEqual(c, d);
    if |s| == |t| {
      forall i | 0 <= i < |s| ensures Lower(s)[i] == Lower(t)[i] <==> CaseEqual(s[i], t[i]) {
        LowerAt(s, i);
        LowerAt(t, i);
      }
    }
  }

  lemma {:induction false} LowerOfSlice(s: string, i: nat, j: nat)
    requires i <= j <= |s|
    ensures Lower(s[i..j]) == Lower(s)[i..j]
    decreases j - i
  {
    hide LowerChar;
    if i < j {
      LowerOfSlice(s, i + 1, j);
      LowerAt(s, i);
      assert s[i..j] == [s[i]] + s[i + 1..j];
      assert Lower(s)[i..j] == [Lower(s)[i]] + Lower(s)[i + 1..j];
      assert s[i..j][1..] == s[i + 1..j];
    }
  }

  lemma StartsWithMeans(s: string, t: string)
    ensures StartsWith(s, t) <==> exists rest: string :: s == t + rest
  {
    if StartsWith(s, t) {
      assert s == t + s[|t|..];
    }
  }

  lemma EndsWithMeans(s: string, t: string)
    ensures EndsWith(s, t) <==> exists rest: string :: s == rest + t
  {
    if EndsWith(s, t) {
      assert s == s[..|s| - |t|] + t;
    }
  }

  lemma OccursMeans(s: string, t: string)
    ensures Occurs(s, t) <==> exists a: string, b: string :: s == a + t + b
  {
    if i :| 0 <= i <= |s| && OccursAt(s, t, i) {
      assert s == s[..i] + t + s[i + |t|..];
    }
    if a: string, b: string :| s == a + t + b {
      assert s[|a|..|a| + |t|] == t;
      assert OccursAt(s, t, |a|);
    }
  }

  /** The operators that mind the case; nothing fits an empty subject or body, and
      nothing fits an unknown operator. */
  lemma PlainOperators(subject: string, body: string)
    requires subject != "" && body != ""
    ensures Holds(subject, String, body) <==> subject == body
    ensures Holds(subject, Prefix, body) <==> exists rest: string :: subject == body + rest
    ensures Holds(subject, Suffix, body) <==> exists rest: string :: subject == rest + body
    ensures Holds(subject, Contains, body) <==> exists a: string, b: string :: subject == a + body + b
    ensures Holds(subject, ContainsNot, body) <==> !exists a: string, b: string :: subject == a + body + b
    ensures !Holds(subject, Unknown, body)
  {
    hide StartsWith;
    hide EndsWith;
    hide Occurs;
    StartsWithMeans(subject, body);
    EndsWithMeans(subject, body);
    OccursMeans(subject, body);
  }

  lemma EmptyNeverFits(subject: string, op: Operator, body: string)
    requires subject == "" || body == ""
    ensures !Holds(subject, op, body)
  {
  }

  /** A stretch of the subject that is the body but for the case of its letters. */
  predicate SameAt(subject: string, i: nat, j: nat, body: string) {
    i <= j <= |subject| && SameButCase(subject[i..j], body)
  }

  lemma SliceLower(subject: string, i: nat, j: nat, body: string)
    requires i <= j <= |subject|
    ensures SameAt(subject, i, j, body) <==> Lower(subject)[i..j] == Lower(body)
  {
    LowerOfSlice(subject, i, j);
    LowerIsSameButCase(subject[i..j], body);
  }

  lemma StartsWithNcase(subject: string, body: string)
    ensures StartsWith(Lower(subject), Lower(body)) <==> exists j: nat :: SameAt(subject, 0, j, body)
  {
    hide SameButCase;
    var s, t := Lower(subject), Lower(body);
    if StartsWith(s, t) {
      SliceLower(subject, 0, |t|, body);
      assert s[0..|t|] == s[..|t|];
    }
    if j: nat :| SameAt(subject, 0, j, body) {
      SliceLower(subject, 0, j, body);
      assert s[0..j] == s[..|t|];
    }
  }

  lemma SameAtEnds(subject: string, i: nat, j: nat, body: string)
    requires SameAt(subject, i, j, body)
    ensures i + |body| == j <= |subject|
  {}

  lemma TailIs(s: string, t: string)
    ensures EndsWith(s, t) <==> |t| <= |s| && s[|s| - |t|..|s|] == t
  {
    if |t| <= |s| {
      assert s[|s| - |t|..|s|] == s[|s| - |t|..];
    }
  }

  lemma TailIsSame(subject: string, body: string)
    requires |body| <= |subject|
    ensures EndsWith(Lower(subject), Lower(body)) <==> SameAt(subject, |subject| - |body|, |subject|, body)
  {
    hide SameAt;
    hide EndsWith;
    hide Lower;
    TailIs(Lower(subject), Lower(body));
    SliceLower(subject, |subject| - |body|, |subject|, body);
  }

  lemma EndsWithNcase(subject: string, body: string)
    ensures EndsWith(Lower(subject), Lower(body)) <==> exists i: nat :: SameAt(subject, i, |subject|, body)
  {
    hide SameAt;
    hide Lower;
    if |body| <= |subject| {
      TailIsSame(subject, body);
    }
    if i: nat :| SameAt(subject, i, |subject|, body) {
      SameAtEnds(subject, i, |subject|, body);
    }
  }

  lemma OccursNcase(subject: string, body: string)
    ensures Occurs(Lower(subject), Lower(body)) <==> exists i: nat, j: nat :: SameAt(subject, i, j, body)
  {
    hide SameButCase;
    var s, t := Lower(subject), Lower(body);
    if i: nat :| 0 <= i <= |s| && OccursAt(s, t, i) {
      SliceLower(subject, i, i + |t|, body);
    }
    if i: nat, j: nat :| SameAt(subject, i, j, body) {
      SliceLower(subject, i, j, body);
      assert |s[i..j]| == |t|;
      assert OccursAt(s, t, i);
    }
  }

  /** The operators that do not mind the case. */
  lemma NcaseOperators(subject: string, body: string)
    requires subject != "" && body != ""
    ensures Holds(subject, PrefixNcase, body) <==> exists j: nat :: SameAt(subject, 0, j, body)
    ensures Holds(subject, SuffixNcase, body) <==> exists i: nat :: SameAt(subject, i, |subject|, body)
    ensures Holds(subject, ContainsNcase, body) <==> exists i: nat, j: nat :: SameAt(subject, i, j, body)
  {
    hide SameAt;
    hide StartsWith;
    hide EndsWith;
    hide Occurs;
    StartsWithNcase(subject, body);
    EndsWithNcase(subject, body);
    OccursNcase(subject, body);
  }

  /** The operators over a list: some nonempty stretch between separators fits. */
  lemma OutofOperators(subject: string, body: string)
    requires subject != "" && body != ""
    ensures Holds(subject, StringOutof, body) <==>
            exists i: nat, j: nat :: TokenAt(body, ';', i, j) && i < j && subject == body[i..j]
    ensures Holds(subject, PrefixOutof, body) <==>
            exists i: nat, j: nat :: TokenAt(body, ';', i, j) && i < j && exists r: string :: subject == body[i..j] + r
    ensures Holds(subject, SuffixOutof, body) <==>
            exists i: nat, j: nat :: TokenAt(body, ';', i, j) && i < j && exists r: string :: subject == r + body[i..j]
    ensures Holds(subject, ContainsOutof, body) <==>
            exists i: nat, j: nat ::
              TokenAt(body, ';', i, j) && i < j && exists a: string, b: string :: subject == a + body[i..j] + b
  {
    hide Holds;
    OutofIsSomeToken(subject, StringOutof, body);
    OutofIsSomeToken(subject, PrefixOutof, body);
    OutofIsSomeToken(subject, SuffixOutof, body);
    OutofIsSomeToken(subject, ContainsOutof, body);
    forall i: nat, j: nat | TokenAt(body, ';', i, j) && i < j
      ensures Holds(subject, String, body[i..j]) <==> subject == body[i..j]
      ensures Holds(subject, Prefix, body[i..j]) <==> exists r: string :: subject == body[i..j] + r
      ensures Holds(subject, Suffix, body[i..j]) <==> exists r: string :: subject == r + body[i..j]
      ensures Holds(subject, Contains, body[i..j]) <==> exists a: string, b: string :: subject == a + body[i..j] + b
    {
      PlainOperators(subject, body[i..j]);
    }
  }
}
