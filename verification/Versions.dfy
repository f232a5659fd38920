/** Version comparison and the two decisions built on it (shared/contracts/versions.mjs). */
module Versions {
  import opened Common

  /** A version object: field name to version text. A missing field reads as "". */
  type VersionMap = map<string, string>

  function Field(v: VersionMap, field: string): string {
    if field in v then v[field] else ""
  }

  const COMPONENT_VERSION_FIELDS: seq<string> :=
    ["controlPlaneAgentVersion", "agentVersion", "contractsVersion", "protocolVersion", "schemaVersion"]

  // ---- digit groups of a version text ----

  predicate IsDigit(c: char) {
    '0' <= c <= '9'
  }

  /** Length of the run of digits that starts s. */
  function DigitRun(s: string): (n: nat)
    ensures n <= |s|
    ensures forall i :: 0 <= i < n ==> IsDigit(s[i])
    ensures n < |s| ==> !IsDigit(s[n])
  {
    if s == "" || !IsDigit(s[0]) then 0 else 1 + DigitRun(s[1..])
  }

  function Number(digits: string): nat
    requires forall c :: c in digits ==> IsDigit(c)
  {
    if digits == "" then 0
    else
      var last := digits[|digits| - 1];
      assert IsDigit(last);
      Number(digits[..|digits| - 1]) * 10 + (last as int - '0' as int)
  }

  /** The maximal runs of decimal digits in s, read as numbers. */
  function Groups(s: string): seq<nat>
    decreases |s|
  {
    if s == "" then []
    else if !IsDigit(s[0]) then Groups(s[1..])
    else
      var n := DigitRun(s);
      [Number(s[..n])] + Groups(s[n..])
  }

  // ---- the order ----

  /** Groups beyond the end of a version count as zero. */
  function Pad(g: seq<nat>, i: nat): nat {
    if i < |g| then g[i] else 0
  }

  predicate SamePrefix(a: seq<nat>, b: seq<nat>, n: nat) {
    forall j :: 0 <= j < n ==> Pad(a, j) == Pad(b, j)
  }

  /** Lexicographic order on zero-padded group sequences. */
  predicate LexLess(a: seq<nat>, b: seq<nat>) {
    exists i :: 0 <= i < Max(|a|, |b|) && SamePrefix(a, b, i) && Pad(a, i) < Pad(b, i)
  }

  /** What comparing two version texts must answer. */
  function Compare(actual: string, target: string): int {
    var a, b := Groups(actual), Groups(target);
    if b == [] then 0
    else if a == [] then -1
    else if LexLess(b, a) then 1
    else if LexLess(a, b) then -1
    else 0
  }

  method CompareVersions(actual: string, target: string) returns (r: int)
    ensures r == Compare(actual, target)
  {
    var a, b := Groups(actual), Groups(target);
    if |b| == 0 { return 0; }
    if |a| == 0 { return -1; }
    var len := Max(|a|, |b|);
    for i := 0 to len
      invariant SamePrefix(a, b, i)
    {
      var x := if i < |a| then a[i] else 0;
      var y := if i < |b| then b[i] else 0;
      if x > y {
        assert SamePrefix(b, a, i) && LexLess(b, a);
        return 1;
      }
      if x < y {
        assert LexLess(a, b) && !LexLess(b, a);
        return -1;
      }
    }
    return 0;
  }

  lemma LexTrichotomy(a: seq<nat>, b: seq<nat>)
    ensures !(LexLess(a, b) && LexLess(b, a))
    ensures !LexLess(a, b) && !LexLess(b, a) ==> forall i: nat :: Pad(a, i) == Pad(b, i)
  {
    if !LexLess(a, b) && !LexLess(b, a) {
      forall i: nat
        ensures Pad(a, i) == Pad(b, i)
      {
        SameEverywhere(a, b, i + 1);
      }
    }
  }

  lemma {:induction false} SameEverywhere(a: seq<nat>, b: seq<nat>, n: nat)
    requires !LexLess(a, b) && !LexLess(b, a)
    ensures SamePrefix(a, b, n)
  {
    if n > 0 {
      SameEverywhere(a, b, n - 1);
    }
  }

  /** Less-than cannot jump over a third version: b is above a or below c. */
  lemma LexSplits(a: seq<nat>, b: seq<nat>, c: seq<nat>)
    requires LexLess(a, c)
    ensures LexLess(a, b) || LexLess(b, c)
  {
    var i :| 0 <= i < Max(|a|, |c|) && SamePrefix(a, c, i) && Pad(a, i) < Pad(c, i);
    // the first place where b leaves the common prefix of a and c, at or before i
    var k := FirstDifference(a, b, c, i, 0);
    assert SamePrefix(a, b, k) && SamePrefix(b, c, k);
    if Pad(a, k) < Pad(b, k) {
      assert k < Max(|a|, |b|);
    } else {
      assert Pad(b, k) < Pad(c, k) && k < Max(|b|, |c|);
    }
  }

  lemma {:induction false} FirstDifference(a: seq<nat>, b: seq<nat>, c: seq<nat>, i: nat, from: nat)
    returns (k: nat)
    requires from <= i && SamePrefix(a, c, i) && Pad(a, i) < Pad(c, i)
    requires SamePrefix(a, b, from)
    ensures from <= k <= i && SamePrefix(a, b, k)
    ensures k < i ==> Pad(a, k) != Pad(b, k)
    decreases i - from
  {
    if from < i && Pad(a, from) == Pad(b, from) {
      k := FirstDifference(a, b, c, i, from + 1);
    } else {
      k := from;
    }
  }

  /** Comparing a version with itself answers 0. */
  lemma CompareReflexive(v: string)
    ensures Compare(v, v) == 0
  {
    LexTrichotomy(Groups(v), Groups(v));
  }

  /** Swapping the arguments negates the answer exactly when both texts, or neither, hold a digit. */
  lemma CompareAntisymmetric(v: string, w: string)
    ensures Compare(w, v) == -Compare(v, w) <==> (Groups(v) == [] <==> Groups(w) == [])
  {
    LexTrichotomy(Groups(v), Groups(w));
  }

  /** "At least" is transitive on all version texts, digits or not. */
  lemma CompareTransitive(v: string, w: string, x: string)
    requires Compare(v, w) >= 0 && Compare(w, x) >= 0
    ensures Compare(v, x) >= 0
  {
    var a, b, c := Groups(v), Groups(w), Groups(x);
    if b != [] && c != [] {
      LexTrichotomy(a, b);
      LexTrichotomy(b, c);
      LexTrichotomy(a, c);
      if LexLess(a, c) {
        LexSplits(a, b, c);
      }
    }
  }

  /** 0 means the same number at every position, so equal versions are interchangeable. */
  lemma CompareEqualMeans(v: string, w: string)
    requires Groups(v) != [] && Groups(w) != []
    ensures Compare(v, w) == 0 <==> forall i: nat :: Pad(Groups(v), i) == Pad(Groups(w), i)
  {
    LexTrichotomy(Groups(v), Groups(w));
  }

  // ---- minimums ----

  ghost predicate Meets(versions: VersionMap, minimums: seq<(string, string)>) {
    forall m :: m in minimums ==> Compare(Field(versions, m.0), m.1) >= 0
  }

  /** The minimums are the entries of an object, in order; every failing entry is reported. */
  method MeetsMinimums(versions: VersionMap, minimums: seq<(string, string)>)
    returns (ok: bool, failures: seq<(string, string)>)
    ensures ok <==> Meets(versions, minimums)
    ensures failures == Filter(minimums, (m: (string, string)) => Compare(Field(versions, m.0), m.1) < 0)
  {
    var failing := (m: (string, string)) => Compare(Field(versions, m.0), m.1) < 0;
    failures := [];
    for i := 0 to |minimums|
      invariant failures == Filter(minimums[..i], failing)
    {
      var c := CompareVersions(Field(versions, minimums[i].0), minimums[i].1);
      assert minimums[..i + 1][..i] == minimums[..i];
      if c < 0 {
        failures := failures + [minimums[i]];
      }
    }
    assert minimums[..|minimums|] == minimums;
    ok := |failures| == 0;
    FilterMembers(minimums, failing);
    if ok {
      forall m | m in minimums
        ensures Compare(Field(versions, m.0), m.1) >= 0
      {
        assert m !in failures;
      }
    } else {
      assert failures[0] in failures;
    }
  }

  /** Raising any field never loses a minimum. */
  lemma MeetsUpwardClosed(versions: VersionMap, newer: VersionMap, minimums: seq<(string, string)>)
    requires Meets(versions, minimums)
    requires forall m :: m in minimums ==> Compare(Field(newer, m.0), Field(versions, m.0)) >= 0
    ensures Meets(newer, minimums)
  {
    forall m | m in minimums
      ensures Compare(Field(newer, m.0), m.1) >= 0
    {
      CompareTransitive(Field(newer, m.0), Field(versions, m.0), m.1);
    }
  }

  /** The answer is one of three; a version without digits is older than every version with some. */
  lemma CompareAnswers(actual: string, target: string)
    ensures Compare(actual, target) in {-1, 0, 1}
    ensures Groups(actual) == [] != Groups(target) ==> Compare(actual, target) == -1
  {
  }

  // ---- versions as they are written ----

  function DigitOf(d: nat): char
    requires d < 10
  {
    "0123456789"[d]
  }

  /** A number in decimal. */
  function Decimal(n: nat): string {
    if n < 10 then [DigitOf(n)] else Decimal(n / 10) + [DigitOf(n % 10)]
  }

  /** Numbers in decimal with dots between. */
  function Dotted(g: seq<nat>): string {
    if g == [] then "" else if |g| == 1 then Decimal(g[0]) else Decimal(g[0]) + "." + Dotted(g[1..])
  }

  lemma NumberAdd(digits: string, d: nat)
    requires (forall c :: c in digits ==> IsDigit(c)) && d < 10
    ensures (forall c :: c in digits + [DigitOf(d)] ==> IsDigit(c)) && Number(digits + [DigitOf(d)]) == 10 * Number(digits) + d
  {
    assert (digits + [DigitOf(d)])[..|digits|] == digits;
  }

  lemma {:induction false} DecimalReads(n: nat)
    ensures Decimal(n) != "" && (forall c :: c in Decimal(n) ==> IsDigit(c)) && Number(Decimal(n)) == n
  {
    if n < 10 {
      NumberAdd("", n);
      assert "" + [DigitOf(n)] == [DigitOf(n)];
    } else {
      DecimalReads(n / 10);
      NumberAdd(Decimal(n / 10), n % 10);
    }
  }

  /** Digits without a leading zero, or a single digit. */
  predicate Canonical(digits: string) {
    digits != "" && (forall c :: c in digits ==> IsDigit(c)) && (digits[0] != '0' || |digits| == 1)
  }

  lemma {:induction false} DecimalIsCanonical(n: nat)
    ensures Canonical(Decimal(n)) && (Decimal(n)[0] == '0' ==> n == 0)
  {
    DecimalReads(n);
    if n >= 10 {
      DecimalIsCanonical(n / 10);
    }
  }

  lemma DecimalAdd(n: nat, d: nat)
    requires n != 0 && d < 10
    ensures Decimal(10 * n + d) == Decimal(n) + [DigitOf(d)]
  {
    assert (10 * n + d) / 10 == n && (10 * n + d) % 10 == d;
  }

  lemma DigitBack(c: char)
    requires IsDigit(c)
    ensures DigitOf(c as int - '0' as int) == c
  {
  }

  lemma CanonicalFront(digits: string)
    requires Canonical(digits) && |digits| > 1
    ensures Canonical(digits[..|digits| - 1])
  {
    assert forall c :: c in digits[..|digits| - 1] ==> c in digits;
  }

  lemma {:induction false} CanonicalIsDecimal(digits: string)
    requires Canonical(digits)
    ensures Decimal(Number(digits)) == digits && (Number(digits) == 0 ==> digits[0] == '0')
  {
    var front, last := digits[..|digits| - 1], digits[|digits| - 1];
    assert last in digits;
    DigitBack(last);
    assert digits == front + [last];
    if |digits| == 1 {
      assert Number(digits) == last as int - '0' as int;
    } else {
      CanonicalFront(digits);
      CanonicalIsDecimal(front);
      DecimalAdd(Number(front), last as int - '0' as int);
    }
  }

  lemma {:induction false} RunOfDigits(digits: string, rest: string)
    requires (forall c :: c in digits ==> IsDigit(c)) && (rest != "" ==> !IsDigit(rest[0]))
    ensures DigitRun(digits + rest) == |digits|
  {
    if digits == "" {
      assert digits + rest == rest;
    } else {
      assert digits[0] in digits && (digits + rest)[1..] == digits[1..] + rest;
      RunOfDigits(digits[1..], rest);
    }
  }

  lemma FirstGroup(n: nat, rest: string)
    requires rest != "" ==> !IsDigit(rest[0])
    ensures Groups(Decimal(n) + rest) == [n] + Groups(rest)
  {
    var digits := Decimal(n);
    DecimalReads(n);
    RunOfDigits(digits, rest);
    assert digits[0] in digits;
    assert (digits + rest)[..|digits|] == digits && (digits + rest)[|digits|..] == rest;
  }

  /** A version that is written as numbers in decimal with dots between is read as these numbers. */
  lemma {:induction false} DottedReads(g: seq<nat>)
    ensures Groups(Dotted(g)) == g
  {
    if |g| == 1 {
      FirstGroup(g[0], "");
      assert Decimal(g[0]) + "" == Decimal(g[0]);
    } else if g != [] {
      var rest := Dotted(g[1..]);
      DottedReads(g[1..]);
      FirstGroup(g[0], "." + rest);
      assert Decimal(g[0]) + "." + rest == Decimal(g[0]) + ("." + rest);
      assert ("." + rest)[1..] == rest;
    }
  }

  /** Of two such versions with as many numbers each, the first counts as newer exactly when at the first place where
      they differ its number is the larger one. */
  lemma CompareDotted(a: seq<nat>, b: seq<nat>)
    requires |a| == |b| > 0
    ensures Compare(Dotted(a), Dotted(b)) == 1 <==> exists i :: 0 <= i < |a| && a[..i] == b[..i] && a[i] > b[i]
    ensures Compare(Dotted(a), Dotted(b)) == -1 <==> exists i :: 0 <= i < |a| && a[..i] == b[..i] && a[i] < b[i]
  {
    DottedReads(a);
    DottedReads(b);
    LexTrichotomy(a, b);
    LexOfSameLength(a, b);
    LexOfSameLength(b, a);
  }

  lemma LexOfSameLength(a: seq<nat>, b: seq<nat>)
    requires |a| == |b|
    ensures LexLess(a, b) <==> exists i :: 0 <= i < |a| && a[..i] == b[..i] && a[i] < b[i]
  {
    forall i | 0 <= i < |a| ensures SamePrefix(a, b, i) <==> a[..i] == b[..i] {
      if a[..i] == b[..i] {
        forall j | 0 <= j < i ensures Pad(a, j) == Pad(b, j) {
          assert a[..i][j] == b[..i][j];
        }
      }
      if SamePrefix(a, b, i) {
        forall j | 0 <= j < i ensures a[j] == b[j] {
          assert Pad(a, j) == Pad(b, j);
        }
      }
    }
  }

  /** Trailing zeros make no difference, on either side. */
  lemma TrailingZeroIgnored(a: seq<nat>, b: seq<nat>)
    requires a != [] && b != []
    ensures Compare(Dotted(a + [0]), Dotted(b)) == Compare(Dotted(a), Dotted(b)) == Compare(Dotted(a), Dotted(b + [0]))
  {
    DottedReads(a);
    DottedReads(b);
    DottedReads(a + [0]);
    DottedReads(b + [0]);
    PadZero(a);
    PadZero(b);
    LexByPad(a, b, a + [0], b);
    LexByPad(b, a, b, a + [0]);
    LexByPad(a, b, a, b + [0]);
    LexByPad(b, a, b + [0], a);
  }

  lemma PadZero(a: seq<nat>)
    ensures forall i: nat :: Pad(a + [0], i) == Pad(a, i)
  {
  }

  /** The order depends on the padded numbers alone. */
  lemma LexByPad(a: seq<nat>, b: seq<nat>, a': seq<nat>, b': seq<nat>)
    requires forall i: nat :: Pad(a, i) == Pad(a', i) && Pad(b, i) == Pad(b', i)
    ensures LexLess(a, b) == LexLess(a', b')
  {
    if LexLess(a, b) {
      LexByPadOneWay(a, b, a', b');
    }
    if LexLess(a', b') {
      LexByPadOneWay(a', b', a, b);
    }
  }

  lemma LexByPadOneWay(a: seq<nat>, b: seq<nat>, a': seq<nat>, b': seq<nat>)
    requires forall i: nat :: Pad(a, i) == Pad(a', i) && Pad(b, i) == Pad(b', i)
    requires LexLess(a, b)
    ensures LexLess(a', b')
  {
    var i :| 0 <= i < Max(|a|, |b|) && SamePrefix(a, b, i) && Pad(a, i) < Pad(b, i);
    assert Pad(a', i) < Pad(b', i) && i < |b'|;
    forall j | 0 <= j < i ensures Pad(a', j) == Pad(b', j) {
      assert Pad(a, j) == Pad(b, j);
    }
  }

  // ---- update plan ----

  datatype Plan = Plan(updateAgent: bool, updateSupervisor: bool, fields: seq<string>)

  function Behind(actual: VersionMap, desired: VersionMap): string -> bool {
    (f: string) => Field(desired, f) != "" && Compare(Field(actual, f), Field(desired, f)) < 0
  }

  /** The plan names, in the fixed field order, every field that is behind its desired version. */
  function PlanFor(actual: VersionMap, desired: VersionMap): Plan {
    var fields := Filter(COMPONENT_VERSION_FIELDS, Behind(actual, desired));
    Plan("agentVersion" in fields, "controlPlaneAgentVersion" in fields, fields)
  }

  method UpdatePlan(actual: VersionMap, desired: VersionMap) returns (plan: Plan)
    ensures plan == PlanFor(actual, desired)
  {
    var fields := [];
    for i := 0 to |COMPONENT_VERSION_FIELDS|
      invariant fields == Filter(COMPONENT_VERSION_FIELDS[..i], Behind(actual, desired))
    {
      var f := COMPONENT_VERSION_FIELDS[i];
      assert COMPONENT_VERSION_FIELDS[..i + 1][..i] == COMPONENT_VERSION_FIELDS[..i];
      if Field(desired, f) != "" {
        var c := CompareVersions(Field(actual, f), Field(desired, f));
        if c < 0 {
          fields := fields + [f];
        }
      }
    }
    assert COMPONENT_VERSION_FIELDS[..|COMPONENT_VERSION_FIELDS|] == COMPONENT_VERSION_FIELDS;
    return Plan("agentVersion" in fields, "controlPlaneAgentVersion" in fields, fields);
  }

  /** The desired versions of the five component fields, as minimums. */
  function DesiredMinimums(desired: VersionMap): seq<(string, string)> {
    seq(|COMPONENT_VERSION_FIELDS|,
        i requires 0 <= i < |COMPONENT_VERSION_FIELDS| =>
          (COMPONENT_VERSION_FIELDS[i], Field(desired, COMPONENT_VERSION_FIELDS[i])))
  }

  /** Nothing to update exactly when the node meets the desired versions as minimums. */
  lemma PlanEmptyIffMeets(actual: VersionMap, desired: VersionMap)
    ensures PlanFor(actual, desired).fields == [] <==> Meets(actual, DesiredMinimums(desired))
  {
    var fields := PlanFor(actual, desired).fields;
    var minimums := DesiredMinimums(desired);
    assert Groups("") == [];
    FilterMembers(COMPONENT_VERSION_FIELDS, Behind(actual, desired));
    if fields == [] {
      forall m | m in minimums
        ensures Compare(Field(actual, m.0), m.1) >= 0
      {
        assert m.0 in COMPONENT_VERSION_FIELDS && m.0 !in fields;
      }
    } else {
      var f := fields[0];
      assert f in fields;
      var i :| 0 <= i < |COMPONENT_VERSION_FIELDS| && COMPONENT_VERSION_FIELDS[i] == f;
      assert minimums[i] in minimums;
    }
  }

  /** A node at or above the desired worker and supervisor versions is never told to update. */
  lemma PlanQuietWhenCurrent(actual: VersionMap, desired: VersionMap)
    ensures PlanFor(actual, desired).updateAgent == Behind(actual, desired)("agentVersion")
    ensures PlanFor(actual, desired).updateSupervisor == Behind(actual, desired)("controlPlaneAgentVersion")
  {
    FilterMembers(COMPONENT_VERSION_FIELDS, Behind(actual, desired));
    assert COMPONENT_VERSION_FIELDS[0] in COMPONENT_VERSION_FIELDS;
    assert COMPONENT_VERSION_FIELDS[1] in COMPONENT_VERSION_FIELDS;
  }
}
