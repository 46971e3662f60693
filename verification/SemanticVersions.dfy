/** Semantic versions: parsing, precedence, and the monotonicity rule for publication. */
module SemanticVersions {
  import opened Text
  import opened Splitting

  const MAX_UINT64: nat := 0xFFFF_FFFF_FFFF_FFFF

  datatype Version = Version(raw: string, major: nat, minor: nat, patch: nat, prerelease: seq<string>)

  // ---------------------------------------------------------------- parsing

  /** strings.Cut with a one-byte separator. */
  function Cut(s: string, c: char): (r: (string, string, bool))
    ensures r.2 ==> s == r.0 + [c] + r.1
    ensures !r.2 ==> s == r.0 && r.1 == ""
    ensures c !in r.0
  {
    if s == "" then ("", "", false)
    else if s[0] == c then ("", s[1..], true)
    else
      var rest := Cut(s[1..], c);
      ([s[0]] + rest.0, rest.1, rest.2)
  }

  predicate IdentifierChar(c: char) {
    Digit(c) || 'a' <= c <= 'z' || 'A' <= c <= 'Z' || c == '-'
  }

  predicate Identifier(s: string) {
    s != "" && forall i :: 0 <= i < |s| ==> IdentifierChar(s[i])
  }

  predicate Numeric(s: string) {
    s != "" && Digits(s)
  }

  predicate ValidIdentifier(s: string, rejectLeadingZero: bool) {
    Identifier(s) && (rejectLeadingZero && Numeric(s) ==> Canonical(s))
  }

  predicate ValidIdentifiers(parts: seq<string>, rejectLeadingZero: bool) {
    forall i :: 0 <= i < |parts| ==> ValidIdentifier(parts[i], rejectLeadingZero)
  }

  /** The pattern of one or more letters, digits and hyphens. */
  method MatchesIdentifier(s: string) returns (ok: bool)
    ensures ok <==> Identifier(s)
  {
    for i := 0 to |s|
      invariant forall j :: 0 <= j < i ==> IdentifierChar(s[j])
    {
      var c := s[i];
      if !('0' <= c <= '9') && !('A' <= c <= 'Z') && !('a' <= c <= 'z') && c != '-' {
        return false;
      }
    }
    return s != "";
  }

  method NumericIdentifier(s: string) returns (ok: bool)
    ensures ok <==> Numeric(s)
  {
    for i := 0 to |s|
      invariant forall j :: 0 <= j < i ==> Digit(s[j])
    {
      if s[i] < '0' || s[i] > '9' {
        return false;
      }
    }
    return s != "";
  }

  method ValidSemverIdentifiers(value: string, rejectLeadingZero: bool) returns (ok: bool)
    ensures ok <==> value != "" && ValidIdentifiers(Split(value, '.'), rejectLeadingZero)
  {
    if value == "" {
      return false;
    }
    var parts := Split(value, '.');
    for i := 0 to |parts|
      invariant ValidIdentifiers(parts[..i], rejectLeadingZero)
    {
      hide Identifier;
      var identifier := parts[i];
      assert parts[..i + 1] == parts[..i] + [identifier];
      var matches := MatchesIdentifier(identifier);
      if !matches {
        return false;
      }
      var numeric := NumericIdentifier(identifier);
      if rejectLeadingZero && |identifier| > 1 && identifier[0] == '0' && numeric {
        return false;
      }
    }
    assert parts[..|parts|] == parts;
    return true;
  }

  predicate ValidCore(parts: seq<string>) {
    && |parts| == 3
    && forall i :: 0 <= i < 3 ==> Canonical(parts[i]) && ToNat(parts[i]) <= MAX_UINT64
  }

  /** The text before the build metadata. */
  function Precedence(raw: string): string {
    Cut(raw, '+').0
  }

  predicate ValidPrecedence(text: string) {
    var (core, pre, hasPre) := Cut(text, '-');
    (hasPre ==> pre != "" && ValidIdentifiers(Split(pre, '.'), true)) && ValidCore(Split(core, '.'))
  }

  predicate ValidVersion(raw: string) {
    var (_, build, hasBuild) := Cut(raw, '+');
    && raw != "" && |raw| <= 255
    && (hasBuild ==> build != "" && ValidIdentifiers(Split(build, '.'), false))
    && ValidPrecedence(Precedence(raw))
  }

  function Parsed(raw: string): Version
    requires ValidVersion(raw)
  {
    var (core, pre, hasPre) := Cut(Precedence(raw), '-');
    var parts := Split(core, '.');
    Version(raw, ToNat(parts[0]), ToNat(parts[1]), ToNat(parts[2]), if hasPre then Split(pre, '.') else [])
  }

  method ParseSemanticVersion(value: string) returns (r: Option<Version>)
    ensures r == if ValidVersion(value) then Some(Parsed(value)) else None
  {
    if value == "" || |value| > 255 {
      return None;
    }
    var (precedence, build, hasBuild) := Cut(value, '+');
    var validBuild := ValidSemverIdentifiers(build, false);
    if '+' in build {
      PlusIsNoIdentifier(build);
    }
    if (hasBuild && !validBuild) || '+' in build {
      return None;
    }
    var (core, pre, hasPre) := Cut(precedence, '-');
    if hasPre {
      var ok := ValidSemverIdentifiers(pre, true);
      if !ok {
        return None;
      }
    }
    var parts := Split(core, '.');
    if |parts| != 3 || !Canonical(parts[0]) || !Canonical(parts[1]) || !Canonical(parts[2]) {
      return None;
    }
    var numbers: seq<nat> := [0, 0, 0];
    for index := 0 to 3
      invariant |numbers| == 3
      invariant forall i :: 0 <= i < 3 ==> Canonical(parts[i])
      invariant forall i :: 0 <= i < index ==> numbers[i] == ToNat(parts[i]) <= MAX_UINT64
    {
      hide Canonical, Cut, Split;
      if ToNat(parts[index]) > 18446744073709551615 {
        return None;
      }
      numbers := numbers[index := ToNat(parts[index])];
    }
    return Some(Version(value, numbers[0], numbers[1], numbers[2], if hasPre then Split(pre, '.') else []));
  }

  /** The separate test for a second plus sign never decides: a plus is in no identifier. */
  lemma PlusIsNoIdentifier(build: string)
    requires '+' in build
    ensures !ValidIdentifiers(Split(build, '.'), false)
  {
    CharSurvivesSplit(build, '+', '.');
    var parts := Split(build, '.');
    var i :| 0 <= i < |parts| && '+' in parts[i];
    assert !Identifier(parts[i]);
  }

  lemma {:induction false} CharSurvivesSplit(s: string, x: char, c: char)
    requires x in s && x != c
    ensures exists i :: 0 <= i < |Split(s, c)| && x in Split(s, c)[i]
  {
    var rest := Split(s[1..], c);
    var all := Split(s, c);
    if s[0] == x {
      assert x in all[0];
    } else {
      CharSurvivesSplit(s[1..], x, c);
      var i :| 0 <= i < |rest| && x in rest[i];
      if s[0] == c {
        assert all[i + 1] == rest[i];
      } else {
        assert i > 0 ==> all[i] == rest[i];
        assert x in all[i];
      }
    }
  }

  // ---------------------------------------------------------------- precedence

  /** Numeric identifiers by length and then bytes, before all others; others by bytes. */
  predicate IdLess(a: string, b: string) {
    if Numeric(a) && Numeric(b) then |a| < |b| || (|a| == |b| && Less(a, b))
    else if Numeric(a) then true
    else if Numeric(b) then false
    else Less(a, b)
  }

  function ComparePre(a: seq<string>, b: seq<string>): int {
    if a == [] then (if b == [] then 0 else -1)
    else if b == [] then 1
    else if a[0] == b[0] then ComparePre(a[1..], b[1..])
    else if IdLess(a[0], b[0]) then -1 else 1
  }

  function CompareNat(a: nat, b: nat): int {
    if a < b then -1 else if a > b then 1 else 0
  }

  function Compare(a: Version, b: Version): int {
    if a.major != b.major then CompareNat(a.major, b.major)
    else if a.minor != b.minor then CompareNat(a.minor, b.minor)
    else if a.patch != b.patch then CompareNat(a.patch, b.patch)
    else if a.prerelease == [] && b.prerelease != [] then 1
    else if a.prerelease != [] && b.prerelease == [] then -1
    else ComparePre(a.prerelease, b.prerelease)
  }

  method CompareVersions(a: Version, b: Version) returns (r: int)
    ensures r == Compare(a, b)
  {
    var pairs := [(a.major, b.major), (a.minor, b.minor), (a.patch, b.patch)];
    for i := 0 to 3
      invariant forall k :: 0 <= k < i ==> pairs[k].0 == pairs[k].1
    {
      assert (i > 0 ==> pairs[0].0 == pairs[0].1) && (i > 1 ==> pairs[1].0 == pairs[1].1);
      if pairs[i].0 < pairs[i].1 {
        return -1;
      }
      if pairs[i].0 > pairs[i].1 {
        return 1;
      }
    }
    assert pairs[0].0 == pairs[0].1 && pairs[1].0 == pairs[1].1 && pairs[2].0 == pairs[2].1;
    if a.prerelease == [] && b.prerelease != [] {
      return 1;
    }
    if a.prerelease != [] && b.prerelease == [] {
      return -1;
    }
    r := CompareIdentifiers(a.prerelease, b.prerelease);
  }

  method CompareIdentifiers(a: seq<string>, b: seq<string>) returns (r: int)
    ensures r == ComparePre(a, b)
  {
    var i := 0;
    assert a[0..] == a && b[0..] == b;
    while i < |a| && i < |b|
      invariant i <= |a| && i <= |b|
      invariant ComparePre(a, b) == ComparePre(a[i..], b[i..])
    {
      hide Less, Numeric;
      assert a[i..][1..] == a[i + 1..] && b[i..][1..] == b[i + 1..];
      var left, right := a[i], b[i];
      if left == right {
        i := i + 1;
        continue;
      }
      var leftNumeric := NumericIdentifier(left);
      var rightNumeric := NumericIdentifier(right);
      if leftNumeric && rightNumeric {
        if |left| < |right| {
          return -1;
        }
        if |left| > |right| {
          return 1;
        }
        return if Less(left, right) then -1 else 1;
      }
      if leftNumeric {
        return -1;
      }
      if rightNumeric {
        return 1;
      }
      return if Less(left, right) then -1 else 1;
    }
    if |a| < |b| {
      return -1;
    }
    if |a| > |b| {
      return 1;
    }
    return 0;
  }

  // ---------------------------------------------------------------- a total preorder

  lemma IdLessTotal(a: string, b: string)
    ensures a == b <==> !IdLess(a, b) && !IdLess(b, a)
    ensures !(IdLess(a, b) && IdLess(b, a))
  {
    hide Less, Numeric;
    LessTotal(a, b);
  }

  lemma IdLessTransitive(a: string, b: string, c: string)
    requires IdLess(a, b) && IdLess(b, c)
    ensures IdLess(a, c)
  {
    hide Less, Numeric;
    if Less(a, b) && Less(b, c) {
      LessTransitive(a, b, c);
    }
  }

  lemma {:induction false} ComparePreAntisymmetric(a: seq<string>, b: seq<string>)
    ensures ComparePre(a, b) == -ComparePre(b, a)
    ensures ComparePre(a, b) == 0 <==> a == b
  {
    if a != [] && b != [] {
      IdLessTotal(a[0], b[0]);
      hide IdLess;
      if a[0] == b[0] {
        ComparePreAntisymmetric(a[1..], b[1..]);
        assert a == [a[0]] + a[1..] && b == [b[0]] + b[1..];
      }
    }
  }

  lemma {:induction false} ComparePreTransitive(a: seq<string>, b: seq<string>, c: seq<string>)
    requires ComparePre(a, b) < 0 && ComparePre(b, c) < 0
    ensures ComparePre(a, c) < 0
  {
    if a != [] {
      if a[0] == b[0] == c[0] {
        hide IdLess;
        ComparePreTransitive(a[1..], b[1..], c[1..]);
      } else if a[0] != b[0] && b[0] != c[0] {
        IdLessTransitive(a[0], b[0], c[0]);
        IdLessTotal(a[0], b[0]);
        hide IdLess;
      }
    }
  }

  /** Everything precedence looks at. */
  predicate SameKey(a: Version, b: Version) {
    a.major == b.major && a.minor == b.minor && a.patch == b.patch && a.prerelease == b.prerelease
  }

  lemma CompareAntisymmetric(a: Version, b: Version)
    ensures Compare(a, b) == -Compare(b, a)
    ensures Compare(a, b) == 0 <==> SameKey(a, b)
  {
    ComparePreAntisymmetric(a.prerelease, b.prerelease);
  }

  lemma CompareTransitive(a: Version, b: Version, c: Version)
    requires Compare(a, b) <= 0 && Compare(b, c) <= 0
    ensures Compare(a, c) <= 0
    ensures Compare(a, c) == 0 ==> Compare(a, b) == 0 && Compare(b, c) == 0
  {
    CompareAntisymmetric(a, b);
    CompareAntisymmetric(b, c);
    CompareAntisymmetric(a, c);
    ComparePreAntisymmetric(a.prerelease, b.prerelease);
    ComparePreAntisymmetric(b.prerelease, c.prerelease);
    if ComparePre(a.prerelease, b.prerelease) < 0 && ComparePre(b.prerelease, c.prerelease) < 0 {
      ComparePreTransitive(a.prerelease, b.prerelease, c.prerelease);
    }
    hide ComparePre;
  }

  /** Section 11.4 of Semantic Versioning 2.0.0 on two identifiers: numbers numerically and
      before everything else, the rest in ASCII order. */
  predicate Section11(a: string, b: string) {
    if Numeric(a) && Numeric(b) then ToNat(a) < ToNat(b)
    else if Numeric(a) || Numeric(b) then Numeric(a)
    else Less(a, b)
  }

  /** On identifiers that parsing admits, length and bytes compare numbers. */
  lemma IdLessIsSection11(a: string, b: string)
    requires ValidIdentifier(a, true) && ValidIdentifier(b, true)
    ensures IdLess(a, b) <==> Section11(a, b)
  {
    if Numeric(a) && Numeric(b) {
      if |a| < |b| {
        LongerIsLarger(a, b);
      } else if |b| < |a| {
        LongerIsLarger(b, a);
      } else {
        SameLengthOrder(a, b);
      }
    }
  }

  /** Section 11.4 on prereleases: the first difference decides, and a longer list comes after
      its own beginning. */
  ghost predicate DiffersAt(a: seq<string>, b: seq<string>, i: nat) {
    && i <= |a| && i < |b| && a[..i] == b[..i]
    && (i == |a| || Section11(a[i], b[i]))
  }

  ghost predicate PrePrecedes(a: seq<string>, b: seq<string>) {
    exists i: nat :: DiffersAt(a, b, i)
  }

  /** Section 11 of Semantic Versioning 2.0.0 on whole versions. */
  ghost predicate Precedes(a: Version, b: Version) {
    || a.major < b.major
    || (a.major == b.major && a.minor < b.minor)
    || (a.major == b.major && a.minor == b.minor && a.patch < b.patch)
    || (a.major == b.major && a.minor == b.minor && a.patch == b.patch && a.prerelease != [] &&
        (b.prerelease == [] || PrePrecedes(a.prerelease, b.prerelease)))
  }

  lemma DiffersLater(a: seq<string>, b: seq<string>, i: nat)
    requires a != [] && b != [] && a[0] == b[0]
    ensures DiffersAt(a, b, i + 1) <==> DiffersAt(a[1..], b[1..], i)
  {
    hide Section11;
    if i + 1 <= |a| && i + 1 <= |b| {
      assert a[..i + 1] == [a[0]] + a[1..][..i] && b[..i + 1] == [b[0]] + b[1..][..i];
      assert a[..i + 1][1..] == a[1..][..i] && b[..i + 1][1..] == b[1..][..i];
    }
  }

  lemma {:induction false} ComparePreIsSection11(a: seq<string>, b: seq<string>)
    requires ValidIdentifiers(a, true) && ValidIdentifiers(b, true)
    ensures ComparePre(a, b) < 0 <==> PrePrecedes(a, b)
  {
    if b != [] {
      if a == [] {
        assert DiffersAt(a, b, 0);
      } else {
        IdLessTotal(a[0], b[0]);
        IdLessIsSection11(a[0], b[0]);
        hide IdLess, Section11;
        if a[0] == b[0] {
          ComparePreIsSection11(a[1..], b[1..]);
          if PrePrecedes(a[1..], b[1..]) {
            var i: nat :| DiffersAt(a[1..], b[1..], i);
            DiffersLater(a, b, i);
          }
          if PrePrecedes(a, b) {
            var i: nat :| DiffersAt(a, b, i);
            DiffersLater(a, b, i - 1);
          }
        } else {
          assert forall i: nat :: 0 < i <= |a| && i <= |b| ==> a[..i][0] == a[0] && b[..i][0] == b[0];
          assert DiffersAt(a, b, 0) <==> Section11(a[0], b[0]);
        }
      }
    }
  }

  /** On parsed versions a negative result is exactly the precedence of the standard. */
  lemma CompareIsSection11(a: string, b: string)
    requires ValidVersion(a) && ValidVersion(b)
    ensures Compare(Parsed(a), Parsed(b)) < 0 <==> Precedes(Parsed(a), Parsed(b))
  {
    var x, y := Parsed(a), Parsed(b);
    assert ValidIdentifiers(x.prerelease, true) && ValidIdentifiers(y.prerelease, true);
    ComparePreIsSection11(x.prerelease, y.prerelease);
    hide ValidVersion, Parsed, ComparePre, PrePrecedes;
  }

  // ---------------------------------------------------------------- equal precedence is equal text

  function CoreText(a: Version): string {
    Decimal(a.major) + "." + (Decimal(a.minor) + "." + Decimal(a.patch))
  }

  lemma CoreIsText(parts: seq<string>)
    requires ValidCore(parts)
    ensures Join(parts, '.') == CoreText(Version("", ToNat(parts[0]), ToNat(parts[1]), ToNat(parts[2]), []))
  {
    CanonicalRoundTrip(parts[0]);
    CanonicalRoundTrip(parts[1]);
    CanonicalRoundTrip(parts[2]);
    hide Canonical, Decimal, ToNat;
    assert parts[1..][1..] == [parts[2]];
    assert Join(parts[1..], '.') == parts[1] + "." + parts[2];
  }

  /** A parsed version spells its precedence back. */
  lemma PrecedenceText(raw: string)
    requires ValidVersion(raw)
    ensures var v := Parsed(raw);
            Precedence(raw) == if v.prerelease == [] then CoreText(v) else CoreText(v) + "-" + Join(v.prerelease, '.')
  {
    var (core, pre, hasPre) := Cut(Precedence(raw), '-');
    JoinSplit(core, '.');
    CoreIsText(Split(core, '.'));
    if hasPre {
      JoinSplit(pre, '.');
    }
    hide Split, Cut, ValidIdentifiers, Decimal, ToNat, Canonical, Join;
  }

  /** Two versions compare equal exactly when their texts before `+` are the same. */
  lemma EqualIffSamePrecedence(a: string, b: string)
    requires ValidVersion(a) && ValidVersion(b)
    ensures Compare(Parsed(a), Parsed(b)) == 0 <==> Precedence(a) == Precedence(b)
  {
    CompareAntisymmetric(Parsed(a), Parsed(b));
    PrecedenceText(a);
    PrecedenceText(b);
    hide Compare, Join, ValidVersion, Precedence;
  }

  // ---------------------------------------------------------------- monotone publication

  predicate RequireMonotonic(previous: Version, next: Version) {
    !(Compare(next, previous) <= 0)
  }

  /** A history in which every version passed the check against the one before it. */
  ghost predicate Monotone(history: seq<Version>) {
    forall i :: 0 < i < |history| ==> RequireMonotonic(history[i - 1], history[i])
  }

  /** Checking neighbours orders the whole history, so no precedence text ever comes back. */
  lemma {:induction false} HistoryIsOrdered(history: seq<Version>, i: nat, j: nat)
    requires Monotone(history) && i < j < |history|
    ensures Compare(history[i], history[j]) < 0
    decreases j
  {
    hide Compare;
    CompareAntisymmetric(history[j], history[j - 1]);
    assert RequireMonotonic(history[j - 1], history[j]);
    if i < j - 1 {
      HistoryIsOrdered(history, i, j - 1);
      CompareTransitive(history[i], history[j - 1], history[j]);
    }
  }

  lemma NoPrecedenceComesBack(history: seq<Version>, i: nat, j: nat)
    requires Monotone(history) && i < j < |history|
    requires ValidVersion(history[i].raw) && history[i] == Parsed(history[i].raw)
    requires ValidVersion(history[j].raw) && history[j] == Parsed(history[j].raw)
    ensures Precedence(history[i].raw) != Precedence(history[j].raw)
  {
    HistoryIsOrdered(history, i, j);
    hide Compare, ValidVersion, Precedence;
    EqualIffSamePrecedence(history[i].raw, history[j].raw);
  }
}
