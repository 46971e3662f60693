/** Byte strings, decimal numerals and small shared datatypes.

    A Go string is a sequence of bytes; here each `char` stands for one byte, so the
    order below is the byte order of Go's `<` on strings.
 */
module Text {

  datatype Option<+T> = None | Some(value: T)

  /** Nanoseconds; instants and durations share the type. */
  type Time = int

  /** The zero time, which no valid request carries. */
  const ZERO_TIME: Time := 0
  const MINUTE: Time := 60_000_000_000

  /** Identifiers, references and epochs: text that is compared and hashed as a whole. */
  datatype Name = Name(text: string)

  /** A document for a column that holds JSON objects: absent, an object, or anything else. */
  datatype JsonText = Absent | JsonObject(text: Name) | NotObject(text: Name)

  // ---------------------------------------------------------------- order

  /** Go's `a < b` on strings: the first differing byte decides, then the length. */
  predicate Less(a: string, b: string)
    decreases a
  {
    if b == [] then false
    else if a == [] then true
    else if a[0] != b[0] then a[0] < b[0]
    else Less(a[1..], b[1..])
  }

  lemma {:induction false} LessTotal(a: string, b: string)
    ensures a == b <==> !Less(a, b) && !Less(b, a)
    ensures !(Less(a, b) && Less(b, a))
    decreases a
  {
    if a != [] && b != [] && a[0] == b[0] {
      LessTotal(a[1..], b[1..]);
      assert a == [a[0]] + a[1..] && b == [b[0]] + b[1..];
    }
  }

  lemma {:induction false} LessTransitive(a: string, b: string, c: string)
    requires Less(a, b) && Less(b, c)
    ensures Less(a, c)
    decreases a
  {
    if a != [] && a[0] == b[0] == c[0] {
      LessTransitive(a[1..], b[1..], c[1..]);
    }
  }

  // ---------------------------------------------------------------- numerals

  predicate Digit(c: char) {
    '0' <= c <= '9'
  }

  predicate Digits(s: string) {
    forall i :: 0 <= i < |s| ==> Digit(s[i])
  }

  function DigitOf(d: nat): char
    requires d < 10
  {
    '0' + d as char
  }

  /** The number a digit string denotes; the empty string denotes 0. */
  function ToNat(s: string): nat
    requires Digits(s)
  {
    if s == [] then 0 else 10 * ToNat(s[..|s| - 1]) + (s[|s| - 1] - '0') as nat
  }

  /** Shortest decimal numeral of `n`. */
  function Decimal(n: nat): (s: string)
    ensures s != [] && Digits(s)
  {
    if n < 10 then [DigitOf(n)] else Decimal(n / 10) + [DigitOf(n % 10)]
  }

  /** No leading zero, unless the numeral is exactly "0". */
  predicate Canonical(s: string) {
    s != [] && Digits(s) && (|s| > 1 ==> s[0] != '0')
  }

  function FormatInt(n: int): string {
    if n < 0 then "-" + Decimal(-n) else Decimal(n)
  }

  lemma {:induction false} DecimalRoundTrip(n: nat)
    ensures ToNat(Decimal(n)) == n && Canonical(Decimal(n))
  {
    if n >= 10 {
      DecimalRoundTrip(n / 10);
      var s := Decimal(n);
      assert s[..|s| - 1] == Decimal(n / 10);
      if |Decimal(n / 10)| == 1 {
        assert ToNat(Decimal(n / 10)[..0]) == 0;
      }
    }
  }

  lemma {:induction false} CanonicalRoundTrip(s: string)
    requires Canonical(s)
    ensures Decimal(ToNat(s)) == s
  {
    var p := s[..|s| - 1];
    if |s| > 1 {
      CanonicalRoundTrip(p);
      CanonicalPositive(p);
      assert s == p + [s[|s| - 1]];
    } else {
      assert ToNat(p) == 0;
    }
  }

  lemma {:induction false} CanonicalPositive(s: string)
    requires Canonical(s) && s[0] != '0'
    ensures ToNat(s) > 0
  {
    if |s| > 1 {
      CanonicalPositive(s[..|s| - 1]);
    } else {
      assert ToNat(s[..0]) == 0;
    }
  }

  lemma FormatIntInjective(a: int, b: int)
    requires FormatInt(a) == FormatInt(b)
    ensures a == b
  {
    hide Decimal, ToNat, Canonical;
    if a < 0 { DecimalRoundTrip(-a); } else { DecimalRoundTrip(a); }
    if b < 0 { DecimalRoundTrip(-b); } else { DecimalRoundTrip(b); }
    if a < 0 && b < 0 {
      assert FormatInt(a)[1..] == Decimal(-a) && FormatInt(b)[1..] == Decimal(-b);
    }
  }

  /** A longer canonical numeral denotes a larger number. */
  lemma {:induction false} LongerIsLarger(a: string, b: string)
    requires Canonical(a) && Canonical(b) && |a| < |b|
    ensures ToNat(a) < ToNat(b)
    decreases |a|
  {
    var a', b' := a[..|a| - 1], b[..|b| - 1];
    if |a| > 1 {
      LongerIsLarger(a', b');
    } else {
      assert ToNat(a') == 0;
      CanonicalPositive(b');
    }
  }

  /** On digit strings of one length, byte order is numeric order. */
  lemma {:induction false} SameLengthOrder(a: string, b: string)
    requires Digits(a) && Digits(b) && |a| == |b|
    ensures Less(a, b) <==> ToNat(a) < ToNat(b)
    ensures ToNat(a) == ToNat(b) <==> a == b
  {
    if a != [] {
      var n := |a| - 1;
      SameLengthOrder(a[..n], b[..n]);
      LessLastByte(a, b);
      assert a == a[..n] + [a[n]] && b == b[..n] + [b[n]];
    }
  }

  lemma {:induction false} LessLastByte(a: string, b: string)
    requires |a| == |b| > 0
    ensures Less(a, b) <==>
            Less(a[..|a| - 1], b[..|b| - 1]) ||
            (a[..|a| - 1] == b[..|b| - 1] && a[|a| - 1] < b[|b| - 1])
  {
    var n := |a| - 1;
    if n > 0 && a[0] == b[0] {
      LessLastByte(a[1..], b[1..]);
      assert a[1..][..n - 1] == a[..n][1..] && b[1..][..n - 1] == b[..n][1..];
      assert a[..n] == [a[0]] + a[..n][1..] && b[..n] == [b[0]] + b[..n][1..];
    }
  }

  // ---------------------------------------------------------------- text rules

  predicate Space(c: char) {
    c == ' ' || '\t' <= c <= '\r'
  }

  /** Non-empty, at most `maximum` bytes, no surrounding white space. */
  predicate ValidText(s: string, maximum: nat) {
    s != "" && |s| <= maximum && !Space(s[0]) && !Space(s[|s| - 1])
  }

  function TrimLeft(s: string): (r: string)
    ensures |r| <= |s| && (r == s <==> s == "" || !Space(s[0]))
  {
    if s != "" && Space(s[0]) then TrimLeft(s[1..]) else s
  }

  function TrimRight(s: string): (r: string)
    ensures |r| <= |s| && (r == s <==> s == "" || !Space(s[|s| - 1]))
  {
    if s != "" && Space(s[|s| - 1]) then TrimRight(s[..|s| - 1]) else s
  }

  /** strings.TrimSpace on ASCII text. */
  function TrimSpace(s: string): string {
    TrimRight(TrimLeft(s))
  }

  /** The rule as the gateway writes it: trimming changes nothing. */
  lemma ValidTextIff(s: string, maximum: nat)
    ensures ValidText(s, maximum) <==> s != "" && |s| <= maximum && TrimSpace(s) == s
    ensures TrimSpace(s) == "" <==> forall c :: c in s ==> Space(c)
    ensures forall c :: Space(c) <==> c == ' ' || c == '\t' || c == '\n' || c == 11 as char || c == 12 as char || c == '\r'
  {
    if TrimSpace(s) == s {
      assert TrimLeft(s) == s;
    }
    TrimsToNothing(s);
  }

  lemma {:induction false} TrimsToNothing(s: string)
    ensures TrimSpace(s) == "" <==> forall c :: c in s ==> Space(c)
  {
    if s != "" && Space(s[0]) {
      TrimsToNothing(s[1..]);
      assert s == [s[0]] + s[1..];
    } else if s != "" {
      TrimRightKeeps(s);
    }
  }

  lemma {:induction false} TrimRightKeeps(s: string)
    requires s != "" && !Space(s[0])
    ensures TrimRight(s) != ""
  {
    if Space(s[|s| - 1]) {
      TrimRightKeeps(s[..|s| - 1]);
    }
  }

  predicate NoControls(s: string) {
    forall i :: 0 <= i < |s| ==> s[i] != '\0' && s[i] != '\r' && s[i] != '\n'
  }

  /** Text that is valid and has no NUL, CR or LF. */
  method SafeText(s: string, maximum: nat) returns (ok: bool)
    ensures ok <==> ValidText(s, maximum) && NoControls(s)
  {
    ValidTextIff(s, maximum);
    if s == "" || |s| > maximum || TrimSpace(s) != s {
      return false;
    }
    for i := 0 to |s|
      invariant NoControls(s[..i])
    {
      if s[i] == '\0' || s[i] == '\r' || s[i] == '\n' {
        return false;
      }
      assert s[..i + 1] == s[..i] + [s[i]];
    }
    assert s[..|s|] == s;
    return true;
  }
}
