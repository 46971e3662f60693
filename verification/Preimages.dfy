/** What the gateway feeds to SHA-256, and how much of its input each preimage determines.

    The hash is taken to be injective on its preimage, so a digest is compared as the
    preimage itself, and the lemmas here say which fields two equal digests agree on.
 */
module Preimages {
  import opened Text

  const TWO_TO_THE_64: nat := 0x1_0000_0000_0000_0000

  /** Big-endian, `width` bytes. */
  function BigEndian(n: nat, width: nat): (s: string)
    ensures |s| == width
  {
    if width == 0 then [] else BigEndian(n / 256, width - 1) + [(n % 256) as char]
  }

  function FromBigEndian(s: string): nat {
    if s == [] then 0 else 256 * FromBigEndian(s[..|s| - 1]) + s[|s| - 1] as nat
  }

  function Power256(width: nat): nat {
    if width == 0 then 1 else 256 * Power256(width - 1)
  }

  lemma {:induction false} BigEndianRoundTrip(n: nat, width: nat)
    requires n < Power256(width)
    ensures FromBigEndian(BigEndian(n, width)) == n
  {
    if width > 0 {
      BigEndianRoundTrip(n / 256, width - 1);
      var s := BigEndian(n, width);
      assert s[..|s| - 1] == BigEndian(n / 256, width - 1);
    }
  }

  lemma LengthBytes(n: nat)
    requires n < TWO_TO_THE_64
    ensures FromBigEndian(BigEndian(n, 8)) == n
  {
    assert Power256(4) == 0x1_0000_0000;
    assert Power256(8) == TWO_TO_THE_64 by {
      assert Power256(8) == 256 * Power256(7);
      assert Power256(7) == 256 * Power256(6);
      assert Power256(6) == 256 * Power256(5);
    }
    BigEndianRoundTrip(n, 8);
  }

  /** Every part preceded by its length in eight bytes. */
  function LengthPrefixed(parts: seq<string>): string {
    if parts == [] then [] else BigEndian(|parts[0]|, 8) + parts[0] + LengthPrefixed(parts[1..])
  }

  /** Lengths of Go strings fit in 64 bits. */
  ghost predicate Sized(parts: seq<string>) {
    forall i :: 0 <= i < |parts| ==> |parts[i]| < TWO_TO_THE_64
  }

  /** Length-prefixing is a prefix code: the byte stream determines the list of parts. */
  lemma {:induction false} LengthPrefixedInjective(a: seq<string>, b: seq<string>)
    requires Sized(a) && Sized(b)
    requires LengthPrefixed(a) == LengthPrefixed(b)
    ensures a == b
    decreases |a|
  {
    var x, y := LengthPrefixed(a), LengthPrefixed(b);
    if a != [] && b != [] {
      assert x[..8] == BigEndian(|a[0]|, 8);
      assert y[..8] == BigEndian(|b[0]|, 8);
      LengthBytes(|a[0]|);
      LengthBytes(|b[0]|);
      var n := |a[0]|;
      assert x[8..8 + n] == a[0] && y[8..8 + n] == b[0];
      assert x[8 + n..] == LengthPrefixed(a[1..]) && y[8 + n..] == LengthPrefixed(b[1..]);
      LengthPrefixedInjective(a[1..], b[1..]);
      assert a == [a[0]] + a[1..] && b == [b[0]] + b[1..];
    }
  }

  /** Every part preceded by its length in decimal and a colon. */
  function ColonPrefixed(parts: seq<string>): string {
    if parts == [] then [] else Decimal(|parts[0]|) + ":" + parts[0] + ColonPrefixed(parts[1..])
  }

  /** Where a decimal length ends: at the first colon. */
  lemma ColonSplit(m: nat, n: nat, x: string, y: string)
    requires Decimal(m) + ":" + x == Decimal(n) + ":" + y
    ensures m == n && x == y
  {
    var a, b := Decimal(m), Decimal(n);
    var s := a + ":" + x;
    assert s[|a|] == ':' && (b + ":" + y)[|b|] == ':';
    assert |a| == |b|;
    assert a == s[..|a|] && b == s[..|a|];
    assert x == s[|a| + 1..] && y == s[|a| + 1..];
    DecimalRoundTrip(m);
    DecimalRoundTrip(n);
  }

  lemma {:induction false} ColonPrefixedInjective(a: seq<string>, b: seq<string>)
    requires ColonPrefixed(a) == ColonPrefixed(b)
    ensures a == b
    decreases |a|
  {
    if a != [] && b != [] {
      var x, y := a[0] + ColonPrefixed(a[1..]), b[0] + ColonPrefixed(b[1..]);
      assert ColonPrefixed(a) == Decimal(|a[0]|) + ":" + x;
      assert ColonPrefixed(b) == Decimal(|b[0]|) + ":" + y;
      ColonSplit(|a[0]|, |b[0]|, x, y);
      assert x[..|a[0]|] == a[0] && y[..|a[0]|] == b[0];
      assert x[|a[0]|..] == ColonPrefixed(a[1..]) && y[|a[0]|..] == ColonPrefixed(b[1..]);
      ColonPrefixedInjective(a[1..], b[1..]);
      assert a == [a[0]] + a[1..] && b == [b[0]] + b[1..];
    }
  }

  // ---------------------------------------------------------------- logical request digest

  function LogicalRequestPreimage(toolID: string, toolVersion: string, argumentDigest: string): string {
    LengthPrefixed([toolID, toolVersion, argumentDigest])
  }

  lemma LogicalRequestDigestDetermines(t1: string, v1: string, d1: string, t2: string, v2: string, d2: string)
    requires Sized([t1, v1, d1]) && Sized([t2, v2, d2])
    ensures LogicalRequestPreimage(t1, v1, d1) == LogicalRequestPreimage(t2, v2, d2) <==>
            t1 == t2 && v1 == v2 && d1 == d2
  {
    if LogicalRequestPreimage(t1, v1, d1) == LogicalRequestPreimage(t2, v2, d2) {
      LengthPrefixedInjective([t1, v1, d1], [t2, v2, d2]);
      assert [t1, v1, d1][0] == [t2, v2, d2][0];
      assert [t1, v1, d1][1] == [t2, v2, d2][1];
      assert [t1, v1, d1][2] == [t2, v2, d2][2];
    }
  }

  // ---------------------------------------------------------------- discovery cursor binding

  datatype Caller = Caller(tenant: string, subject: string, actor: string, agent: string,
                           agentVersion: string, run: string, workload: string)

  function BindingParts(c: Caller, limit: nat): seq<string> {
    [c.tenant, c.subject, c.actor, c.agent, c.agentVersion, c.run, c.workload, Decimal(limit)]
  }

  function DiscoveryBinding(c: Caller, limit: nat): string {
    ColonPrefixed(BindingParts(c, limit))
  }

  /** A cursor minted for one caller and page size is refused for every other. */
  lemma DiscoveryBindingDetermines(a: Caller, m: nat, b: Caller, n: nat)
    ensures DiscoveryBinding(a, m) == DiscoveryBinding(b, n) <==> a == b && m == n
  {
    if DiscoveryBinding(a, m) == DiscoveryBinding(b, n) {
      var x, y := BindingParts(a, m), BindingParts(b, n);
      ColonPrefixedInjective(x, y);
      assert x[0] == y[0] && x[1] == y[1] && x[2] == y[2] && x[3] == y[3];
      assert x[4] == y[4] && x[5] == y[5] && x[6] == y[6] && x[7] == y[7];
      DecimalRoundTrip(m);
      DecimalRoundTrip(n);
    }
  }
}
