/** A credential capability owns its secret bytes: copies in, copies out, erased on release. */
module Capabilities {
  import opened Text

  newtype Byte = x: int | 0 <= x < 256

  datatype Kind = OAuthAccessToken | ApiToken | MutualTLS | SignedRequest | OtherKind(text: Name)

  datatype Metadata = Metadata(
    kind: Kind, providerRef: Name, issuer: Name, issuedAt: Time, expiresAt: Time,
    audiences: seq<Name>, resources: seq<Name>, scopes: seq<Name>,
    leaseID: Name, refreshID: Name, revocationEpoch: Name)

  const MAX_SECRET := 65536

  // ---------------------------------------------------------------- metadata

  predicate Safe(text: Name, maximum: nat) {
    ValidText(text.text, maximum) && NoControls(text.text)
  }

  predicate OptionalSafe(text: Name, maximum: nat) {
    text.text == "" || Safe(text, maximum)
  }

  predicate ValidSet(values: seq<Name>, maximumCount: nat, maximumLength: nat) {
    && |values| <= maximumCount
    && (forall i :: 0 <= i < |values| ==> Safe(values[i], maximumLength))
    && forall i, j :: 0 <= i < j < |values| ==> values[i] != values[j]
  }

  /** One pass with a set of what was seen finds every unsafe or repeated value. */
  method ValidateSet(values: seq<Name>, maximumCount: nat, maximumLength: nat) returns (ok: bool)
    ensures ok <==> ValidSet(values, maximumCount, maximumLength)
  {
    if |values| > maximumCount {
      return false;
    }
    var seen := {};
    for n := 0 to |values|
      invariant forall i :: 0 <= i < n ==> Safe(values[i], maximumLength) && values[i] in seen
      invariant forall v :: v in seen ==> exists i :: 0 <= i < n && values[i] == v
      invariant forall i, j :: 0 <= i < j < n ==> values[i] != values[j]
    {
      hide ValidText, NoControls;
      var safe := SafeText(values[n].text, maximumLength);
      if !safe {
        return false;
      }
      if values[n] in seen {
        return false;
      }
      seen := seen + {values[n]};
    }
    return true;
  }

  predicate ValidMetadata(m: Metadata, now: Time) {
    && !m.kind.OtherKind?
    && Safe(m.providerRef, 512) && OptionalSafe(m.issuer, 512)
    && m.issuedAt != ZERO_TIME && m.expiresAt != ZERO_TIME && m.issuedAt < m.expiresAt && now < m.expiresAt
    && ValidSet(m.audiences, 32, 512) && ValidSet(m.resources, 32, 512) && ValidSet(m.scopes, 64, 256)
    && (m.kind.OAuthAccessToken? ==> m.audiences != [] || m.resources != [])
    && OptionalSafe(m.leaseID, 512) && OptionalSafe(m.refreshID, 512) && OptionalSafe(m.revocationEpoch, 512)
  }

  method ValidateMetadata(m: Metadata, now: Time) returns (ok: bool)
    ensures ok <==> ValidMetadata(m, now)
  {
    hide ValidText, NoControls, ValidSet;
    if m.kind != OAuthAccessToken && m.kind != ApiToken && m.kind != MutualTLS && m.kind != SignedRequest {
      return false;
    }
    var provider := SafeText(m.providerRef.text, 512);
    var issuer := SafeText(m.issuer.text, 512);
    if !provider || (m.issuer.text != "" && !issuer) || m.issuedAt == ZERO_TIME || m.expiresAt == ZERO_TIME
       || !(m.issuedAt < m.expiresAt) || !(now < m.expiresAt) {
      return false;
    }
    var audiences := ValidateSet(m.audiences, 32, 512);
    var resources := ValidateSet(m.resources, 32, 512);
    var scopes := ValidateSet(m.scopes, 64, 256);
    if !audiences || !resources || !scopes {
      return false;
    }
    if m.kind == OAuthAccessToken && |m.audiences| == 0 && |m.resources| == 0 {
      return false;
    }
    var lease := SafeText(m.leaseID.text, 512);
    var refresh := SafeText(m.refreshID.text, 512);
    var epoch := SafeText(m.revocationEpoch.text, 512);
    return (m.leaseID.text == "" || lease) && (m.refreshID.text == "" || refresh)
      && (m.revocationEpoch.text == "" || epoch);
  }

  // ---------------------------------------------------------------- bytes

  predicate AllZero(bytes: seq<Byte>) {
    forall i :: 0 <= i < |bytes| ==> bytes[i] == 0
  }

  method Zero(value: array<Byte>)
    modifies value
    ensures AllZero(value[..])
  {
    for i := 0 to value.Length
      invariant AllZero(value[..i])
    {
      value[i] := 0;
      assert value[..i + 1] == value[..i] + [0];
    }
    assert value[..value.Length] == value[..];
  }

  method Copy(source: array<Byte>) returns (copy: array<Byte>)
    ensures fresh(copy) && copy[..] == source[..]
  {
    copy := new Byte[source.Length](i requires 0 <= i < source.Length reads source => source[i]);
  }

  // ---------------------------------------------------------------- the capability

  class Capability {
    var metadata: Metadata
    var secret: array?<Byte>
    var released: bool

    constructor (metadata: Metadata, secret: array<Byte>)
      ensures this.metadata == metadata && this.secret == secret && !released
    {
      this.metadata := metadata;
      this.secret := secret;
      released := false;
    }

    ghost predicate Valid()
      reads this
    {
      && released == (secret == null)
      && (secret != null ==> 0 < secret.Length <= MAX_SECRET)
    }

    ghost function Material(): seq<Byte>
      reads this, secret
    {
      if secret == null then [] else secret[..]
    }

    /** Whether UseSecret runs its callback, and on which bytes. */
    predicate Usable(now: Time)
      reads this
    {
      !released && now < metadata.expiresAt
    }

    /** Erases the owned bytes where they lie and forgets them. */
    method Release()
      requires Valid()
      modifies this, secret
      ensures Valid() && released && Material() == []
      ensures old(secret) != null ==> AllZero(old(secret)[..])
      ensures metadata == old(metadata).(leaseID := Name(""), refreshID := Name(""))
    {
      if secret != null {
        Zero(secret);
      }
      secret := null;
      metadata := metadata.(leaseID := Name(""), refreshID := Name(""));
      released := true;
    }

    /** The callback sees exactly the secret, in a buffer of its own that is erased afterwards;
        `seen` is that buffer. A released or expired capability never runs the callback. */
    method UseSecret(now: Time, use: seq<Byte> -> bool) returns (ok: bool, seen: array?<Byte>)
      requires Valid()
      ensures Valid() && Material() == old(Material())
      ensures (seen != null) == Usable(now)
      ensures ok == (Usable(now) && use(Material()))
      ensures seen != null ==> fresh(seen) && seen.Length == |Material()| && AllZero(seen[..])
    {
      if released || !(now < metadata.expiresAt) {
        return false, null;
      }
      var material := Copy(secret);
      ok := use(material[..]);
      Zero(material);
      seen := material;
    }
  }

  /** The bytes are copied: the new capability shares no storage with its caller. */
  method NewCapability(metadata: Metadata, secret: array<Byte>, now: Time) returns (c: Capability?)
    ensures (c != null) == (0 < secret.Length <= MAX_SECRET && ValidMetadata(metadata, now))
    ensures c != null ==> fresh(c) && fresh(c.secret) && c.Valid() && !c.released
    ensures c != null ==> c.metadata == metadata && c.Material() == secret[..]
  {
    if secret.Length == 0 || secret.Length > 65536 {
      return null;
    }
    var valid := ValidateMetadata(metadata, now);
    if !valid {
      return null;
    }
    var own := Copy(secret);
    c := new Capability(metadata, own);
  }

  /** A clone carries the same metadata and bytes in storage of its own. */
  method Clone(source: Capability, now: Time) returns (c: Capability?)
    requires source.Valid()
    ensures (c != null) == (source.Usable(now) && ValidMetadata(source.metadata, now))
    ensures c != null ==> fresh(c) && fresh(c.secret) && c.Valid() && !c.released
    ensures c != null ==> c.metadata == source.metadata && c.Material() == source.Material()
  {
    hide ValidMetadata;
    if source.released || !(now < source.metadata.expiresAt) {
      return null;
    }
    var material := Copy(source.secret);
    c := NewCapability(source.metadata, material, now);
    Zero(material);
  }

  /** Releasing a source after cloning it erases the source and leaves the clone whole, and
      the other way round. */
  method ReleaseLeavesClone(source: Capability, now: Time, releaseSource: bool) returns (c: Capability?)
    requires source.Valid()
    modifies source, source.secret
    ensures c != null && releaseSource ==>
              c.Valid() && c.Material() == old(source.Material()) && source.released && old(source.secret) != null &&
              AllZero(old(source.secret)[..])
    ensures c != null && !releaseSource ==>
              c.released && source.Valid() && source.Material() == old(source.Material()) && !source.released
  {
    c := Clone(source, now);
    if c != null {
      if releaseSource {
        source.Release();
      } else {
        c.Release();
      }
    }
  }
}
