/**
 Hierarchical key derivation after BIP-0032, over any curve group: child secrets from
 a secret, and child public keys from a public key alone.
 */
module KeyDerivation {
  import opened Wrappers

  type Bytes = seq<nat>

  /**
   What the derivation uses of the curve and the hash: the group order, the point of a
   secret, whether bytes are a point, the sum of two points (nothing for infinity), the
   compressed form, and the hash of data under a chain code as a key and a chain code.
   */
  datatype Curve = Curve(
    order: nat, point: nat -> Bytes, onCurve: Bytes -> bool, add: (Bytes, Bytes) -> Option<Bytes>,
    compress: Bytes -> Bytes, hmac: (nat, Bytes) -> (nat, nat))

  predicate Secret(c: Curve, k: nat) { 0 < k < c.order }

  /** Points add as their secrets do. */
  ghost predicate Lawful(c: Curve) {
    && c.order > 1
    && (forall k: nat :: Secret(c, k) ==> c.onCurve(c.point(k)))
    && (forall a: nat, b: nat :: Secret(c, a) && Secret(c, b) ==>
          c.add(c.point(a), c.point(b))
          == if (a + b) % c.order == 0 then None else Some(c.point((a + b) % c.order)))
  }

  datatype Derivation = Soft(index: Bytes) | Hard(index: Bytes)

  datatype Error = InvalidHardenedUse | InvalidPoint | MissingIndex

  datatype Outcome<+T> = Done(value: T) | Failed(error: Error) | Panicked

  datatype ExtendedSecret = ExtendedSecret(secret: nat, chainCode: nat)

  datatype ExtendedPublic = ExtendedPublic(public: Bytes, chainCode: nat)

  /** Big-endian bytes. */
  function BigEndian(k: nat, length: nat): (r: Bytes)
    ensures |r| == length
  {
    if length == 0 then [] else BigEndian(k / 256, length - 1) + [k % 256]
  }

  /** Indexes in the lower half are soft. */
  function FromIndex(index: nat): Derivation {
    if index < 0x8000_0000 then Soft(BigEndian(index, 4)) else Hard(BigEndian(index, 4))
  }

  // ---------------------------------------------------------------- the derivations

  function PrivateAdd(c: Curve, a: nat, b: nat): nat
    requires c.order > 0
  {
    (a + b) % c.order
  }

  function HmacPair(c: Curve, data: Bytes, k: nat, code: nat): ExtendedSecret
    requires c.order > 0
  {
    var (key, next) := c.hmac(code, data);
    ExtendedSecret(PrivateAdd(c, key, k), next)
  }

  function SoftData(c: Curve, public: Bytes, index: Bytes): Bytes { c.compress(public) + index }

  function HardData(k: nat, index: Bytes): Bytes { [0] + BigEndian(k, 32) + index }

  /** `ExtendedSecret::derive`; soft derivation panics for a number that is no secret. */
  function DeriveSecret(c: Curve, s: ExtendedSecret, d: Derivation): Outcome<ExtendedSecret>
    requires c.order > 0
  {
    match d
    case Soft(index) =>
      if !Secret(c, s.secret) then Panicked
      else Done(HmacPair(c, SoftData(c, c.point(s.secret), index), s.secret, s.chainCode))
    case Hard(index) => Done(HmacPair(c, HardData(s.secret, index), s.secret, s.chainCode))
  }

  /** `ExtendedPublic::derive`; panics for a hashed key of zero and for a sum at infinity. */
  function DerivePublic(c: Curve, p: ExtendedPublic, d: Derivation): Outcome<ExtendedPublic> {
    match d
    case Hard(_) => Failed(InvalidHardenedUse)
    case Soft(index) =>
      if !c.onCurve(p.public) then Failed(InvalidPoint)
      else
        var (key, next) := c.hmac(p.chainCode, SoftData(c, p.public, index));
        if c.order <= key then Failed(MissingIndex)
        else if key == 0 then Panicked
        else
          var sum := c.add(c.point(key), p.public);
          if sum.None? then Panicked else Done(ExtendedPublic(sum.value, next))
  }

  /** `ExtendedPublic::from_secret`. */
  function PublicOf(c: Curve, s: ExtendedSecret): Outcome<ExtendedPublic> {
    if Secret(c, s.secret) then Done(ExtendedPublic(c.point(s.secret), s.chainCode)) else Failed(InvalidPoint)
  }

  datatype ExtendedKeyPair = ExtendedKeyPair(secret: ExtendedSecret, public: ExtendedPublic)

  /** `ExtendedKeyPair::derive`. */
  function DerivePair(c: Curve, p: ExtendedKeyPair, d: Derivation): Outcome<ExtendedKeyPair>
    requires c.order > 0
  {
    var s := DeriveSecret(c, p.secret, d);
    if !s.Done? then Panicked
    else
      var q := PublicOf(c, s.value);
      if q.Done? then Done(ExtendedKeyPair(s.value, q.value)) else Failed(InvalidPoint)
  }

  // ---------------------------------------------------------------- one step

  /** The hashed key of a soft step from a secret. */
  function StepKey(c: Curve, s: ExtendedSecret, index: Bytes): nat {
    c.hmac(s.chainCode, SoftData(c, c.point(s.secret), index)).0
  }

  /** The hashed key is a secret itself, and does not cancel the parent. */
  predicate Derivable(c: Curve, s: ExtendedSecret, index: Bytes)
    requires c.order > 0
  {
    var key := StepKey(c, s, index);
    0 < key < c.order && (key + s.secret) % c.order != 0
  }

  /** From the public key of a secret: exactly when a step succeeds, and what it then is. */
  lemma OneStep(c: Curve, s: ExtendedSecret, index: Bytes)
    requires Lawful(c) && Secret(c, s.secret)
    ensures var q := DerivePublic(c, PublicOf(c, s).value, Soft(index));
            var t := DeriveSecret(c, s, Soft(index));
            && t.Done?
            && (q.Done? <==> Derivable(c, s, index))
            && (q.Done? ==> Secret(c, t.value.secret) && q == PublicOf(c, t.value))
            && (q == Failed(MissingIndex) <==> StepKey(c, s, index) >= c.order)
            && (q.Failed? ==> q.error == MissingIndex)
  {
    var key := StepKey(c, s, index);
    assert c.onCurve(c.point(s.secret));
    if 0 < key < c.order {
      assert c.add(c.point(key), c.point(s.secret))
          == if (key + s.secret) % c.order == 0 then None else Some(c.point((key + s.secret) % c.order));
    }
  }

  // ---------------------------------------------------------------- whole paths

  function SecretPath(c: Curve, s: ExtendedSecret, path: seq<Derivation>): Outcome<ExtendedSecret>
    requires c.order > 0
    decreases |path|
  {
    if path == [] then Done(s)
    else
      var t := DeriveSecret(c, s, path[0]);
      if t.Done? then SecretPath(c, t.value, path[1..]) else t
  }

  function PublicPath(c: Curve, p: ExtendedPublic, path: seq<Derivation>): Outcome<ExtendedPublic>
    decreases |path|
  {
    if path == [] then Done(p)
    else
      var q := DerivePublic(c, p, path[0]);
      if q.Done? then PublicPath(c, q.value, path[1..]) else q
  }

  /** Every step of the path is soft and derivable from the secret it starts at. */
  predicate DerivablePath(c: Curve, s: ExtendedSecret, path: seq<Derivation>)
    requires c.order > 0
    decreases |path|
  {
    path == [] ||
    (path[0].Soft? && Secret(c, s.secret) && Derivable(c, s, path[0].index)
     && DerivablePath(c, DeriveSecret(c, s, path[0]).value, path[1..]))
  }

  /**
   Whenever public derivation succeeds along a path, it is the public key and the chain
   code of the secret derived along the same path; and it succeeds for exactly the
   derivable paths.
   */
  lemma {:induction false} PublicIsPublicOfPrivate(c: Curve, s: ExtendedSecret, path: seq<Derivation>)
    requires Lawful(c) && Secret(c, s.secret)
    ensures var q := PublicPath(c, PublicOf(c, s).value, path);
            && (q.Done? <==> DerivablePath(c, s, path))
            && (q.Done? ==> SecretPath(c, s, path).Done? && q == PublicOf(c, SecretPath(c, s, path).value))
    decreases |path|
  {
    if path != [] && path[0].Soft? {
      OneStep(c, s, path[0].index);
      var t := DeriveSecret(c, s, path[0]).value;
      if Derivable(c, s, path[0].index) { PublicIsPublicOfPrivate(c, t, path[1..]); }
    }
  }

  /** A path with a hard step cannot be derived from public keys. */
  lemma {:induction false} HardStepsNeedTheSecret(c: Curve, p: ExtendedPublic, path: seq<Derivation>, i: nat)
    requires i < |path| && path[i].Hard?
    ensures !PublicPath(c, p, path).Done?
    decreases |path|
  {
    if i > 0 {
      var q := DerivePublic(c, p, path[0]);
      if q.Done? { HardStepsNeedTheSecret(c, q.value, path[1..], i - 1); }
    }
  }

  /** So with indexes as steps: only paths of indexes in the lower half can be derived from public keys. */
  lemma UpperIndexesNeedTheSecret(c: Curve, p: ExtendedPublic, indexes: seq<nat>)
    requires PublicPath(c, p, seq(|indexes|, i requires 0 <= i < |indexes| => FromIndex(indexes[i]))).Done?
    ensures forall i :: 0 <= i < |indexes| ==> indexes[i] < 0x8000_0000
  {
    var path := seq(|indexes|, i requires 0 <= i < |indexes| => FromIndex(indexes[i]));
    forall i | 0 <= i < |indexes| ensures indexes[i] < 0x8000_0000 {
      if path[i].Hard? { HardStepsNeedTheSecret(c, p, path, i); }
    }
  }

  /** A consistent pair stays consistent, and where its public half can go alone the pair goes too. */
  lemma PairsStayConsistent(c: Curve, s: ExtendedSecret, d: Derivation)
    requires Lawful(c) && Secret(c, s.secret)
    ensures var pair := ExtendedKeyPair(s, PublicOf(c, s).value);
            var next := DerivePair(c, pair, d);
            && (next.Done? ==> PublicOf(c, next.value.secret) == Done(next.value.public))
            && (DerivePublic(c, pair.public, d).Done? ==>
                  next.Done? && Done(next.value.public) == DerivePublic(c, pair.public, d))
            && !next.Panicked?
  {
    if d.Soft? { OneStep(c, s, d.index); }
  }

  // ---------------------------------------------------------------- steps that public derivation refuses

  /** A curve whose points are the numbers themselves, with a fixed hash. */
  function Residues(order: nat, key: nat): Curve
    requires order > 1
  {
    Curve(order, k => [k], b => |b| == 1 && 0 < b[0] < order,
          (a, b) => if |a| != 1 || |b| != 1 || (a[0] + b[0]) % order == 0 then None
                    else Some([(a[0] + b[0]) % order]),
          b => b, (code, data) => (key, code))
  }

  lemma ResiduesAreLawful(order: nat, key: nat)
    requires order > 1
    ensures Lawful(Residues(order, key))
  {
  }

  /**
   The converse fails: where the hashed key is not below the order, private derivation
   goes on without notice while public derivation reports the index as missing.
   */
  lemma PrivateGoesOn()
    ensures var c := Residues(7, 9);
            && Lawful(c)
            && DeriveSecret(c, ExtendedSecret(3, 0), Soft([])) == Done(ExtendedSecret(5, 0))
            && DerivePublic(c, PublicOf(c, ExtendedSecret(3, 0)).value, Soft([])) == Failed(MissingIndex)
  {
    ResiduesAreLawful(7, 9);
  }

  // ---------------------------------------------------------------- where private derivation panics

  /** The hashed key of a step, soft or hard. */
  function HashedKey(c: Curve, s: ExtendedSecret, d: Derivation): nat {
    match d
    case Soft(index) => StepKey(c, s, index)
    case Hard(index) => c.hmac(s.chainCode, HardData(s.secret, index)).0
  }

  /** The hashed key cancels the secret, and zero is derived. */
  predicate Cancels(c: Curve, s: ExtendedSecret, d: Derivation)
    requires c.order > 0
  {
    (HashedKey(c, s, d) + s.secret) % c.order == 0
  }

  lemma {:induction false} PathSplit(c: Curve, s: ExtendedSecret, path: seq<Derivation>, i: nat)
    requires c.order > 0 && i <= |path| && SecretPath(c, s, path[..i]).Done?
    ensures SecretPath(c, s, path) == SecretPath(c, SecretPath(c, s, path[..i]).value, path[i..])
    decreases i
  {
    if i > 0 {
      assert path[..i][1..] == path[1..][..i - 1] && path[1..][i - 1..] == path[i..];
      PathSplit(c, DeriveSecret(c, s, path[0]).value, path[1..], i - 1);
    }
  }

  /** A path that does not get through stops at a soft step from a number that is no secret. */
  lemma {:induction false} StopsAtSoftStep(c: Curve, s: ExtendedSecret, path: seq<Derivation>) returns (i: nat)
    requires c.order > 0 && !SecretPath(c, s, path).Done?
    ensures SecretPath(c, s, path) == Panicked
    ensures i < |path| && path[i].Soft? && SecretPath(c, s, path[..i]).Done?
    ensures !Secret(c, SecretPath(c, s, path[..i]).value.secret)
    decreases |path|
  {
    var t := DeriveSecret(c, s, path[0]);
    if !t.Done? {
      i := 0;
    } else {
      var j := StopsAtSoftStep(c, t.value, path[1..]);
      i := j + 1;
      assert path[..i][1..] == path[1..][..j];
    }
  }

  /** What a step derives is a secret exactly if the step does not cancel. */
  lemma LastStep(c: Curve, s: ExtendedSecret, path: seq<Derivation>, i: nat)
    requires c.order > 0 && 0 < i <= |path| && SecretPath(c, s, path[..i]).Done?
    ensures SecretPath(c, s, path[..i - 1]).Done?
    ensures Cancels(c, SecretPath(c, s, path[..i - 1]).value, path[i - 1])
       <==> !Secret(c, SecretPath(c, s, path[..i]).value.secret)
  {
    var init := path[..i - 1];
    assert path[..i][..i - 1] == init && path[..i][i - 1..] == [path[i - 1]];
    if SecretPath(c, s, init).Done? {
      PathSplit(c, s, path[..i], i - 1);
      OneMore(c, SecretPath(c, s, init).value, path[i - 1]);
    } else {
      var j := StopsAtSoftStep(c, s, init);
      assert path[..i][..j] == init[..j];
      PathSplit(c, s, path[..i], j);
      assert false;
    }
  }

  lemma OneMore(c: Curve, s: ExtendedSecret, d: Derivation)
    requires c.order > 0
    ensures SecretPath(c, s, [d]) == DeriveSecret(c, s, d)
  {
    assert [d][1..] == [];
  }

  /** The step before the soft step `i` cancels the secret it starts from. */
  predicate CancelledBefore(c: Curve, s: ExtendedSecret, path: seq<Derivation>, i: nat)
    requires c.order > 0
  {
    && 0 < i < |path| && path[i].Soft?
    && SecretPath(c, s, path[..i - 1]).Done? && Cancels(c, SecretPath(c, s, path[..i - 1]).value, path[i - 1])
  }

  /** From a secret, derivation along a path panics exactly if a soft step follows a step that cancelled. */
  lemma PathPanicsExactly(c: Curve, s: ExtendedSecret, path: seq<Derivation>)
    requires Secret(c, s.secret)
    ensures SecretPath(c, s, path) == Panicked <==> exists i :: CancelledBefore(c, s, path, i)
    ensures SecretPath(c, s, path) == Panicked || SecretPath(c, s, path).Done?
  {
    if !SecretPath(c, s, path).Done? {
      var i := StopsAtSoftStep(c, s, path);
      assert i > 0;
      LastStep(c, s, path, i);
      assert CancelledBefore(c, s, path, i);
    }
    if i: nat :| CancelledBefore(c, s, path, i) { CancelledPanics(c, s, path, i); }
  }

  lemma CancelledPanics(c: Curve, s: ExtendedSecret, path: seq<Derivation>, i: nat)
    requires c.order > 0 && CancelledBefore(c, s, path, i)
    ensures SecretPath(c, s, path) == Panicked
  {
    PathSplit(c, s, path, i - 1);
    var before, rest := SecretPath(c, s, path[..i - 1]).value, path[i - 1..];
    var t := DeriveSecret(c, before, path[i - 1]);
    assert rest[0] == path[i - 1] && rest[1..] == path[i..];
    if t.Done? { assert DeriveSecret(c, t.value, path[i..][0]) == Panicked; }
  }

  /** After one step of any kind, a soft step panics exactly if that step cancelled the secret. */
  lemma CancelledSecretPanicsNext(c: Curve, s: ExtendedSecret, d: Derivation, next: Bytes)
    requires Secret(c, s.secret)
    ensures SecretPath(c, s, [d, Soft(next)]) == Panicked <==> Cancels(c, s, d)
  {
    var t := DeriveSecret(c, s, d).value;
    assert [d, Soft(next)][1..] == [Soft(next)];
    OneMore(c, t, Soft(next));
    assert Secret(c, t.secret) <==> !Cancels(c, s, d);
  }

  // ---------------------------------------------------------------- the chain code of a secret

  function Iterate(hash: Bytes -> Bytes, n: nat, b: Bytes): Bytes {
    if n == 0 then b else hash(Iterate(hash, n - 1, b))
  }

  /** One hash and 99999 rounds more: a hundred thousand in all. */
  method ChainCode(hash: Bytes -> Bytes, secret: Bytes) returns (running: Bytes)
    ensures running == Iterate(hash, 100_000, secret)
  {
    running := hash(secret);
    assert Iterate(hash, 1, secret) == hash(Iterate(hash, 0, secret));
    for i := 0 to 99_999
      invariant running == Iterate(hash, i + 1, secret)
    {
      running := hash(running);
    }
  }
}
