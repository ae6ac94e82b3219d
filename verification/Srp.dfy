/** The SRP-6a client: modular arithmetic, and why a genuine server agrees with it. */
module ModularPower {

  function Pow(b: nat, e: nat): nat {
    if e == 0 then 1 else b * Pow(b, e - 1)
  }

  lemma {:induction false} PowSum(b: nat, m: nat, n: nat)
    ensures Pow(b, m + n) == Pow(b, m) * Pow(b, n)
  {
    if m == 0 {
    } else {
      PowSum(b, m - 1, n);
      MulAssociates(b, Pow(b, m - 1), Pow(b, n));
    }
  }

  lemma MulAssociates(a: int, b: int, c: int)
    ensures a * b * c == a * (b * c)
  {
  }

  lemma {:induction false} PowOfPow(b: nat, m: nat, n: nat)
    ensures Pow(Pow(b, m), n) == Pow(b, m * n)
  {
    if n > 0 {
      PowOfPow(b, m, n - 1);
      PowSum(b, m, m * (n - 1));
      assert m * n == m + m * (n - 1);
    } else {
      assert m * 0 == 0;
    }
  }

  // ---- congruence -------------------------------------------------------------------

  ghost predicate Congruent(a: int, b: int, n: nat)
    requires n > 0
  {
    exists q: int :: a == b + q * n
  }

  lemma ModCongruent(a: int, n: nat)
    requires n > 0
    ensures Congruent(a % n, a, n)
  {
    assert a == a / n * n + a % n;
    assert a % n == a + (-(a / n)) * n;
  }

  lemma CongruentMod(a: int, b: int, n: nat)
    requires n > 0 && Congruent(a, b, n)
    ensures a % n == b % n
  {
    var q: int :| a == b + q * n;
    var qa, qb, ra, rb := a / n, b / n, a % n, b % n;
    assert a == qa * n + ra && b == qb * n + rb;
    var d := qa - qb - q;
    assert ra == rb - d * n by {
      Distribute(qa, qb, q, n);
    }
    assert (-d) * n == -(d * n);
    if d >= 1 {
      AtLeast(d, n);
    } else if d <= -1 {
      AtLeast(-d, n);
    }
  }

  lemma Distribute(a: int, b: int, c: int, n: int)
    ensures (a - b - c) * n == a * n - b * n - c * n
  {
  }

  lemma AtLeast(d: int, n: nat)
    requires d >= 1
    ensures d * n >= n
  {
    assert d * n == n + (d - 1) * n;
    MulNonNegative(d - 1, n);
  }

  lemma MulNonNegative(a: int, b: int)
    requires a >= 0 && b >= 0
    ensures a * b >= 0
  {
  }

  lemma CongruentTwice(a: int, b: int, c: int, n: nat)
    requires n > 0 && Congruent(a, b, n) && Congruent(b, c, n)
    ensures Congruent(a, c, n)
  {
    var p: int :| a == b + p * n;
    var q: int :| b == c + q * n;
    assert p * n + q * n == (p + q) * n;
    assert a == c + (p + q) * n;
  }

  lemma CongruentProduct(a: int, b: int, c: int, d: int, n: nat)
    requires n > 0 && Congruent(a, b, n) && Congruent(c, d, n)
    ensures Congruent(a * c, b * d, n)
  {
    var p: int :| a == b + p * n;
    var q: int :| c == d + q * n;
    ProductExpands(b, p, d, q, n);
    assert a * c == b * d + (b * q + p * d + p * q * n) * n;
  }

  lemma ProductExpands(b: int, p: int, d: int, q: int, n: int)
    ensures (b + p * n) * (d + q * n) == b * d + (b * q + p * d + p * q * n) * n
  {
    assert (b + p * n) * (d + q * n) == b * d + b * (q * n) + p * n * d + p * n * (q * n);
    assert b * (q * n) == b * q * n && p * n * d == p * d * n && p * n * (q * n) == p * q * n * n;
  }

  lemma {:induction false} CongruentPow(a: nat, b: nat, e: nat, n: nat)
    requires n > 0 && Congruent(a, b, n)
    ensures Congruent(Pow(a, e), Pow(b, e), n)
  {
    if e == 0 {
      assert Pow(a, 0) == Pow(b, 0) + 0 * n;
    } else {
      CongruentPow(a, b, e - 1, n);
      CongruentProduct(a, b, Pow(a, e - 1), Pow(b, e - 1), n);
    }
  }
}

module Srp {
  import opened Tables
  import opened Files
  import opened ModularPower

  /** A hash of a byte string; nothing else is known about it. */
  type Hash = Bytes -> Bytes

  /** The group: modulus and generator. */
  datatype Group = Group(n: nat, g: nat)

  /** Padding, proof and secret of one side must be computed alike. */
  datatype Proof = Proof(m1: Bytes, m2: Bytes)

  // ---- numbers and bytes -----------------------------------------------------------------

  function ToUint(bytes: Bytes): nat {
    if bytes == [] then 0 else ToUint(bytes[..|bytes| - 1]) * 256 + bytes[|bytes| - 1]
  }

  /** Minimal big-endian encoding; zero is the empty string. */
  function ToBytes(n: nat): Bytes {
    if n == 0 then [] else ToBytes(n / 256) + [n % 256]
  }

  function Pad(bytes: Bytes, width: nat): Bytes {
    Zeros(if |bytes| < width then width - |bytes| else 0) + bytes
  }

  lemma {:induction false} BytesRoundTrip(n: nat)
    ensures ToUint(ToBytes(n)) == n
    ensures n > 0 ==> ToBytes(n) != [] && ToBytes(n)[0] != 0
  {
    if n > 0 {
      BytesRoundTrip(n / 256);
      var bytes := ToBytes(n);
      assert bytes[..|bytes| - 1] == ToBytes(n / 256);
    }
  }

  lemma {:induction false} LeadingZeros(zeros: nat, bytes: Bytes)
    ensures ToUint(Zeros(zeros) + bytes) == ToUint(bytes)
  {
    var all := Zeros(zeros) + bytes;
    if bytes != [] {
      LeadingZeros(zeros, bytes[..|bytes| - 1]);
      assert all[..|all| - 1] == Zeros(zeros) + bytes[..|bytes| - 1];
    } else if zeros > 0 {
      LeadingZeros(zeros - 1, []);
      assert all[..|all| - 1] == Zeros(zeros - 1) + [];
    }
  }

  /** Padding changes the width, not the number: different public values hash differently. */
  lemma PaddedValue(n: nat, width: nat)
    ensures ToUint(Pad(ToBytes(n), width)) == n
    ensures |Pad(ToBytes(n), width)| >= width
  {
    var bytes := ToBytes(n);
    BytesRoundTrip(n);
    LeadingZeros(if |bytes| < width then width - |bytes| else 0, bytes);
  }

  // ---- the client ----------------------------------------------------------------------------

  function PowMod(b: nat, e: nat, n: nat): nat
    requires n > 0
  {
    Pow(b, e) % n
  }

  function PublicA(group: Group, a: nat): nat
    requires group.n > 0
  {
    PowMod(group.g, a, group.n)
  }

  function Multiplier(group: Group, hash: Hash): nat {
    ToUint(hash(ToBytes(group.n) + Pad(ToBytes(group.g), |ToBytes(group.n)|)))
  }

  function Scrambler(group: Group, hash: Hash, publicA: nat, publicB: nat): nat {
    var width := |ToBytes(group.n)|;
    ToUint(hash(Pad(ToBytes(publicA), width) + Pad(ToBytes(publicB), width)))
  }

  /** The user name is deliberately absent. */
  function PrivateX(hash: Hash, salt: Bytes, password: Bytes): nat {
    ToUint(hash(salt + hash([58] + password)))
  }

  function Verifier(group: Group, x: nat): nat
    requires group.n > 0
  {
    PowMod(group.g, x, group.n)
  }

  /** `(B - k v) mod N`, kept non-negative. */
  function Unblinded(group: Group, k: nat, v: nat, publicB: nat): nat
    requires group.n > 0
  {
    var kv := (k * v) % group.n;
    var sum := publicB % group.n + group.n;
    assert kv <= sum;
    (sum - kv) % group.n
  }

  function ClientSecret(group: Group, a: nat, u: nat, x: nat, k: nat, v: nat, publicB: nat): nat
    requires group.n > 0
  {
    PowMod(Unblinded(group, k, v, publicB), a + u * x, group.n)
  }

  function XorByte(a: Byte, b: Byte): Byte {
    ((a as bv8) ^ (b as bv8)) as int
  }

  function XorAll(a: Bytes, b: Bytes): Bytes {
    var len := if |a| <= |b| then |a| else |b|;
    seq(len, i requires 0 <= i < len => XorByte(a[i], b[i]))
  }

  function GroupTerm(group: Group, hash: Hash): Bytes {
    XorAll(hash(ToBytes(group.n)), hash(Pad(ToBytes(group.g), |ToBytes(group.n)|)))
  }

  /** Both proofs from the shared secret. */
  function Proofs(group: Group, hash: Hash, username: Bytes, salt: Bytes, publicA: nat, publicB: nat,
                  secret: nat): Proof {
    var key := hash(ToBytes(secret));
    var m1 := hash(GroupTerm(group, hash) + hash(username) + salt + ToBytes(publicA) + ToBytes(publicB) + key);
    Proof(m1, hash(ToBytes(publicA) + m1 + key))
  }

  /** Answer the server's challenge, or refuse values that violate the safety checks. */
  function ProcessChallenge(group: Group, hash: Hash, a: nat, username: Bytes, password: Bytes, salt: Bytes,
                            serverPublic: Bytes): Option<Proof>
    requires group.n > 0
  {
    var publicB := ToUint(serverPublic);
    if publicB % group.n == 0 then None
    else
      var k := Multiplier(group, hash);
      var u := Scrambler(group, hash, PublicA(group, a), publicB);
      if u == 0 then None
      else
        var x := PrivateX(hash, salt, password);
        var v := Verifier(group, x);
        var secret := ClientSecret(group, a, u, x, k, v, publicB);
        Some(Proofs(group, hash, username, salt, PublicA(group, a), publicB, secret))
  }

  // ---- the server, as section 2.6 of RFC 5054 and section 3 of RFC 2945 describe it -------------

  /** `v = g^x` with `x = H(s | H(":" | P))`: the user name is left out of `x`. */
  function Registered(group: Group, hash: Hash, salt: Bytes, password: Bytes): nat
    requires group.n > 0
  {
    Pow(group.g, ToUint(hash(salt + hash([':' as int] + password)))) % group.n
  }

  /** `k = H(N | PAD(g))`. */
  function ServerMultiplier(group: Group, hash: Hash): nat {
    var modulus := ToBytes(group.n);
    ToUint(hash(modulus + Pad(ToBytes(group.g), |modulus|)))
  }

  /** `u = H(PAD(A) | PAD(B))`. */
  function ServerScrambler(group: Group, hash: Hash, publicA: nat, publicB: nat): nat {
    var modulus := ToBytes(group.n);
    ToUint(hash(Pad(ToBytes(publicA), |modulus|) + Pad(ToBytes(publicB), |modulus|)))
  }

  /** `M1 = H(H(N) XOR H(PAD(g)) | H(U) | s | A | B | K)` and `M2 = H(A | M1 | K)`, with `K = H(S)`. */
  ghost predicate AreServerProofs(group: Group, hash: Hash, username: Bytes, salt: Bytes, publicA: nat, publicB: nat,
                                  v: nat, b: nat, proof: Proof)
    requires group.n > 0
  {
    var modulus := ToBytes(group.n);
    var key := hash(ToBytes(ServerSecret(group, publicA, v, ServerScrambler(group, hash, publicA, publicB), b)));
    exists mixed ::
      && IsXor(hash(modulus), hash(Pad(ToBytes(group.g), |modulus|)), mixed)
      && proof.m1 == hash(mixed + hash(username) + salt + ToBytes(publicA) + ToBytes(publicB) + key)
      && proof.m2 == hash(ToBytes(publicA) + proof.m1 + key)
  }

  /** Byte by byte, as far as both go. */
  predicate IsXor(a: Bytes, b: Bytes, mixed: Bytes) {
    && |mixed| == (if |a| <= |b| then |a| else |b|)
    && forall i :: 0 <= i < |mixed| ==> (mixed[i] as bv8) == (a[i] as bv8) ^ (b[i] as bv8)
  }

  lemma XorAllIsXor(a: Bytes, b: Bytes)
    ensures IsXor(a, b, XorAll(a, b))
  {
    forall i | 0 <= i < |XorAll(a, b)| ensures (XorAll(a, b)[i] as bv8) == (a[i] as bv8) ^ (b[i] as bv8) {
      assert XorAll(a, b)[i] == XorByte(a[i], b[i]);
    }
  }

  /** `B = k v + g^b`, or anything congruent to it. */
  ghost predicate IsServerPublic(group: Group, k: nat, v: nat, b: nat, publicB: nat)
    requires group.n > 0
  {
    Congruent(publicB, k * v + Pow(group.g, b), group.n)
  }

  /** `(A v^u)^b mod N`. */
  function ServerSecret(group: Group, publicA: nat, v: nat, u: nat, b: nat): nat
    requires group.n > 0
  {
    PowMod(publicA * Pow(v, u), b, group.n)
  }

  lemma DivMod(a: nat, n: nat)
    requires n > 0
    ensures a % n == a - a / n * n
  {
  }

  lemma Unblinding(publicB: nat, kv: nat, gb: nat, n: nat)
    requires n > 0 && Congruent(publicB, kv + gb, n)
    ensures Congruent(publicB % n + n - kv % n, gb, n)
  {
    var q: int :| publicB == kv + gb + q * n;
    DivMod(publicB, n);
    DivMod(kv, n);
    FourTerms(q, publicB / n, kv / n, n);
    assert publicB % n + n - kv % n == gb + (q - publicB / n + 1 + kv / n) * n;
  }

  /** Taking the blinding away leaves `g^b`. */
  lemma UnblindedIsGb(group: Group, k: nat, v: nat, b: nat, publicB: nat)
    requires group.n > 0 && IsServerPublic(group, k, v, b, publicB)
    ensures Congruent(Unblinded(group, k, v, publicB), Pow(group.g, b), group.n)
  {
    var n, gb := group.n, Pow(group.g, b);
    Unblinding(publicB, k * v, gb, n);
    var sum := publicB % n + n - (k * v) % n;
    ModCongruent(sum, n);
    CongruentTwice(sum % n, sum, gb, n);
  }

  lemma FourTerms(a: int, b: int, c: int, n: int)
    ensures (a - b + 1 + c) * n == a * n - b * n + n + c * n
  {
  }

  /** The client's side of the exponents. */
  lemma ClientExponent(g: nat, a: nat, b: nat, u: nat, x: nat)
    ensures Pow(Pow(g, b), a + u * x) == Pow(Pow(g, a) * Pow(Pow(g, x), u), b)
  {
    var e := a + u * x;
    PowOfPow(g, b, e);
    PowOfPow(g, x, u);
    PowSum(g, a, x * u);
    PowOfPow(g, e, b);
    assert b * e == e * b && x * u == u * x;
  }

  /** Client and server arrive at the same secret, for every group, every exponent and every
      multiplier and scrambler. */
  lemma SecretsAgree(group: Group, a: nat, b: nat, u: nat, x: nat, k: nat, publicB: nat)
    requires group.n > 0 && IsServerPublic(group, k, Verifier(group, x), b, publicB)
    ensures ClientSecret(group, a, u, x, k, Verifier(group, x), publicB) ==
            ServerSecret(group, PublicA(group, a), Verifier(group, x), u, b)
  {
    var n, g, v := group.n, group.g, Verifier(group, x);
    var base, e := Unblinded(group, k, v, publicB), a + u * x;
    UnblindedIsGb(group, k, v, b, publicB);
    CongruentPow(base, Pow(g, b), e, n);
    CongruentMod(Pow(base, e), Pow(Pow(g, b), e), n);
    ClientExponent(g, a, b, u, x);
    ServerBase(group, a, u, x);
    CongruentPow(PublicA(group, a) * Pow(v, u), Pow(g, a) * Pow(Pow(g, x), u), b, n);
    CongruentMod(Pow(PublicA(group, a) * Pow(v, u), b), Pow(Pow(g, a) * Pow(Pow(g, x), u), b), n);
  }

  lemma ServerBase(group: Group, a: nat, u: nat, x: nat)
    requires group.n > 0
    ensures Congruent(PublicA(group, a) * Pow(Verifier(group, x), u),
                      Pow(group.g, a) * Pow(Pow(group.g, x), u), group.n)
  {
    ModCongruent(Pow(group.g, a), group.n);
    ModCongruent(Pow(group.g, x), group.n);
    CongruentPow(Verifier(group, x), Pow(group.g, x), u, group.n);
    CongruentProduct(PublicA(group, a), Pow(group.g, a), Pow(Verifier(group, x), u), Pow(Pow(group.g, x), u), group.n);
  }

  /** A server that knows the verifier accepts the client's proof, and the client accepts the
      server's, whatever the hash; the handshake is refused exactly on the two unsafe values. */
  lemma HandshakeAgrees(group: Group, hash: Hash, a: nat, b: nat, username: Bytes, password: Bytes, salt: Bytes,
                        serverPublic: Bytes)
    requires group.n > 0
    requires IsServerPublic(group, ServerMultiplier(group, hash), Registered(group, hash, salt, password), b,
                            ToUint(serverPublic))
    ensures var publicA, publicB := Pow(group.g, a) % group.n, ToUint(serverPublic);
            var proof := ProcessChallenge(group, hash, a, username, password, salt, serverPublic);
            && (proof.None? <==> publicB % group.n == 0 || ServerScrambler(group, hash, publicA, publicB) == 0)
            && (proof.Some? ==> AreServerProofs(group, hash, username, salt, publicA, publicB,
                                                Registered(group, hash, salt, password), b, proof.value))
  {
    var publicA, publicB := PublicA(group, a), ToUint(serverPublic);
    var u, x := Scrambler(group, hash, publicA, publicB), PrivateX(hash, salt, password);
    assert Registered(group, hash, salt, password) == Verifier(group, x);
    SecretsAgree(group, a, b, u, x, Multiplier(group, hash), publicB);
    XorAllIsXor(hash(ToBytes(group.n)), hash(Pad(ToBytes(group.g), |ToBytes(group.n)|)));
  }

  // ---- encodings are unique ---------------------------------------------------------------------

  /** Two encodings of one number in one width are the same: padded public values are told apart. */
  lemma {:induction false} EncodingUnique(a: Bytes, b: Bytes)
    requires |a| == |b| && ToUint(a) == ToUint(b)
    ensures a == b
  {
    if a != [] {
      var i, j := a[..|a| - 1], b[..|b| - 1];
      assert ToUint(i) == ToUint(j) && a[|a| - 1] == b[|b| - 1];
      EncodingUnique(i, j);
      assert a == i + [a[|a| - 1]] && b == j + [b[|b| - 1]];
    }
  }
}
