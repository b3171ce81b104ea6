/** Diffie-Hellman key agreement (examples/diffie-hellman/diffiehellman.py). */
module DiffieHellman {
  import opened Common

  function Power(base: nat, exponent: nat): nat {
    if exponent == 0 then 1 else base * Power(base, exponent - 1)
  }

  /** `pow(base, exponent, modulus)` */
  function PowerMod(base: nat, exponent: nat, modulus: nat): nat
    requires modulus >= 1
  {
    Power(base, exponent) % modulus
  }

  predicate Acceptable(key: int, prime: nat)
    requires prime >= 1
  {
    2 < key < prime - 1 && PowerMod(key, (prime - 1) / 2, prime) == 1
  }

  function BitLength(n: nat): nat {
    if n == 0 then 0 else 1 + BitLength(n / 2)
  }

  /** `n.to_bytes(length, 'big')`, which fails when n does not fit. */
  function ToBytes(n: nat, length: nat): Option<Bytes>
    decreases length
  {
    if length == 0 then (if n == 0 then Some([]) else None)
    else match ToBytes(n / 256, length - 1)
         case None => None
         case Some(front) => var low: byte := n % 256; Some(front + [low])
  }

  /** `int.from_bytes(b, 'big')` */
  function FromBytes(b: Bytes): nat {
    if b == [] then 0 else FromBytes(b[..|b| - 1]) * 256 + b[|b| - 1] as nat
  }

  function Encoding(secret: nat): Option<Bytes> {
    ToBytes(secret, BitLength(secret) / 8 + 1)
  }

  // ---------------------------------------------------------------- the code

  datatype KeyError = InvalidKey

  /** `K` is what the hash function makes of bytes. */
  class Party<!K(!new)> {
    const prime: nat
    const generator: nat
    const privateKey: nat
    const publicKey: nat
    const hash: Bytes -> K
    var sharedSecret: Option<nat>
    var key: Option<K>

    ghost predicate Valid()
      reads this
    {
      && prime > 1 && generator == 2
      && publicKey == PowerMod(generator, privateKey, prime)
      && (sharedSecret.Some? ==> sharedSecret.value < prime)
    }

    /** The random bytes of the private key are given. */
    constructor (prime: nat, random: Bytes, hash: Bytes -> K)
      requires prime > 1
      ensures Valid() && this.prime == prime && this.hash == hash && privateKey == FromBytes(random)
      ensures sharedSecret == None && key == None
    {
      this.prime, this.generator, this.hash := prime, 2, hash;
      privateKey := FromBytes(random);
      publicKey := PowerMod(2, FromBytes(random), prime);
      sharedSecret, key := None, None;
    }

    method CheckPublicKey(other: int) returns (ok: bool)
      requires Valid()
      ensures ok == Acceptable(other, prime)
      ensures ok <==> 2 < other < prime - 1 && Power(other, (prime - 1) / 2) % prime == 1
      ensures ok ==> other > 2 && forall x: nat :: PowerMod(other, x, prime) != 0
    {
      if 2 < other < prime - 1 {
        if PowerMod(other, (prime - 1) / 2, prime) == 1 {
          forall x: nat ensures PowerMod(other, x, prime) != 0 { AcceptedKey(other, x, prime); }
          return true;
        }
      }
      return false;
    }

    /** The encoding never overflows, so that the only error is a key that is not acceptable. */
    method MakeSharedSecretAndKey(other: int) returns (error: Option<KeyError>)
      requires Valid()
      modifies this
      ensures Valid()
      ensures error == if Acceptable(other, prime) then None else Some(InvalidKey)
      ensures error.Some? ==> sharedSecret == old(sharedSecret) && key == old(key)
      ensures error.None? ==>
                && sharedSecret == Some(Power(other, privateKey) % prime)
                && exists b :: Encoding(sharedSecret.value) == Some(b) && FromBytes(b) == sharedSecret.value
                               && key == Some(hash(b)) && |b| > 0
                               // the shortest encoding that leaves the first bit free
                               && sharedSecret.value < Power(2, 8 * |b| - 1)
                               && (|b| > 1 ==> sharedSecret.value >= Power(2, 8 * |b| - 9))
    {
      var ok := CheckPublicKey(other);
      if !ok { return Some(InvalidKey); }
      var secret := PowerMod(other, privateKey, prime);
      SecretFits(secret);
      ShortestSigned(secret);
      KeepKey(secret);
      error := None;
    }

    method KeepKey(secret: nat)
      requires Valid() && secret < prime && Encoding(secret).Some?
      modifies this
      ensures Valid() && sharedSecret == Some(secret) && key == Some(hash(Encoding(secret).value))
    {
      sharedSecret := Some(secret);
      key := Some(hash(Encoding(secret).value));
    }
  }

  /** Two parties with one modulus and one hash make their secrets from each other's public keys: either both keys
      are acceptable to both sides, and they have the same secret and the same key, or somebody reports an error. */
  method Agree<K(!new)>(a: Party<K>, b: Party<K>) returns (agreed: bool)
    requires a.Valid() && b.Valid() && a != b && a.prime == b.prime && a.hash == b.hash
    modifies a, b
    ensures a.Valid() && b.Valid()
    ensures agreed == (Acceptable(a.publicKey, a.prime) && Acceptable(b.publicKey, b.prime))
    ensures agreed ==> a.sharedSecret.Some? && a.sharedSecret == b.sharedSecret && a.key.Some? && a.key == b.key
  {
    var e := a.MakeSharedSecretAndKey(b.publicKey);
    var f := b.MakeSharedSecretAndKey(a.publicKey);
    SecretsAgree(2, a.privateKey, b.privateKey, a.prime);
    agreed := e.None? && f.None?;
  }

  // -------------------------------------------------------------- agreement

  lemma {:induction false} PowerSum(g: nat, x: nat, y: nat)
    ensures Power(g, x + y) == Power(g, x) * Power(g, y)
  {
    if x > 0 {
      PowerSum(g, x - 1, y);
      assert g * (Power(g, x - 1) * Power(g, y)) == g * Power(g, x - 1) * Power(g, y);
    }
  }

  lemma {:induction false} PowerProduct(g: nat, x: nat, y: nat)
    ensures Power(Power(g, x), y) == Power(g, x * y)
  {
    if y == 0 {
      assert x * 0 == 0;
    } else {
      PowerProduct(g, x, y - 1);
      PowerSum(g, x, x * (y - 1));
      assert x + x * (y - 1) == x * y;
    }
  }

  lemma SameRemainder(a: int, k: int, m: int)
    requires m >= 1
    ensures (a + k * m) % m == a % m
  {
    var q, r := (a + k * m) / m, (a + k * m) % m;
    var x := a / m + k - q;
    assert m * x == m * (a / m) + m * k - m * q;
    assert m * x == r - a % m;
    Bounded(m, x);
  }

  lemma Bounded(m: int, x: int)
    requires m >= 1 && -m < m * x < m
    ensures x == 0
  {}

  /** Reducing a factor does not change the remainder of a product. */
  lemma ReducedFactor(a: nat, b: nat, m: nat)
    requires m >= 1
    ensures (a % m) * b % m == a * b % m
  {
    var q := a / m;
    assert a == a % m + q * m;
    assert a * b == (a % m) * b + (q * b) * m;
    SameRemainder((a % m) * b, q * b, m);
  }

  lemma {:induction false} ReducedBase(a: nat, n: nat, m: nat)
    requires m >= 1
    ensures PowerMod(a % m, n, m) == PowerMod(a, n, m)
  {
    if n > 0 {
      ReducedBase(a, n - 1, m);
      var p, q := Power(a % m, n - 1), Power(a, n - 1);
      ReducedFactor(a, p, m);
      ReducedFactor(p, a, m);
      ReducedFactor(q, a, m);
      assert p * a == a * p && q * a == a * q;
    }
  }

  /** Main result: each side's power of the other's public key is the same secret, for any modulus and any keys. */
  lemma SecretsAgree(g: nat, x: nat, y: nat, m: nat)
    requires m >= 1
    ensures PowerMod(PowerMod(g, y, m), x, m) == PowerMod(PowerMod(g, x, m), y, m) == PowerMod(g, x * y, m)
  {
    ReducedBase(Power(g, y), x, m);
    ReducedBase(Power(g, x), y, m);
    PowerProduct(g, y, x);
    PowerProduct(g, x, y);
    assert x * y == y * x;
  }

  lemma {:induction false} PowersOfOne(n: nat)
    ensures Power(1, n) == 1
  {
    if n > 0 { PowersOfOne(n - 1); }
  }

  lemma PowerOfUnit(g: nat, x: nat, half: nat, m: nat)
    requires m > 1 && PowerMod(g, half, m) == 1
    ensures PowerMod(PowerMod(g, x, m), half, m) == 1
  {
    assert PowerMod(1, x, m) == 1 by { PowersOfOne(x); }
    hide PowerMod;
    SecretsAgree(g, half, x, m);
  }

  /** What accepting a key gives: with any private key the secret passes the same power test, and is not zero. */
  lemma AcceptedKey(key: nat, x: nat, m: nat)
    requires m > 1 && Acceptable(key, m)
    ensures PowerMod(PowerMod(key, x, m), (m - 1) / 2, m) == 1 && PowerMod(key, x, m) != 0
  {
    PowerOfUnit(key, x, (m - 1) / 2, m);
    assert (m - 1) / 2 >= 1;
    assert Power(0, (m - 1) / 2) == 0;
  }

  /** If the generator itself passes the power test, every public key does, and only its range can be at fault. */
  lemma OwnKeysPass(x: nat, m: nat)
    requires m > 1 && PowerMod(2, (m - 1) / 2, m) == 1
    ensures Acceptable(PowerMod(2, x, m), m) <==> 2 < PowerMod(2, x, m) < m - 1
  {
    PowerOfUnit(2, x, (m - 1) / 2, m);
    hide PowerMod;
  }

  // --------------------------------------------------------------- encoding

  lemma {:induction false} FitsExactly(n: nat, length: nat)
    ensures ToBytes(n, length).Some? <==> n < Power(256, length)
    ensures ToBytes(n, length).Some? ==> |ToBytes(n, length).value| == length && FromBytes(ToBytes(n, length).value) == n
  {
    if length > 0 {
      FitsExactly(n / 256, length - 1);
      if ToBytes(n / 256, length - 1).Some? {
        var front := ToBytes(n / 256, length - 1).value;
        var low: byte := n % 256;
        assert (front + [low])[..|front|] == front;
      }
    }
  }

  lemma {:induction false} BitsBound(n: nat)
    ensures n < Power(2, BitLength(n)) && (n > 0 ==> Power(2, BitLength(n) - 1) <= n)
  {
    if n > 0 { BitsBound(n / 2); }
  }

  lemma {:induction false} PowerGrows(g: nat, x: nat, y: nat)
    requires g >= 1 && x <= y
    ensures 1 <= Power(g, x) <= Power(g, y)
  {
    if x < y {
      PowerGrows(g, x, y - 1);
      Larger(g, Power(g, y - 1));
    } else if x > 0 {
      PowerGrows(g, x - 1, x - 1);
      Larger(g, Power(g, x - 1));
    }
  }

  lemma Larger(g: nat, n: nat)
    requires g >= 1
    ensures n <= g * n
  {}

  /** The chosen length always holds the secret, and the bytes read back as the secret: different secrets are
      hashed from different bytes. */
  lemma SecretFits(n: nat)
    ensures Encoding(n).Some? && FromBytes(Encoding(n).value) == n
  {
    var k := BitLength(n) / 8 + 1;
    BitsBound(n);
    PowerGrows(2, BitLength(n), 8 * k);
    PowerProduct(2, 8, k);
    assert Power(2, 8) == 256;
    FitsExactly(n, k);
  }

  /** It is the shortest one that leaves the first bit free. */
  lemma ShortestSigned(n: nat)
    ensures Encoding(n).Some?
    ensures var k := |Encoding(n).value|; k > 0 && n < Power(2, 8 * k - 1) && (k > 1 ==> n >= Power(2, 8 * k - 9))
  {
    var k := BitLength(n) / 8 + 1;
    FitsExactly(n, k);
    SecretFits(n);
    SignedBounds(n, k);
    hide Power, BitLength, ToBytes, FromBytes;
  }

  lemma SignedBounds(n: nat, k: nat)
    requires k == BitLength(n) / 8 + 1
    ensures n < Power(2, 8 * k - 1) && (k > 1 ==> n >= Power(2, 8 * k - 9))
  {
    BitsBound(n);
    Whole(BitLength(n), k);
    BoundsOf(n, BitLength(n), k);
  }

  lemma BoundsOf(n: nat, bits: nat, k: nat)
    requires n < Power(2, bits) && (bits > 0 ==> Power(2, bits - 1) <= n)
    requires bits <= 8 * k - 1 && (k > 1 ==> 0 <= 8 * k - 9 <= bits - 1)
    ensures n < Power(2, 8 * k - 1) && (k > 1 ==> n >= Power(2, 8 * k - 9))
  {
    hide Power;
    PowerGrows(2, bits, 8 * k - 1);
    if k > 1 { PowerGrows(2, 8 * k - 9, bits - 1); }
  }

  lemma Whole(bits: nat, k: nat)
    requires k == bits / 8 + 1
    ensures bits <= 8 * k - 1 && (k > 1 ==> 0 <= 8 * k - 9 <= bits - 1)
  {}
}
