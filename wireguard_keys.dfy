/**
 * Key-pair generation of wireguard/keys.go: 32 random bytes, clamped in place as
 * X25519 requires (the `decodeScalar25519` masking of section 5 of RFC 7748),
 * the public key computed by X25519 with the base point, and both encoded in
 * standard base64 with padding (section 4 of RFC 4648).
 *
 * The random source and the curve multiplication are parameters.
 */
module WireGuardKeys {
  import opened Wrappers

  /** A 32-byte key or scalar. */
  type Key = s: seq<bv8> | |s| == 32 witness seq(32, _ => 0 as bv8)

  /** The clamped scalar: byte 0 masked with 248, byte 31 masked with 127 and then or-ed with 64. */
  function Clamped(k: Key): (r: Key)
    ensures r[0] & 7 == 0
    ensures r[31] & 0x80 == 0 && r[31] & 0x40 == 0x40
    ensures r[0] & 0xF8 == k[0] & 0xF8 && r[31] & 0x3F == k[31] & 0x3F
    ensures forall j :: 1 <= j < 31 ==> r[j] == k[j]
  {
    k[0 := k[0] & 248][31 := (k[31] & 127) | 64]
  }

  /** The contract of `Clamped` determines its result: it is the only key with those bits. */
  lemma ClampedUnique(k: Key, r: Key)
    requires r[0] & 7 == 0
    requires r[31] & 0x80 == 0 && r[31] & 0x40 == 0x40
    requires r[0] & 0xF8 == k[0] & 0xF8 && r[31] & 0x3F == k[31] & 0x3F
    requires forall j :: 1 <= j < 31 ==> r[j] == k[j]
    ensures r == Clamped(k)
  {
    var c := Clamped(k);
    assert r[0] == c[0];
    assert r[31] == c[31];
    assert forall j :: 0 <= j < 32 ==> r[j] == c[j];
  }

  /** Clamping a clamped key changes nothing. */
  lemma ClampedIdempotent(k: Key)
    ensures Clamped(Clamped(k)) == Clamped(k)
  {
    var c := Clamped(k);
    assert Clamped(c)[0] == c[0];
    assert Clamped(c)[31] == c[31];
  }

  /** The clamping statements, on the key array in place. */
  method Clamp(a: array<bv8>)
    requires a.Length == 32
    modifies a
    ensures a[..] == Clamped(old(a[..]))
  {
    a[0] := a[0] & 248;
    a[31] := a[31] & 127;
    a[31] := a[31] | 64;
  }

  // ----- the clamped key as a number (section 5 of RFC 7748) -----

  /** 256 to the power `n`. */
  function Pow256(n: nat): (p: nat)
    ensures p > 0
  {
    if n == 0 then 1 else 256 * Pow256(n - 1)
  }

  /** `decodeLittleEndian`: byte 0 is the least significant. */
  function LittleEndian(s: seq<bv8>): nat
    decreases |s|
  {
    if |s| == 0 then 0 else s[0] as nat + 256 * LittleEndian(s[1..])
  }

  lemma {:induction false} LittleEndianBound(s: seq<bv8>)
    ensures LittleEndian(s) < Pow256(|s|)
    decreases |s|
  {
    if |s| > 0 {
      LittleEndianBound(s[1..]);
    }
  }

  lemma {:induction false} LittleEndianAppend(a: seq<bv8>, b: seq<bv8>)
    ensures LittleEndian(a + b) == LittleEndian(a) + Pow256(|a|) * LittleEndian(b)
    decreases |a|
  {
    if |a| == 0 {
      assert a + b == b;
    } else {
      assert (a + b)[1..] == a[1..] + b;
      LittleEndianAppend(a[1..], b);
    }
  }

  lemma MaskedLowByte(x: bv8)
    ensures (x & 248) as nat % 8 == 0
  {
    assert x & 248 == (x >> 3) << 3;
    assert ((x >> 3) << 3) as nat == 8 * ((x >> 3) as nat);
  }

  lemma MaskedHighByte(x: bv8)
    ensures 64 <= ((x & 127) | 64) as nat < 128
  {
  }

  lemma MultipleOfEight(a: nat, b: nat)
    requires a % 8 == 0
    ensures (a + 256 * b) % 8 == 0
  {
    assert a + 256 * b == 8 * (a / 8 + 32 * b);
  }

  lemma TopByteRange(low: nat, p: nat, top: nat)
    requires low < p && 64 <= top < 128
    ensures 64 * p <= low + p * top < 128 * p
  {
    assert p * top >= p * 64;
    assert p * top + p <= p * 128;
  }

  /**
   * The clamped scalar, read as a little-endian number, is a multiple of 8 and
   * lies in [2^254, 2^255) (2^254 == 64 * 256^31 and 2^255 == 128 * 256^31).
   */
  lemma ClampedScalarRange(k: Key)
    ensures LittleEndian(Clamped(k)) % 8 == 0
    ensures 64 * Pow256(31) <= LittleEndian(Clamped(k)) < 128 * Pow256(31)
  {
    ClampedMultipleOfEight(Clamped(k), k);
    ClampedTopRange(Clamped(k), k);
  }

  lemma ClampedMultipleOfEight(c: Key, k: Key)
    requires c == Clamped(k)
    ensures LittleEndian(c) % 8 == 0
  {
    assert c[0] == k[0] & 248;
    MaskedLowByte(k[0]);
    MultipleOfEight(c[0] as nat, LittleEndian(c[1..]));
  }

  lemma ClampedTopRange(c: Key, k: Key)
    requires c == Clamped(k)
    ensures 64 * Pow256(31) <= LittleEndian(c) < 128 * Pow256(31)
  {
    assert c[31] == (k[31] & 127) | 64;
    MaskedHighByte(k[31]);
    TopByteDecides(c, 31);
  }

  /** A number of n + 1 bytes whose top byte lies in [64, 128) lies in [64 * 256^n, 128 * 256^n). */
  lemma TopByteDecides(c: seq<bv8>, n: nat)
    requires |c| == n + 1 && 64 <= c[n] as nat < 128
    ensures 64 * Pow256(n) <= LittleEndian(c) < 128 * Pow256(n)
  {
    var low, top := c[..n], c[n];
    assert c == low + [top];
    LittleEndianAppend(low, [top]);
    LittleEndianBound(low);
    assert LittleEndian([top]) == top as nat + 256 * LittleEndian([]);
    TopByteRange(LittleEndian(low), Pow256(n), top as nat);
  }

  // ----- standard base64 with padding (section 4 of RFC 4648) -----

  /** The standard alphabet: `A`-`Z`, `a`-`z`, `0`-`9`, `+`, `/`. */
  function Base64Char(n: int): (c: char)
    requires 0 <= n < 64
    ensures c != '='
    ensures ('A' <= c <= 'Z' || 'a' <= c <= 'z' || '0' <= c <= '9' || c == '+' || c == '/')
  {
    if n < 26 then ('A' as int + n) as char
    else if n < 52 then ('a' as int + (n - 26)) as char
    else if n < 62 then ('0' as int + (n - 52)) as char
    else if n == 62 then '+'
    else '/'
  }

  /** Distinct 6-bit values get distinct characters. */
  lemma Base64CharInjective(n: int, m: int)
    requires 0 <= n < 64 && 0 <= m < 64 && Base64Char(n) == Base64Char(m)
    ensures n == m
  {
  }

  /** A place in the encoding: a 6-bit value or a pad. */
  datatype Sym = Sextet(n: bv8) | Pad

  /** A 6-bit value is one of the 64 alphabet positions. */
  predicate ValidSym(x: Sym)
  {
    x.Sextet? ==> x.n < 64
  }

  /** A value is written as its alphabet character, a pad as `=`. */
  function SymChar(x: Sym): char
    requires ValidSym(x)
  {
    if x.Pad? then '=' else Base64Char(x.n as int)
  }

  /** How many `=` pad characters end the encoding of `n` bytes. */
  function PadLength(n: nat): nat
  {
    (3 - n % 3) % 3
  }

  /**
   * One quantum: one to three bytes, read as a big-endian bit string, give two
   * to four 6-bit values shifted and masked out of the bytes; the places of
   * missing bytes are pads (two places for one byte, one for two).
   */
  function Quantum(s: seq<bv8>): (q: seq<Sym>)
    requires 1 <= |s| <= 3
    ensures |q| == 4
    ensures ValidSym(q[0]) && ValidSym(q[1]) && ValidSym(q[2]) && ValidSym(q[3])
    ensures !q[0].Pad? && !q[1].Pad? && (q[2].Pad? <==> |s| == 1) && (q[3].Pad? <==> |s| < 3)
  {
    var b0 := s[0];
    var b1 := if |s| > 1 then s[1] else 0;
    var b2 := if |s| > 2 then s[2] else 0;
    var x0, x1 := Sextet(b0 >> 2), Sextet(((b0 & 3) << 4) | (b1 >> 4));
    var x2 := if |s| > 1 then Sextet(((b1 & 15) << 2) | (b2 >> 6)) else Pad;
    var x3 := if |s| > 2 then Sextet(b2 & 63) else Pad;
    [x0, x1, x2, x3]
  }

  /**
   * The 24 bits of a full group of three bytes are the four 6-bit values of
   * its quantum, most significant first (section 4 of RFC 4648).
   */
  lemma QuantumBits(s: seq<bv8>)
    requires |s| == 3
    ensures var q := Quantum(s);
      ((s[0] as bv24) << 16) | ((s[1] as bv24) << 8) | (s[2] as bv24)
      == ((q[0].n as bv24) << 18) | ((q[1].n as bv24) << 12) | ((q[2].n as bv24) << 6) | (q[3].n as bv24)
  {
  }

  /** With fewer than three bytes, the missing ones read as zero bits. */
  lemma ShortQuantumBits(s: seq<bv8>)
    requires 1 <= |s| < 3
    ensures var q := Quantum(s);
      var b1 := if |s| == 2 then s[1] else 0;
      var x2 := if |s| == 2 then q[2].n else 0;
      ((s[0] as bv24) << 16) | ((b1 as bv24) << 8)
      == ((q[0].n as bv24) << 18) | ((q[1].n as bv24) << 12) | ((x2 as bv24) << 6)
  {
  }

  /** The encoding's places: one quantum per group of three bytes, the last group possibly short. */
  function Syms(s: seq<bv8>): (r: seq<Sym>)
    ensures |r| == 4 * ((|s| + 2) / 3)
    ensures forall j :: 0 <= j < |r| ==> ValidSym(r[j])
    decreases |s|
  {
    if |s| == 0 then []
    else if |s| <= 3 then Quantum(s)
    else Quantum(s[..3]) + Syms(s[3..])
  }

  /** `base64.StdEncoding.EncodeToString`: every place written as its character. */
  function Base64Encode(s: seq<bv8>): (r: string)
    ensures |r| == 4 * ((|s| + 2) / 3)
  {
    var x := Syms(s);
    seq(|x|, j requires 0 <= j < |x| => SymChar(x[j]))
  }

  /** The last `k` places of `x` are pads and no others are. */
  predicate PadsAtEnd(x: seq<Sym>, k: nat)
  {
    k <= |x| && forall j :: 0 <= j < |x| ==> (x[j].Pad? <==> j >= |x| - k)
  }

  /** The pads of a quantum are its last `PadLength` places. */
  lemma QuantumPads(s: seq<bv8>)
    requires 1 <= |s| <= 3
    ensures PadsAtEnd(Quantum(s), PadLength(|s|))
  {
    var q := Quantum(s);
    if |s| == 1 {
      assert PadLength(|s|) == 2;
    } else if |s| == 2 {
      assert PadLength(|s|) == 1;
    } else {
      assert PadLength(|s|) == 0;
    }
  }

  /** A quantum without pads, followed by places whose pads are at the end. */
  lemma PadsAtEndAppend(q: seq<Sym>, rest: seq<Sym>, k: nat)
    requires PadsAtEnd(q, 0) && PadsAtEnd(rest, k)
    ensures PadsAtEnd(q + rest, k)
  {
    forall j | 0 <= j < |q + rest|
      ensures (q + rest)[j].Pad? <==> j >= |q + rest| - k
    {
      if j < |q| {
        assert (q + rest)[j] == q[j];
      } else {
        assert (q + rest)[j] == rest[j - |q|];
      }
    }
  }

  /** Only the last `PadLength(|s|)` places of the encoding are pads. */
  lemma {:induction false} SymsPadding(s: seq<bv8>)
    ensures PadsAtEnd(Syms(s), PadLength(|s|))
    decreases |s|
  {
    if |s| > 3 {
      SymsPadding(s[3..]);
      QuantumPads(s[..3]);
      assert Syms(s) == Quantum(s[..3]) + Syms(s[3..]);
      assert PadLength(|s|) == PadLength(|s[3..]|);
      PadsAtEndAppend(Quantum(s[..3]), Syms(s[3..]), PadLength(|s|));
    } else if |s| > 0 {
      QuantumPads(s);
    }
  }

  /** Exactly the last `PadLength(|s|)` characters of the encoding are `=`. */
  lemma Base64Padding(s: seq<bv8>)
    ensures var r := Base64Encode(s);
      PadLength(|s|) <= |r| &&
      forall j :: 0 <= j < |r| ==> (r[j] == '=' <==> j >= |r| - PadLength(|s|))
  {
    SymsPadding(s);
  }

  /** A 32-byte key encodes to 44 characters, the last of them the only `=`. */
  lemma Base64OfKey(k: Key)
    ensures var r := Base64Encode(k);
      |r| == 44 && r[43] == '=' && forall j :: 0 <= j < 43 ==> r[j] != '='
  {
    Base64Padding(k);
    var r := Base64Encode(k);
    assert |r| == 44 && PadLength(|k|) == 1;
    assert forall j :: 0 <= j < |r| ==> (r[j] == '=' <==> j >= 43);
  }

  // ----- GenerateWireGuardKeyPair -----

  /**
   * The outcome of key generation as a value: the two base64 keys, or the
   * first error met. This is the value-level summary of `GenerateKeyPair`,
   * whose last `ensures` ties its three results to it; callers' contracts
   * (the deploy function's) speak of this function.
   */
  function KeyPair(random: Result<Key, string>, x25519: Key -> Result<Key, string>): Result<(string, string), string>
  {
    if random.Failure? then Failure(random.error)
    else
      var scalar := Clamped(random.value);
      match x25519(scalar)
      case Failure(e) => Failure(e)
      case Success(point) => Success((Base64Encode(scalar), Base64Encode(point)))
  }

  /**
   * `GenerateWireGuardKeyPair`. `random` is what reading 32 random bytes gave
   * and `x25519` multiplies the base point by a scalar. A failed read ends the
   * function at once with two empty keys; otherwise the private key is the
   * base64 of the clamped bytes and the public key the base64 of X25519 of the
   * same clamped bytes.
   */
  method GenerateKeyPair(random: Result<Key, string>, x25519: Key -> Result<Key, string>)
    returns (priv: string, pub: string, err: Option<string>)
    ensures random.Failure? ==> priv == "" && pub == "" && err == Some(random.error)
    ensures random.Success? ==>
      var scalar := Clamped(random.value);
      match x25519(scalar)
      case Failure(e) => priv == "" && pub == "" && err == Some(e)
      case Success(point) => err == None && priv == Base64Encode(scalar) && pub == Base64Encode(point)
    ensures err == None ==> |priv| == 44 && |pub| == 44 && priv[43] == '=' && pub[43] == '='
    ensures KeyPair(random, x25519) == if err.Some? then Failure(err.value) else Success((priv, pub))
  {
    if random.Failure? {
      return "", "", Some(random.error);
    }
    var privateKeyBytes := new bv8[32](j requires 0 <= j < 32 => random.value[j]);
    assert privateKeyBytes[..] == random.value;
    Clamp(privateKeyBytes);
    var scalar: Key := privateKeyBytes[..];
    var publicKeyBytes := x25519(scalar);
    if publicKeyBytes.Failure? {
      return "", "", Some(publicKeyBytes.error);
    }
    priv := Base64Encode(scalar);
    pub := Base64Encode(publicKeyBytes.value);
    err := None;
    Base64OfKey(scalar);
    Base64OfKey(publicKeyBytes.value);
  }
}
