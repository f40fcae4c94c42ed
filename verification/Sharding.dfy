/**
 Shard routing of internal/availability/sharding.go: 32-bit FNV-1a over the eight big-endian bytes of an owner id,
 modulo the number of shards. Machine words are naturals below a power of two.
 */
module Sharding {
  import opened Wrappers

  const OFFSET_BASIS := 2166136261
  const PRIME := 16777619
  const WORD := 0x1_0000_0000
  // The inverse of PRIME modulo WORD.
  const PRIME_INVERSE := 899433627

  function Pow2(k: nat): (r: int)
    ensures r >= 1
  {
    if k == 0 then 1 else 2 * Pow2(k - 1)
  }

  /** Bitwise exclusive or. */
  function Xor(a: nat, b: nat): nat {
    if a == 0 && b == 0 then 0 else 2 * Xor(a / 2, b / 2) + (a + b) % 2
  }

  /** One byte of FNV-1a. */
  function Mix(h: nat, b: nat): nat {
    (Xor(h, b) * PRIME) % WORD
  }

  function Fnv(h: nat, bytes: seq<nat>): nat {
    if bytes == [] then h else Mix(Fnv(h, bytes[..|bytes| - 1]), bytes[|bytes| - 1])
  }

  /** byte(id >> (8 * i)): an arithmetic shift, then truncation to eight bits. */
  function ByteAt(id: int, i: nat): nat {
    (id / Pow2(8 * i)) % 256
  }

  function BigEndian(id: int): seq<nat> {
    seq(8, j requires 0 <= j < 8 => ByteAt(id, 7 - j))
  }

  function Hash(id: int): nat {
    Fnv(OFFSET_BASIS, BigEndian(id))
  }

  class ShardRouter {
    const shardCount: int

    /** Counts below one become one; the count is then truncated to 32 bits. */
    constructor (shardCount: int)
      ensures this.shardCount == (if shardCount < 1 then 1 else shardCount) % WORD
      ensures this.shardCount == 0 <==> shardCount >= 1 && shardCount % WORD == 0
    {
      this.shardCount := (if shardCount < 1 then 1 else shardCount) % WORD;
    }

    /** The shard of an owner; `None` is the run-time panic of a division by zero. */
    method ShardFor(ownerID: int) returns (shard: Option<int>)
      requires 0 <= shardCount
      ensures shard.None? <==> shardCount == 0
      ensures shardCount > 0 ==> shard == Some(Hash(ownerID) % shardCount) && 0 <= shard.value < shardCount
    {
      var buf := new nat[8];
      for i := 0 to 8
        invariant forall j :: 8 - i <= j < 8 ==> buf[j] == ByteAt(ownerID, 7 - j)
      {
        buf[7 - i] := ByteAt(ownerID, i);
      }
      assert buf[..] == BigEndian(ownerID);

      var h: nat := OFFSET_BASIS;
      for j := 0 to 8
        invariant h == Fnv(OFFSET_BASIS, buf[..j])
        invariant buf[..] == BigEndian(ownerID)
      {
        assert buf[..j + 1][..j] == buf[..j];
        h := Mix(h, buf[j]);
      }
      assert buf[..8] == buf[..];
      shard := if shardCount == 0 then None else Some(h % shardCount);
    }
  }

  // ---------- exclusive or ----------

  lemma XorHalves(a: nat, b: nat)
    ensures Xor(a, b) / 2 == Xor(a / 2, b / 2)
    ensures Xor(a, b) % 2 == (a + b) % 2
  {
  }

  lemma {:induction false} XorUndo(a: nat, b: nat)
    ensures Xor(Xor(a, b), b) == a
    decreases a + b
  {
    if a != 0 || b != 0 {
      XorUndo(a / 2, b / 2);
      XorHalves(a, b);
      XorHalves(Xor(a, b), b);
      LowBitOfSum(a, b, Xor(a, b));
    }
  }

  lemma LowBitOfSum(a: nat, b: nat, x: nat)
    requires x % 2 == (a + b) % 2
    ensures (x + b) % 2 == a % 2
  {
  }

  lemma ModDouble(a: nat, m: nat)
    requires m >= 1
    ensures a % (2 * m) == 2 * ((a / 2) % m) + a % 2
  {
    var q, r := (a / 2) / m, (a / 2) % m;
    assert a == 2 * (q * m + r) + a % 2;
    assert a == q * (2 * m) + (2 * r + a % 2);
    ModUnique(a, 2 * m, q, 2 * r + a % 2);
  }

  lemma ModUnique(a: int, m: int, q: int, r: int)
    requires a == q * m + r && 0 <= r < m
    ensures a % m == r
  {
    var p := a / m - q;
    assert a == (a / m) * m + a % m;
    assert p * m == r - a % m;
    NonzeroMultiple(p, m);
  }

  lemma NonzeroMultiple(p: int, m: int)
    requires m > 0
    ensures p >= 1 ==> p * m >= m
    ensures p <= -1 ==> p * m <= -m
  {
  }

  /** The low bits of an exclusive or depend only on the low bits of its operands. */
  lemma {:induction false} XorLowBits(a: nat, b: nat, k: nat)
    ensures Xor(a, b) % Pow2(k) == Xor(a % Pow2(k), b % Pow2(k))
    decreases k
  {
    if k > 0 {
      var m := Pow2(k - 1);
      XorLowBits(a / 2, b / 2, k - 1);
      Halves(a, m);
      Halves(b, m);
      Halves(Xor(a, b), m);
      XorHalves(a, b);
      XorHalves(a % (2 * m), b % (2 * m));
      SameParity(a, b, a % (2 * m), b % (2 * m));
    } else {
      XorHalves(0, 0);
    }
  }

  lemma Halves(a: nat, m: nat)
    requires m >= 1
    ensures a % (2 * m) / 2 == (a / 2) % m && a % (2 * m) % 2 == a % 2
  {
    ModDouble(a, m);
  }

  lemma SameParity(a: nat, b: nat, x: nat, y: nat)
    requires a % 2 == x % 2 && b % 2 == y % 2
    ensures (a + b) % 2 == (x + y) % 2
  {
  }

  // ---------- one byte of the hash ----------

  ghost predicate Divides(m: int, n: int)
    requires m > 0
  {
    exists q :: n == q * m
  }

  lemma {:induction false} PowersDivide(j: nat, k: nat)
    requires j <= k
    ensures Divides(Pow2(j), Pow2(k))
  {
    if j == k {
      assert Pow2(k) == 1 * Pow2(j);
    } else {
      PowersDivide(j, k - 1);
      var q :| Pow2(k - 1) == q * Pow2(j);
      assert Pow2(k) == (2 * q) * Pow2(j);
    }
  }

  lemma ModOfMod(a: int, m: int, n: int)
    requires m > 0 && n > 0 && Divides(m, n)
    ensures a % n % m == a % m
  {
    var q :| n == q * m;
    var d := a / n;
    assert a == d * n + a % n;
    assert d * n == (d * q) * m;
    assert a % n == (a % n / m) * m + a % n % m;
    var e, r := a % n / m, a % n % m;
    assert a == (d * q + e) * m + r;
    ModUnique(a, m, d * q + e, r);
  }

  lemma ModMul(a: int, b: int, m: int)
    requires m > 0
    ensures (a * b) % m == ((a % m) * b) % m
  {
    var q, r := a / m, a % m;
    assert a == q * m + r;
    var s, t := (r * b) / m, (r * b) % m;
    assert r * b == s * m + t;
    assert a * b == (q * m) * b + r * b;
    assert (q * m) * b == (q * b) * m;
    assert a * b == (q * b + s) * m + t;
    ModUnique(a * b, m, q * b + s, t);
  }

  lemma WordIsPower()
    ensures Pow2(32) == WORD
  {
    assert Pow2(8) == 256;
    assert Pow2(16) == 65536;
    assert Pow2(24) == 16777216;
  }

  /** Multiplying by the odd prime can be undone modulo any power of two up to the word size. */
  lemma PrimeUndo(x: nat, k: nat)
    requires k <= 32
    ensures (((x * PRIME) % Pow2(k)) * PRIME_INVERSE) % Pow2(k) == x % Pow2(k)
  {
    var m := Pow2(k);
    WordIsPower();
    PowersDivide(k, 32);
    ModMul(x * PRIME, PRIME_INVERSE, m);
    assert x * PRIME * PRIME_INVERSE == (PRIME * PRIME_INVERSE) * x;
    assert PRIME * PRIME_INVERSE % WORD == 1;
    ModOfMod(PRIME * PRIME_INVERSE, m, WORD);
    ModMul(PRIME * PRIME_INVERSE, x, m);
    ModMul(1, x, m);
  }

  /** The low bits of the mixed state, from the low bits of what goes in. */
  lemma MixLowBits(h: nat, b: nat, k: nat)
    requires k <= 32
    ensures Mix(h, b) % Pow2(k) == (Xor(h % Pow2(k), b % Pow2(k)) * PRIME) % Pow2(k)
  {
    WordIsPower();
    PowersDivide(k, 32);
    ModOfMod(Xor(h, b) * PRIME, Pow2(k), WORD);
    ModMul(Xor(h, b), PRIME, Pow2(k));
    XorLowBits(h, b, k);
  }

  lemma {:induction false} XorSym(a: nat, b: nat)
    ensures Xor(a, b) == Xor(b, a)
    decreases a + b
  {
    if a != 0 || b != 0 {
      XorSym(a / 2, b / 2);
    }
  }

  lemma XorStaysBelow(x: nat, y: nat, k: nat)
    requires x < Pow2(k) && y < Pow2(k)
    ensures Xor(x, y) < Pow2(k)
  {
    XorLowBits(x, y, k);
  }

  /** The operand of an exclusive or can be read back from the product's low bits. */
  function ReadBack(low: nat, other: nat, k: nat): nat {
    Xor((low * PRIME_INVERSE) % Pow2(k), other)
  }

  lemma SmallMod(x: nat, m: int)
    requires x < m
    ensures x % m == x
  {
  }

  lemma PrimeUndoSmall(x: nat, k: nat)
    requires k <= 32 && x < Pow2(k)
    ensures ((x * PRIME) % Pow2(k) * PRIME_INVERSE) % Pow2(k) == x
  {
    PrimeUndo(x, k);
    SmallMod(x, Pow2(k));
  }

  lemma MixReadsBack(h: nat, b: nat, k: nat)
    requires k <= 32
    ensures ReadBack(Mix(h, b) % Pow2(k), h % Pow2(k), k) == b % Pow2(k)
    ensures ReadBack(Mix(h, b) % Pow2(k), b % Pow2(k), k) == h % Pow2(k)
  {
    var x, y, p := h % Pow2(k), b % Pow2(k), Mix(h, b) % Pow2(k);
    assert (p * PRIME_INVERSE) % Pow2(k) == Xor(x, y) by {
      MixLowBits(h, b, k);
      XorStaysBelow(x, y, k);
      PrimeUndoSmall(Xor(x, y), k);
    }
    assert ReadBack(p, x, k) == Xor(Xor(x, y), x);
    assert ReadBack(p, y, k) == Xor(Xor(x, y), y);
    XorUndo(x, y);
    XorSym(x, y);
    XorUndo(y, x);
  }

  /** With equal state, equal low bits of the result come only from equal low bits of the byte. */
  lemma MixOneToOneInByte(h: nat, b: nat, c: nat, k: nat)
    requires k <= 32 && Mix(h, b) % Pow2(k) == Mix(h, c) % Pow2(k)
    ensures b % Pow2(k) == c % Pow2(k)
  {
    MixReadsBack(h, b, k);
    MixReadsBack(h, c, k);
  }

  /** With equal bytes, different states stay different. */
  lemma MixOneToOneInState(g: nat, h: nat, b: nat)
    requires g < WORD && h < WORD && Mix(g, b) == Mix(h, b)
    ensures g == h
  {
    assert g % Pow2(32) == h % Pow2(32) by {
      MixReadsBack(g, b, 32);
      MixReadsBack(h, b, 32);
    }
    WordIsPower();
    SmallMod(g, WORD);
    SmallMod(h, WORD);
  }

  // ---------- owners that differ in one byte ----------

  lemma BytesMixApart(h: nat, b: nat, c: nat)
    requires b < 256 && c < 256 && b != c
    ensures Mix(h, b) != Mix(h, c)
  {
    if Mix(h, b) == Mix(h, c) {
      MixOneToOneInByte(h, b, c, 32);
      WordIsPower();
      SmallMod(b, WORD);
      SmallMod(c, WORD);
    }
  }

  lemma StatesMixApart(g: nat, h: nat, b: nat)
    requires g < WORD && h < WORD && g != h
    ensures Mix(g, b) != Mix(h, b)
  {
    if Mix(g, b) == Mix(h, b) {
      MixOneToOneInState(g, h, b);
    }
  }

  lemma {:induction false} FnvDiffers(h: nat, a: seq<nat>, b: seq<nat>, j: nat)
    requires h < WORD && |a| == |b| && j < |a|
    requires forall i :: 0 <= i < |a| && i != j ==> a[i] == b[i]
    requires a[j] != b[j] && a[j] < 256 && b[j] < 256
    ensures Fnv(h, a) != Fnv(h, b)
  {
    var n := |a| - 1;
    if j == n {
      assert a[..n] == b[..n];
      BytesMixApart(Fnv(h, a[..n]), a[n], b[n]);
    } else {
      FnvDiffers(h, a[..n], b[..n], j);
      FnvIsWord(h, a[..n]);
      FnvIsWord(h, b[..n]);
      StatesMixApart(Fnv(h, a[..n]), Fnv(h, b[..n]), a[n]);
    }
  }

  lemma FnvIsWord(h: nat, bytes: seq<nat>)
    requires h < WORD
    ensures Fnv(h, bytes) < WORD
  {
  }

  /** Owners whose ids differ in exactly one byte have different hashes. */
  lemma OneByteChangesHash(a: int, b: int, i: nat)
    requires i < 8 && ByteAt(a, i) != ByteAt(b, i)
    requires forall j: nat :: j < 8 && j != i ==> ByteAt(a, j) == ByteAt(b, j)
    ensures Hash(a) != Hash(b)
  {
    FnvDiffers(OFFSET_BASIS, BigEndian(a), BigEndian(b), 7 - i);
  }

  lemma DivTwice(a: int, m: int, n: int)
    requires m > 0 && n > 0
    ensures m * n > 0 && a / (m * n) == a / m / n
  {
    var q, r := a / m / n, a / m % n;
    Nested(a, a / m, q, a % m, r, m, n);
    SmallRemainder(a % m, r, m, n);
    DivUnique(a, m * n, q, r * m + a % m);
  }

  lemma Nested(a: int, d: int, q: int, low: int, r: int, m: int, n: int)
    requires a == d * m + low && d == q * n + r
    ensures a == q * (m * n) + (r * m + low)
  {
    assert d * m == q * n * m + r * m;
    assert q * n * m == q * (m * n);
  }

  lemma SmallRemainder(low: int, r: int, m: int, n: int)
    requires 0 <= low < m && 0 <= r < n
    ensures 0 <= r * m + low < m * n
  {
    assert (n - 1 - r) * m >= 0;
    assert (n - 1 - r) * m == m * n - m - r * m;
  }

  lemma DivUnique(a: int, m: int, q: int, r: int)
    requires a == q * m + r && 0 <= r < m
    ensures a / m == q
  {
    assert a == (a / m) * m + a % m;
    assert (a / m - q) * m == r - a % m;
    NonzeroMultiple(a / m - q, m);
  }

  lemma {:induction false} Pow2Sum(j: nat, k: nat)
    ensures Pow2(j + k) == Pow2(j) * Pow2(k)
  {
    if j > 0 {
      Pow2Sum(j - 1, k);
    }
  }

  /** The bytes of an id above the lowest are those of its quotient by 256. */
  lemma UpperByte(id: int, i: nat)
    ensures ByteAt(id, i + 1) == ByteAt(id / 256, i)
  {
    assert Pow2(8) == 256;
    Pow2Sum(8, 8 * i);
    DivTwice(id, 256, Pow2(8 * i));
  }

  lemma {:induction false} LowBytesDetermine(a: int, b: int, n: nat)
    requires forall i: nat :: i < n ==> ByteAt(a, i) == ByteAt(b, i)
    ensures a % Pow2(8 * n) == b % Pow2(8 * n)
    decreases n
  {
    if n > 0 {
      forall i: nat | i < n - 1 ensures ByteAt(a / 256, i) == ByteAt(b / 256, i) {
        UpperByte(a, i);
        UpperByte(b, i);
        assert ByteAt(a, i + 1) == ByteAt(b, i + 1);
      }
      LowBytesDetermine(a / 256, b / 256, n - 1);
      assert ByteAt(a, 0) == ByteAt(b, 0);
      assert Pow2(8) == 256;
      Pow2Sum(8, 8 * (n - 1));
      ModSplit(a, Pow2(8 * (n - 1)));
      ModSplit(b, Pow2(8 * (n - 1)));
    }
  }

  lemma ModSplit(a: int, m: int)
    requires m > 0
    ensures a % (256 * m) == 256 * (a / 256 % m) + a % 256
  {
    var q, r := a / 256 / m, a / 256 % m;
    assert a == 256 * (q * m + r) + a % 256;
    assert 256 * (q * m + r) == q * (256 * m) + 256 * r;
    ModUnique(a, 256 * m, q, 256 * r + a % 256);
  }

  lemma SameResidueSameWord(a: int, b: int)
    requires -0x8000_0000_0000_0000 <= a < 0x8000_0000_0000_0000
    requires -0x8000_0000_0000_0000 <= b < 0x8000_0000_0000_0000
    requires a % 0x1_0000_0000_0000_0000 == b % 0x1_0000_0000_0000_0000
    ensures a == b
  {
  }

  lemma DoubleWordIsPower()
    ensures Pow2(64) == 0x1_0000_0000_0000_0000
  {
    WordIsPower();
    Pow2Sum(32, 32);
  }

  /** Two signed 64-bit owner ids with the same big-endian bytes are the same id. */
  lemma BytesDetermineOwner(a: int, b: int)
    requires -0x8000_0000_0000_0000 <= a < 0x8000_0000_0000_0000
    requires -0x8000_0000_0000_0000 <= b < 0x8000_0000_0000_0000
    ensures BigEndian(a) == BigEndian(b) <==> a == b
  {
    if BigEndian(a) == BigEndian(b) {
      forall i: nat | i < 8 ensures ByteAt(a, i) == ByteAt(b, i) {
        assert BigEndian(a)[7 - i] == BigEndian(b)[7 - i];
      }
      LowBytesDetermine(a, b, 8);
      DoubleWordIsPower();
      SameResidueSameWord(a, b);
    }
  }

  // ---------- balance ----------

  /** The state after the seven upper bytes. */
  function Upper(id: int): nat {
    Fnv(OFFSET_BASIS, BigEndian(id)[..7])
  }

  lemma SameUpperPart(base: int, x: nat, k: nat)
    requires k <= 8 && base % Pow2(k) == 0 && x < Pow2(k)
    ensures (base + x) / 256 == base / 256
    ensures (base + x) % 256 % Pow2(k) == x
  {
    var m := Pow2(k);
    assert Pow2(8) == 256;
    PowersDivide(k, 8);
    ModOfMod(base + x, m, 256);
    SameQuotient(base, x, m);
    var q :| 256 == q * m;
    NonzeroMultiple(q, m);
    DivTwice(base + x, m, q);
    DivTwice(base, m, q);
    assert m * q == 256;
  }

  lemma SameUpperBytes(a: int, b: int)
    requires a / 256 == b / 256
    ensures BigEndian(a)[..7] == BigEndian(b)[..7]
  {
    forall j: nat | j < 7 ensures BigEndian(a)[j] == BigEndian(b)[j] {
      UpperByte(a, 6 - j);
      UpperByte(b, 6 - j);
    }
  }

  lemma HashOfBlockMember(base: int, x: nat, k: nat)
    requires k <= 8 && base % Pow2(k) == 0 && x < Pow2(k)
    ensures Hash(base + x) == Mix(Upper(base), (base + x) % 256)
    ensures (base + x) % 256 % Pow2(k) == x
  {
    SameUpperPart(base, x, k);
    SameUpperBytes(base + x, base);
    assert ByteAt(base + x, 0) == (base + x) % 256;
  }

  lemma SameQuotient(base: int, x: nat, m: int)
    requires m > 0 && base % m == 0 && x < m
    ensures (base + x) / m == base / m && (base + x) % m == x
  {
    assert base + x == (base / m) * m + x;
    DivUnique(base + x, m, base / m, x);
    ModUnique(base + x, m, base / m, x);
  }

  /** For 2^k shards, the owner of an aligned block of 2^k ids that lives on a given shard. */
  function OwnerOn(base: int, k: nat, shard: nat): nat {
    Xor((shard * PRIME_INVERSE) % Pow2(k), Upper(base) % Pow2(k))
  }

  lemma PrimeRedo(shard: nat, k: nat)
    requires k <= 32
    ensures ((shard * PRIME_INVERSE) % Pow2(k) * PRIME) % Pow2(k) == shard % Pow2(k)
  {
    var m := Pow2(k);
    PrimeUndo(shard, k);
    ModMul(shard * PRIME, PRIME_INVERSE, m);
    ModMul(shard * PRIME_INVERSE, PRIME, m);
    assert shard * PRIME_INVERSE * PRIME == shard * PRIME * PRIME_INVERSE;
  }

  lemma BlockReachesShard(base: int, k: nat, shard: nat)
    requires k <= 8 && base % Pow2(k) == 0 && shard < Pow2(k)
    ensures OwnerOn(base, k, shard) < Pow2(k)
    ensures Hash(base + OwnerOn(base, k, shard)) % Pow2(k) == shard
  {
    var s, u, x := (shard * PRIME_INVERSE) % Pow2(k), Upper(base) % Pow2(k), OwnerOn(base, k, shard);
    XorStaysBelow(s, u, k);
    HashOfBlockMember(base, x, k);
    assert Mix(Upper(base), (base + x) % 256) % Pow2(k) == (Xor(u, x) * PRIME) % Pow2(k) by {
      MixLowBits(Upper(base), (base + x) % 256, k);
    }
    assert Xor(u, x) == s by {
      XorSym(u, x);
      XorUndo(s, u);
    }
    assert (s * PRIME) % Pow2(k) == shard by {
      PrimeRedo(shard, k);
      SmallMod(shard, Pow2(k));
    }
  }

  predicate LivesOn(base: int, x: nat, k: nat, shard: nat) {
    x < Pow2(k) && Hash(base + x) % Pow2(k) == shard
  }

  lemma LivesOnOneShard(base: int, k: nat, x: nat, y: nat, shard: nat)
    requires k <= 8 && base % Pow2(k) == 0
    requires LivesOn(base, x, k, shard) && LivesOn(base, y, k, shard)
    ensures x == y
  {
    HashOfBlockMember(base, x, k);
    HashOfBlockMember(base, y, k);
    MixOneToOneInByte(Upper(base), (base + x) % 256, (base + y) % 256, k);
  }

  /** Every aligned block of 2^k consecutive owner ids puts exactly one owner on each of 2^k shards. */
  lemma BlockHitsEachShardOnce(base: int, k: nat, shard: nat)
    requires k <= 8 && base % Pow2(k) == 0 && shard < Pow2(k)
    ensures exists x: nat :: LivesOn(base, x, k, shard) && forall y: nat :: LivesOn(base, y, k, shard) ==> y == x
  {
    BlockReachesShard(base, k, shard);
    var x := OwnerOn(base, k, shard);
    assert LivesOn(base, x, k, shard);
    forall y: nat | LivesOn(base, y, k, shard) ensures y == x {
      LivesOnOneShard(base, k, x, y, shard);
    }
  }

  /** How many owners with ids from `lo` up to, not including, `hi` live on a shard. */
  function Owners(lo: int, hi: int, shards: int, shard: int): nat
    requires lo <= hi && shards > 0
    decreases hi - lo
  {
    if lo == hi then 0
    else Owners(lo, hi - 1, shards, shard) + if Hash(hi - 1) % shards == shard then 1 else 0
  }

  lemma {:induction false} OwnersSplit(lo: int, mid: int, hi: int, shards: int, shard: int)
    requires lo <= mid <= hi && shards > 0
    ensures Owners(lo, hi, shards, shard) == Owners(lo, mid, shards, shard) + Owners(mid, hi, shards, shard)
    decreases hi - mid
  {
    if mid < hi {
      OwnersSplit(lo, mid, hi - 1, shards, shard);
    }
  }

  lemma OwnerOnIsTheOne(base: int, k: nat, shard: nat, y: nat)
    requires k <= 8 && base % Pow2(k) == 0 && shard < Pow2(k) && y < Pow2(k)
    ensures LivesOn(base, y, k, shard) <==> y == OwnerOn(base, k, shard)
  {
    BlockReachesShard(base, k, shard);
    if LivesOn(base, y, k, shard) {
      LivesOnOneShard(base, k, OwnerOn(base, k, shard), y, shard);
    }
  }

  /** The first n ids of an aligned block put at most one owner on a shard, and exactly one when the block is full. */
  lemma {:induction false} OwnersInBlock(base: int, n: nat, k: nat, shard: nat)
    requires k <= 8 && base % Pow2(k) == 0 && shard < Pow2(k) && n <= Pow2(k)
    ensures Owners(base, base + n, Pow2(k), shard) == if OwnerOn(base, k, shard) < n then 1 else 0
  {
    if n > 0 {
      OwnersInBlock(base, n - 1, k, shard);
      OwnerOnIsTheOne(base, k, shard, n - 1);
      assert base + n - 1 == base + (n - 1);
    }
  }

  lemma {:induction false} OwnersOfFullBlocks(q: nat, k: nat, shard: nat)
    requires k <= 8 && shard < Pow2(k)
    ensures 0 <= q * Pow2(k) && q * Pow2(k) % Pow2(k) == 0
    ensures Owners(0, q * Pow2(k), Pow2(k), shard) == q
  {
    var m := Pow2(k);
    ModUnique(q * m, m, q, 0);
    if q > 0 {
      var base := (q - 1) * m;
      OwnersOfFullBlocks(q - 1, k, shard);
      assert base + m == q * m;
      assert Owners(base, base + m, m, shard) == 1 by {
        OwnersInBlock(base, m, k, shard);
        BlockReachesShard(base, k, shard);
      }
      OwnersSplit(0, base, base + m, m, shard);
    }
  }

  lemma OwnersOfBlocks(q: nat, r: nat, k: nat, shard: nat)
    requires k <= 8 && shard < Pow2(k) && r < Pow2(k)
    ensures 0 <= q * Pow2(k)
    ensures q <= Owners(0, q * Pow2(k) + r, Pow2(k), shard) <= q + 1
  {
    OwnersOfFullBlocks(q, k, shard);
    OwnersBeyond(q * Pow2(k), r, k, shard);
  }

  /** Part of a further block adds one owner at most. */
  lemma OwnersBeyond(base: nat, r: nat, k: nat, shard: nat)
    requires k <= 8 && base % Pow2(k) == 0 && shard < Pow2(k) && r < Pow2(k)
    ensures Owners(0, base, Pow2(k), shard) <= Owners(0, base + r, Pow2(k), shard)
         <= Owners(0, base, Pow2(k), shard) + 1
  {
    OwnersInBlock(base, r, k, shard);
    OwnersSplit(0, base, base + r, Pow2(k), shard);
  }

  lemma Quotient(n: nat, m: int)
    requires m > 0
    ensures n == n / m * m + n % m && 0 <= n / m && 0 <= n % m < m
  {
  }

  lemma OwnersOfFirst(n: nat, k: nat, shard: nat)
    requires k <= 8 && shard < Pow2(k)
    ensures n / Pow2(k) <= Owners(0, n, Pow2(k), shard) <= n / Pow2(k) + 1
  {
    Quotient(n, Pow2(k));
    OwnersOfBlocks(n / Pow2(k), n % Pow2(k), k, shard);
  }

  /** With 2^k shards, k up to 8, the shards' shares of the owners 0..n-1 differ by at most one, for every n. */
  lemma SharesDifferByAtMostOne(n: nat, k: nat, a: nat, b: nat)
    requires k <= 8 && a < Pow2(k) && b < Pow2(k)
    ensures -1 <= Owners(0, n, Pow2(k), a) - Owners(0, n, Pow2(k), b) <= 1
    ensures n / Pow2(k) <= Owners(0, n, Pow2(k), a) <= n / Pow2(k) + 1
  {
    OwnersOfFirst(n, k, a);
    OwnersOfFirst(n, k, b);
  }

  // ---------- a published value ----------

  lemma {:induction false} XorZero(a: nat)
    ensures Xor(a, 0) == a
  {
    if a > 0 {
      XorZero(a / 2);
    }
  }

  lemma XorStep(a: nat, b: nat, a': nat, b': nat, r: nat)
    requires a' == a / 2 && b' == b / 2 && Xor(a', b') == r
    ensures Xor(a, b) == 2 * r + (a + b) % 2
  {
  }

  /** The exclusive or with a number of seven bits, from the halvings of both. */
  lemma XorSeven(
    h: nat, b: nat, h1: nat, b1: nat, h2: nat, b2: nat, h3: nat, b3: nat, h4: nat, b4: nat, h5: nat, b5: nat,
    h6: nat, b6: nat, h7: nat)
    requires h1 == h / 2 && b1 == b / 2 && h2 == h1 / 2 && b2 == b1 / 2 && h3 == h2 / 2 && b3 == b2 / 2
    requires h4 == h3 / 2 && b4 == b3 / 2 && h5 == h4 / 2 && b5 == b4 / 2 && h6 == h5 / 2 && b6 == b5 / 2
    requires h7 == h6 / 2 && b6 / 2 == 0
    ensures Xor(h, b)
         == 2 * (2 * (2 * (2 * (2 * (2 * (2 * h7 + (h6 + b6) % 2) + (h5 + b5) % 2) + (h4 + b4) % 2) + (h3 + b3) % 2)
            + (h2 + b2) % 2) + (h1 + b1) % 2) + (h + b) % 2
  {
    XorZero(h7);
    XorStep(h6, b6, h7, 0, h7);
    XorStep(h5, b5, h6, b6, Xor(h6, b6));
    XorStep(h4, b4, h5, b5, Xor(h5, b5));
    XorStep(h3, b3, h4, b4, Xor(h4, b4));
    XorStep(h2, b2, h3, b3, Xor(h3, b3));
    XorStep(h1, b1, h2, b2, Xor(h2, b2));
    XorStep(h, b, h1, b1, Xor(h1, b1));
  }

  lemma BasisXorLetter(h: nat, b: nat)
    requires h == OFFSET_BASIS && b == 0x61
    ensures Xor(h, b) == 0x811C_9DA4
  {
    XorSeven(h, b, 0x408E4EE2, 0x30, 0x20472771, 0x18, 0x102393B8, 0xC, 0x811C9DC, 0x6, 0x408E4EE, 0x3, 0x2047277, 0x1, 0x102393B);
  }

  lemma TimesPrime(x: nat)
    requires x == 0x811C_9DA4
    ensures (x * PRIME) % WORD == 0xE40C_292C
  {
  }

  lemma MixOf(h: nat, b: nat, x: nat)
    requires Xor(h, b) == x
    ensures Mix(h, b) == (x * PRIME) % WORD
  {
  }

  lemma FnvOfOne(h: nat, b: nat)
    ensures Fnv(h, [b]) == Mix(h, b)
  {
    assert [b][..0] == [];
  }

  /** The published 32-bit FNV-1a hash of the letter a. */
  lemma HashOfLetter(h: nat, b: nat, x: nat)
    requires h == OFFSET_BASIS && b == 0x61 && x == 0x811C_9DA4
    ensures Fnv(h, [b]) == 0xE40C_292C
  {
    BasisXorLetter(h, b);
    TimesPrime(x);
    MixOf(h, b, x);
    FnvOfOne(h, b);
  }
}
