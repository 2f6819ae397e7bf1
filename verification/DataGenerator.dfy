/** Version-4 UUIDs in text form (RFC 4122, sections 3 and 4.4). */
module Uuid {
  /** Lower-case hexadecimal digit. */
  function HexDigit(d: bv8): char {
    if d == 0 then '0' else if d == 1 then '1' else if d == 2 then '2' else if d == 3 then '3'
    else if d == 4 then '4' else if d == 5 then '5' else if d == 6 then '6' else if d == 7 then '7'
    else if d == 8 then '8' else if d == 9 then '9' else if d == 10 then 'a' else if d == 11 then 'b'
    else if d == 12 then 'c' else if d == 13 then 'd' else if d == 14 then 'e' else 'f'
  }

  function HexValue(c: char): bv8 {
    if c == '0' then 0 else if c == '1' then 1 else if c == '2' then 2 else if c == '3' then 3
    else if c == '4' then 4 else if c == '5' then 5 else if c == '6' then 6 else if c == '7' then 7
    else if c == '8' then 8 else if c == '9' then 9 else if c == 'a' then 10 else if c == 'b' then 11
    else if c == 'c' then 12 else if c == 'd' then 13 else if c == 'e' then 14 else 15
  }

  predicate IsHex(c: char) { '0' <= c <= '9' || 'a' <= c <= 'f' }

  /** A byte as two digits. */
  function HexByte(b: bv8): (s: string)
    ensures |s| == 2
  {
    [HexDigit(b >> 4), HexDigit(b & 0x0f)]
  }

  function ByteOf(s: string): bv8
    requires |s| == 2
  {
    (HexValue(s[0]) << 4) | HexValue(s[1])
  }

  lemma DigitValue(d: bv8)
    requires d < 16
    ensures HexValue(HexDigit(d)) == d && IsHex(HexDigit(d))
  {}

  lemma ValueDigit(c: char)
    requires IsHex(c)
    ensures HexValue(c) < 16 && HexDigit(HexValue(c)) == c
  {}

  lemma Nibbles(b: bv8)
    ensures b >> 4 < 16 && b & 0x0f < 16 && ((b >> 4) << 4) | (b & 0x0f) == b
  {}

  lemma FromNibbles(hi: bv8, lo: bv8)
    requires hi < 16 && lo < 16
    ensures ((hi << 4) | lo) >> 4 == hi && ((hi << 4) | lo) & 0x0f == lo
  {}

  lemma ByteOfHex(b: bv8)
    ensures ByteOf(HexByte(b)) == b && IsHex(HexByte(b)[0]) && IsHex(HexByte(b)[1])
  {
    Nibbles(b);
    DigitValue(b >> 4);
    DigitValue(b & 0x0f);
  }

  lemma HexOfByte(s: string)
    requires |s| == 2 && IsHex(s[0]) && IsHex(s[1])
    ensures HexByte(ByteOf(s)) == s
  {
    ValueDigit(s[0]);
    ValueDigit(s[1]);
    FromNibbles(HexValue(s[0]), HexValue(s[1]));
  }

  /** The six bits that mark version 4 and the variant. */
  function Masked(bytes: seq<bv8>): (m: seq<bv8>)
    requires |bytes| == 16
    ensures |m| == 16
  {
    bytes[6 := (bytes[6] & 0x0f) | 0x40][8 := (bytes[8] & 0x3f) | 0x80]
  }

  predicate HyphenBefore(i: nat) { i == 4 || i == 6 || i == 8 || i == 10 }

  /** The text of the first n bytes. */
  function TextTo(bytes: seq<bv8>, n: nat): string
    requires n <= |bytes|
  {
    if n == 0 then ""
    else TextTo(bytes, n - 1) + (if HyphenBefore(n - 1) then "-" else "") + HexByte(bytes[n - 1])
  }

  function Text(bytes: seq<bv8>): string { TextTo(bytes, |bytes|) }

  /** Where the digits of byte i stand. */
  function Offset(i: nat): nat {
    2 * i + (if i >= 4 then 1 else 0) + (if i >= 6 then 1 else 0)
    + (if i >= 8 then 1 else 0) + (if i >= 10 then 1 else 0)
  }

  lemma {:induction false} TextLength(bytes: seq<bv8>, n: nat)
    requires n <= |bytes|
    ensures |TextTo(bytes, n)| == if n == 0 then 0 else Offset(n - 1) + 2
  {
    if n > 0 {
      TextLength(bytes, n - 1);
    }
  }

  /** What stands at the place of byte i, and before it. */
  lemma {:induction false} TextAt(bytes: seq<bv8>, n: nat, i: nat)
    requires i < n <= |bytes|
    ensures Offset(i) + 2 <= |TextTo(bytes, n)|
    ensures TextTo(bytes, n)[Offset(i)] == HexByte(bytes[i])[0]
    ensures TextTo(bytes, n)[Offset(i) + 1] == HexByte(bytes[i])[1]
    ensures HyphenBefore(i) ==> TextTo(bytes, n)[Offset(i) - 1] == '-'
    decreases n
  {
    TextLength(bytes, n);
    TextLength(bytes, n - 1);
    if i < n - 1 {
      TextAt(bytes, n - 1, i);
    }
  }

  function Decode(text: string): (bytes: seq<bv8>)
    requires |text| == 36
    ensures |bytes| == 16
  {
    seq(16, i requires 0 <= i < 16 => ByteOf(text[Offset(i)..Offset(i) + 2]))
  }

  /** The 8-4-4-4-12 form with version digit 4 and one of the variant digits 8, 9, a, b. */
  ghost predicate Version4(text: string) {
    && |text| == 36
    && (forall i :: 0 <= i < 16 ==> IsHex(text[Offset(i)]) && IsHex(text[Offset(i) + 1]))
    && text[8] == '-' && text[13] == '-' && text[18] == '-' && text[23] == '-'
    && text[14] == '4'
    && (text[19] == '8' || text[19] == '9' || text[19] == 'a' || text[19] == 'b')
  }

  /** Decoding gives back all sixteen bytes. */
  lemma DecodeText(bytes: seq<bv8>)
    requires |bytes| == 16
    ensures |Text(bytes)| == 36 && Decode(Text(bytes)) == bytes
  {
    TextLength(bytes, 16);
    forall i | 0 <= i < 16 ensures Decode(Text(bytes))[i] == bytes[i] {
      TextAt(bytes, 16, i);
      ByteOfHex(bytes[i]);
    }
  }

  lemma VersionDigit(b: bv8)
    ensures HexDigit(((b & 0x0f) | 0x40) >> 4) == '4'
  {
    assert ((b & 0x0f) | 0x40) >> 4 == 4;
  }

  lemma VariantDigit(b: bv8)
    ensures var c := HexDigit(((b & 0x3f) | 0x80) >> 4); c == '8' || c == '9' || c == 'a' || c == 'b'
  {
    var d := ((b & 0x3f) | 0x80) >> 4;
    assert d == 8 || d == 9 || d == 10 || d == 11;
  }

  /** Whatever the sixteen random bytes, the text has version-4 form. */
  lemma TextIsVersion4(bytes: seq<bv8>)
    requires |bytes| == 16
    ensures Version4(Text(Masked(bytes)))
  {
    var m := Masked(bytes);
    var text := Text(m);
    TextLength(m, 16);
    forall i | 0 <= i < 16 ensures IsHex(text[Offset(i)]) && IsHex(text[Offset(i) + 1]) {
      TextAt(m, 16, i);
      ByteOfHex(m[i]);
    }
    Hyphens(m);
    TextAt(m, 16, 6);
    TextAt(m, 16, 8);
    VersionDigit(bytes[6]);
    VariantDigit(bytes[8]);
  }

  lemma Hyphens(bytes: seq<bv8>)
    requires |bytes| == 16
    ensures var text := Text(bytes);
            |text| == 36 && text[8] == '-' && text[13] == '-' && text[18] == '-' && text[23] == '-'
  {
    TextLength(bytes, 16);
    TextAt(bytes, 16, 4);
    TextAt(bytes, 16, 6);
    TextAt(bytes, 16, 8);
    TextAt(bytes, 16, 10);
  }

  /** Outside the six fixed bits. */
  predicate AgreeOutsideFixedBits(a: seq<bv8>, b: seq<bv8>)
    requires |a| == 16 == |b|
  {
    && (forall i :: 0 <= i < 16 && i != 6 && i != 8 ==> a[i] == b[i])
    && a[6] & 0x0f == b[6] & 0x0f && a[8] & 0x3f == b[8] & 0x3f
  }

  lemma FixedBits(x: bv8, y: bv8)
    ensures (x & 0x0f) | 0x40 == (y & 0x0f) | 0x40 <==> x & 0x0f == y & 0x0f
    ensures (x & 0x3f) | 0x80 == (y & 0x3f) | 0x80 <==> x & 0x3f == y & 0x3f
  {}

  lemma MaskedAt(a: seq<bv8>)
    requires |a| == 16
    ensures Masked(a)[6] == (a[6] & 0x0f) | 0x40 && Masked(a)[8] == (a[8] & 0x3f) | 0x80
    ensures forall i :: 0 <= i < 16 && i != 6 && i != 8 ==> Masked(a)[i] == a[i]
  {}

  lemma MaskedCollides(a: seq<bv8>, b: seq<bv8>)
    requires |a| == 16 == |b|
    ensures Masked(a) == Masked(b) <==> AgreeOutsideFixedBits(a, b)
  {
    MaskedAt(a);
    MaskedAt(b);
    FixedBits(a[6], b[6]);
    FixedBits(a[8], b[8]);
    if AgreeOutsideFixedBits(a, b) {
      assert forall i :: 0 <= i < 16 ==> Masked(a)[i] == Masked(b)[i];
    }
  }

  /** Hexadecimal digits by their character codes: '0' to '9', then 'a' to 'f'. */
  lemma HexDigitCode(d: bv8)
    requires d < 16
    ensures HexDigit(d) as int == if d < 10 then 48 + d as int else 87 + d as int
  {}

  /** Where the two digits of each byte stand. */
  const PLACES: seq<nat> := [0, 2, 4, 6, 9, 11, 14, 16, 19, 21, 24, 26, 28, 30, 32, 34]

  /** The bytes in order, two digits each, high one first. */
  lemma TextLayout(bytes: seq<bv8>, i: nat)
    requires |bytes| == 16 && i < 16
    ensures |Text(bytes)| == 36
    ensures Text(bytes)[PLACES[i]] == HexDigit(bytes[i] >> 4)
    ensures Text(bytes)[PLACES[i] + 1] == HexDigit(bytes[i] & 0x0f)
  {
    TextLength(bytes, 16);
    TextAt(bytes, 16, i);
    assert PLACES[i] == Offset(i);
  }

  /** Two draws print alike exactly when they agree outside the six fixed bits. */
  lemma TextCollides(a: seq<bv8>, b: seq<bv8>)
    requires |a| == 16 == |b|
    ensures Text(Masked(a)) == Text(Masked(b)) <==> AgreeOutsideFixedBits(a, b)
  {
    MaskedCollides(a, b);
    DecodeText(Masked(a));
    DecodeText(Masked(b));
  }

  /** Every text of version-4 form is the print of some draw: nothing is lost or left out. */
  lemma Version4IsPrinted(text: string)
    requires Version4(text)
    ensures Masked(Decode(text)) == Decode(text) && Text(Decode(text)) == text
  {
    var bytes := Decode(text);
    FixedFromText(text);
    var again := Text(bytes);
    Hyphens(bytes);
    forall i | 0 <= i < 16 ensures again[Offset(i)] == text[Offset(i)] && again[Offset(i) + 1] == text[Offset(i) + 1] {
      TextAt(bytes, 16, i);
      HexOfByte(text[Offset(i)..Offset(i) + 2]);
    }
    forall k | 0 <= k < 36 ensures again[k] == text[k] {
      if k != 8 && k != 13 && k != 18 && k != 23 {
        var i := ByteAt(k);
      }
    }
  }

  /** The byte whose digits include position k. */
  lemma ByteAt(k: nat) returns (i: nat)
    requires k < 36 && k != 8 && k != 13 && k != 18 && k != 23
    ensures i < 16 && (k == Offset(i) || k == Offset(i) + 1)
  {
    i := if k < 8 then k / 2 else if k < 13 then (k - 1) / 2 else if k < 18 then (k - 2) / 2
         else if k < 23 then (k - 3) / 2 else (k - 4) / 2;
  }

  lemma FixedFromText(text: string)
    requires Version4(text)
    ensures Masked(Decode(text)) == Decode(text)
  {
    assert Offset(6) == 14 && Offset(8) == 19;
    var a, b := text[14..16], text[19..21];
    assert IsHex(text[Offset(6) + 1]) && IsHex(text[Offset(8) + 1]);
    VersionBits(a);
    VariantBits(b);
  }

  lemma VersionBits(s: string)
    requires |s| == 2 && s[0] == '4' && IsHex(s[1])
    ensures (ByteOf(s) & 0x0f) | 0x40 == ByteOf(s)
  {
    ValueDigit(s[1]);
    VersionNibble(HexValue(s[1]));
  }

  lemma VersionNibble(lo: bv8)
    requires lo < 16
    ensures (((4 << 4) | lo) & 0x0f) | 0x40 == (4 << 4) | lo
  {}

  lemma VariantBits(s: string)
    requires |s| == 2 && (s[0] == '8' || s[0] == '9' || s[0] == 'a' || s[0] == 'b') && IsHex(s[1])
    ensures (ByteOf(s) & 0x3f) | 0x80 == ByteOf(s)
  {
    ValueDigit(s[1]);
    VariantNibble(HexValue(s[0]), HexValue(s[1]));
  }

  lemma VariantNibble(hi: bv8, lo: bv8)
    requires lo < 16 && 8 <= hi <= 11
    ensures (((hi << 4) | lo) & 0x3f) | 0x80 == (hi << 4) | lo
  {}
}

/** The generator of the dataset. Its random numbers are an arbitrary stream. */
module Generator {
  import opened Store
  import opened Uuid
  import opened Wrappers
  import opened IsoTimestamp

  const NUM_UNIQUE_USERS := 100000
  const BASE_TIMESTAMP := 1640995200
  const TIMESTAMP_RANGE := 730 * 24 * 60 * 60
  const STATUS_POOL := ["pending", "shipped", "delivered", "cancelled"]

  /** One draw from lo..hi inclusive. */
  function Uniform(raw: nat, lo: nat, hi: nat): (r: nat)
    requires lo <= hi
    ensures lo <= r <= hi
  {
    lo + raw % (hi - lo + 1)
  }

  /** Every value of the range is drawn by some number, and by exactly those that agree with it modulo
      the size of the range. */
  lemma EveryValueDrawn(lo: nat, hi: nat, v: nat, raw: nat)
    requires lo <= v <= hi
    ensures Uniform(v - lo, lo, hi) == v
    ensures Uniform(raw, lo, hi) == v <==> raw % (hi - lo + 1) == v - lo
  {
    SmallRemainder(v - lo, hi - lo + 1);
  }

  lemma SmallRemainder(a: nat, n: nat)
    requires a < n
    ensures a % n == a
  {}

  ghost predicate IsUuid(s: string) {
    exists bytes: seq<bv8> :: |bytes| == 16 && s == Text(Masked(bytes))
  }

  /** A generated time: the text of an epoch within the two years from 2022-01-01T00:00:00Z. */
  ghost predicate IsGeneratedTime(s: string) {
    exists e: nat :: BASE_TIMESTAMP <= e <= BASE_TIMESTAMP + TIMESTAMP_RANGE && s == EpochToIso(e)
  }

  ghost predicate IsGenerated(o: Order, pool: seq<string>) {
    && IsUuid(o.orderId) && IsUuid(o.productId) && o.userId in pool && o.status in STATUS_POOL
    && 1.0 <= o.amount <= 999.99 && 1 <= o.quantity <= 10
    && IsGeneratedTime(o.createdAt) && o.updatedAt == o.createdAt
  }

  type FilledPool = pool: seq<string> | |pool| == NUM_UNIQUE_USERS witness seq(NUM_UNIQUE_USERS, _ => "")

  /** Two identifiers and five single draws. */
  const DRAWS_PER_ORDER := 37

  /** n consecutive things, each made from its own draws. */
  function Collect<T>(make: nat -> T, p: nat, n: nat): (things: seq<T>)
    ensures |things| == n
  {
    if n == 0 then [] else Collect(make, p, n - 1) + [make(p + DRAWS_PER_ORDER * (n - 1))]
  }

  lemma {:induction false} CollectAt<T>(make: nat -> T, p: nat, n: nat, i: nat)
    requires i < n
    ensures Collect(make, p, n)[i] == make(p + DRAWS_PER_ORDER * i)
  {
    if i < n - 1 {
      CollectAt(make, p, n - 1, i);
    }
  }

  lemma CollectMore<T>(make: nat -> T, p: nat, n: nat, at: nat, t: T)
    requires at == p + DRAWS_PER_ORDER * n && t == make(at)
    ensures Collect(make, p, n + 1) == Collect(make, p, n) + [t]
  {}

  /** Where the draws of thing i begin. */
  function At(p: nat, i: nat): nat { p + DRAWS_PER_ORDER * i }

  lemma CollectedIds(make: nat -> Order, alike: (nat, nat) -> bool, p: nat, n: nat)
    requires forall x, y :: make(x).orderId == make(y).orderId <==> alike(x, y)
    ensures DistinctIds(Collect(make, p, n)) <==> forall i, j :: 0 <= i < j < n ==> !alike(At(p, i), At(p, j))
  {
    var os := Collect(make, p, n);
    forall i | 0 <= i < n ensures os[i] == make(At(p, i)) {
      CollectAt(make, p, n, i);
    }
  }

  lemma CollectedPairs(make: nat -> Order, alike: (nat, nat) -> bool, p: nat, n: nat)
    requires forall x, y :: PairOf(make(x)) == PairOf(make(y)) <==> alike(x, y)
    ensures DistinctPairs(Collect(make, p, n)) <==> forall i, j :: 0 <= i < j < n ==> !alike(At(p, i), At(p, j))
  {
    var os := Collect(make, p, n);
    forall i | 0 <= i < n ensures os[i] == make(At(p, i)) {
      CollectAt(make, p, n, i);
    }
  }

  class DataGenerator {
    const bytes: nat -> bv8
    const draws: nat -> nat
    const description: string
    var position: nat
    var userIdPool: seq<string>

    ghost predicate PoolFilled()
      reads this`userIdPool
    {
      |userIdPool| == NUM_UNIQUE_USERS
    }

    constructor (bytes: nat -> bv8, draws: nat -> nat, description: string)
      ensures PoolFilled() && position == 16 * NUM_UNIQUE_USERS
      ensures forall i :: 0 <= i < |userIdPool| ==> userIdPool[i] == UuidAt(16 * i)
    {
      this.bytes, this.draws, this.description := bytes, draws, description;
      position, userIdPool := 0, [];
      new;
      for i := 0 to NUM_UNIQUE_USERS
        invariant |userIdPool| == i && position == 16 * i
        invariant forall k :: 0 <= k < i ==> userIdPool[k] == UuidAt(16 * k)
      {
        var id := GenerateUuid();
        userIdPool := userIdPool + [id];
      }
    }

    /** The sixteen bytes drawn from position p on. */
    function Drawn(p: nat): (s: seq<bv8>)
      ensures |s| == 16 && forall i :: 0 <= i < 16 ==> s[i] == bytes(p + i)
    {
      seq(16, i requires 0 <= i < 16 => bytes(p + i))
    }

    /** The identifier made of those bytes. */
    function UuidAt(p: nat): string {
      Text(Masked(Drawn(p)))
    }

    /** The time drawn at position p. */
    function TimeAt(p: nat): string { EpochToIso(EpochAt(p)) }

    function EpochAt(p: nat): (e: nat)
      ensures BASE_TIMESTAMP <= e <= BASE_TIMESTAMP + TIMESTAMP_RANGE
    {
      BASE_TIMESTAMP + Uniform(draws(p), 0, TIMESTAMP_RANGE)
    }

    /** Sixteen random bytes. */
    method DrawBytes() returns (buffer: array<bv8>)
      modifies this`position
      ensures fresh(buffer) && buffer.Length == 16
      ensures buffer[..] == Drawn(old(position)) && position == old(position) + 16
    {
      buffer := new bv8[16];
      for i := 0 to 16
        invariant position == old(position) + i
        invariant forall k :: 0 <= k < i ==> buffer[k] == bytes(old(position) + k)
      {
        buffer[i] := bytes(position);
        position := position + 1;
      }
      assert buffer[..] == Drawn(old(position));
    }

    /** The six bits of version 4 and its variant. */
    method SetVersion(buffer: array<bv8>)
      requires buffer.Length == 16
      modifies buffer
      ensures buffer[..] == Masked(old(buffer[..]))
    {
      buffer[6] := (buffer[6] & 0x0f) | 0x40;
      buffer[8] := (buffer[8] & 0x3f) | 0x80;
    }

    /** The bytes in hexadecimal, with hyphens. */
    method Print(buffer: array<bv8>) returns (text: string)
      requires buffer.Length == 16
      ensures text == Text(buffer[..])
    {
      text := "";
      for i := 0 to 16
        invariant text == TextTo(buffer[..], i)
      {
        if i == 4 || i == 6 || i == 8 || i == 10 {
          text := text + "-";
        }
        text := text + HexByte(buffer[i]);
      }
    }

    method GenerateUuid() returns (text: string)
      modifies this`position
      ensures text == UuidAt(old(position)) && position == old(position) + 16
    {
      var buffer := DrawBytes();
      SetVersion(buffer);
      text := Print(buffer);
    }

    method Draw(lo: nat, hi: nat) returns (r: nat)
      requires lo <= hi
      modifies this`position
      ensures r == Uniform(draws(old(position)), lo, hi) && position == old(position) + 1
    {
      r := Uniform(draws(position), lo, hi);
      position := position + 1;
    }

    method RandomUserId() returns (id: string)
      requires PoolFilled()
      modifies this`position
      ensures id == UserAt(userIdPool, old(position)) && position == old(position) + 1
    {
      var k := Draw(0, |userIdPool| - 1);
      id := userIdPool[k];
    }

    method GenerateTimestamp() returns (text: string)
      modifies this`position
      ensures position == old(position) + 1
      ensures text == TimeAt(old(position))
    {
      var offset := Draw(0, TIMESTAMP_RANGE);
      text := EpochToIso(BASE_TIMESTAMP + offset);
    }

    /** The amount drawn at position p, in whole cents. */
    function AmountAt(p: nat): (amount: real)
      ensures 1.0 <= amount <= 999.99
    {
      Uniform(draws(p), 100, 99999) as real / 100.0
    }

    /** A uniform amount rounded to cents. */
    method DrawAmount() returns (amount: real)
      modifies this`position
      ensures amount == AmountAt(old(position)) && position == old(position) + 1
    {
      var cents := Draw(100, 99999);
      amount := cents as real / 100.0;
    }

    method RandomStatus() returns (status: string)
      modifies this`position
      ensures status == StatusAt(old(position)) && position == old(position) + 1
    {
      var k := Draw(0, 3);
      status := STATUS_POOL[k];
    }

    /** The single draws of an order. */
    function UserAt(pool: FilledPool, p: nat): (id: string)
      ensures id in pool
    {
      pool[Uniform(draws(p), 0, NUM_UNIQUE_USERS - 1)]
    }

    function StatusAt(p: nat): (status: string)
      ensures status in STATUS_POOL
    {
      STATUS_POOL[Uniform(draws(p), 0, 3)]
    }

    function QuantityAt(p: nat): (quantity: nat)
      ensures 1 <= quantity <= 10
    {
      Uniform(draws(p), 1, 10)
    }

    /** The order made of the draws from position p on. */
    function OrderAt(pool: FilledPool, p: nat): Order {
      Order(UuidAt(p), UserAt(pool, p + 16), UuidAt(p + 17), StatusAt(p + 33), AmountAt(p + 34),
            QuantityAt(p + 35), description, TimeAt(p + 36), TimeAt(p + 36))
    }

    /** Every field of an order, drawn by draw. */
    lemma OrderFields(pool: FilledPool, p: nat)
      ensures var o := OrderAt(pool, p);
              && o.orderId == Text(Masked(Drawn(p))) && o.productId == Text(Masked(Drawn(p + 17)))
              && o.userId == pool[draws(p + 16) % 100000]
              && o.status == ["pending", "shipped", "delivered", "cancelled"][draws(p + 33) % 4]
              && o.amount == (100 + draws(p + 34) % 99900) as real / 100.0
              && o.quantity == 1 + draws(p + 35) % 10
              && o.createdAt == o.updatedAt == EpochToIso(1640995200 + draws(p + 36) % 63072001)
              && o.description == description
    {}

    /** Two orders are of one product exactly when their product draws agree outside the fixed bits. */
    lemma ProductsAgreeIff(pool: FilledPool, p: nat, q: nat)
      ensures OrderAt(pool, p).productId == OrderAt(pool, q).productId
              <==> AgreeOutsideFixedBits(Drawn(p + 17), Drawn(q + 17))
    {
      TextCollides(Drawn(p + 17), Drawn(q + 17));
    }

    lemma UuidAtIsUuid(p: nat)
      ensures IsUuid(UuidAt(p))
    {
      assert |Drawn(p)| == 16;
    }

    lemma TimeAtIsGenerated(p: nat)
      ensures IsGeneratedTime(TimeAt(p))
    {
      assert TimeAt(p) == EpochToIso(EpochAt(p));
    }

    /** Every generated order has its fields in their pools and ranges, whatever the draws. */
    lemma OrderAtIsGenerated(pool: FilledPool, p: nat)
      ensures IsGenerated(OrderAt(pool, p), pool)
    {
      UuidAtIsUuid(p);
      UuidAtIsUuid(p + 17);
      TimeAtIsGenerated(p + 36);
    }

    /** The identifiers of an order: its own, its user's and its product's. */
    method DrawIds() returns (orderId: string, userId: string, productId: string)
      requires PoolFilled()
      modifies this`position
      ensures orderId == UuidAt(old(position)) && userId == UserAt(userIdPool, old(position) + 16)
      ensures productId == UuidAt(old(position) + 17) && position == old(position) + 33
    {
      orderId := GenerateUuid();
      userId := RandomUserId();
      productId := GenerateUuid();
    }

    method GenerateOne() returns (o: Order)
      requires PoolFilled()
      modifies this`position
      ensures o == OrderAt(userIdPool, old(position)) && position == old(position) + DRAWS_PER_ORDER
    {
      var orderId, userId, productId := DrawIds();
      var status := RandomStatus();
      var amount := DrawAmount();
      var quantity := Draw(1, 10);
      var createdAt := GenerateTimestamp();
      o := Order(orderId, userId, productId, status, amount, quantity, description, createdAt, createdAt);
    }

    /** What the draws from a position make, for every position. */
    function Maker(pool: FilledPool): nat -> Order { (p: nat) => OrderAt(pool, p) }

    /** Order i of a dataset is made of the draws from 37 * i on. */
    lemma DatasetAt(pool: FilledPool, p: nat, n: nat, i: nat)
      requires i < n
      ensures |Collect(Maker(pool), p, n)| == n && Collect(Maker(pool), p, n)[i] == Maker(pool)(p + 37 * i)
    {
      var make := Maker(pool);
      CollectAt(make, p, n, i);
    }

    lemma MakerMakesGenerated(pool: FilledPool, p: nat)
      ensures IsGenerated(Maker(pool)(p), pool)
    {
      OrderAtIsGenerated(pool, p);
    }

    /** Every order of a generated dataset has its fields in their pools and ranges. */
    lemma DatasetIsGenerated(pool: FilledPool, p: nat, n: nat, i: nat)
      requires i < n
      ensures IsGenerated(Collect(Maker(pool), p, n)[i], pool)
    {
      var make := Maker(pool);
      CollectAt(make, p, n, i);
      MakerMakesGenerated(pool, p + DRAWS_PER_ORDER * i);
    }

    /** No two identifiers of orders are drawn alike outside the six fixed bits. */
    ghost predicate IdsDrawnApart(p: nat, n: nat) {
      forall i, j :: 0 <= i < j < n ==> !AgreeOutsideFixedBits(Drawn(At(p, i)), Drawn(At(p, j)))
    }

    /** The draws from two positions on give one user and one epoch. */
    predicate PairDrawnAlike(pool: FilledPool, p: nat, q: nat) {
      UserAt(pool, p + 16) == UserAt(pool, q + 16) && EpochAt(p + 36) == EpochAt(q + 36)
    }

    /** No user is drawn twice with one epoch. */
    ghost predicate PairsDrawnApart(pool: FilledPool, p: nat, n: nat) {
      forall i, j :: 0 <= i < j < n ==> !PairDrawnAlike(pool, At(p, i), At(p, j))
    }

    lemma IdsAgreeIff(pool: FilledPool, p: nat, q: nat)
      ensures Maker(pool)(p).orderId == Maker(pool)(q).orderId <==> AgreeOutsideFixedBits(Drawn(p), Drawn(q))
    {
      TextCollides(Drawn(p), Drawn(q));
    }

    lemma PairsAgreeIff(pool: FilledPool, p: nat, q: nat)
      ensures PairOf(Maker(pool)(p)) == PairOf(Maker(pool)(q)) <==> PairDrawnAlike(pool, p, q)
    {
      TimesAgreeIff(EpochAt(p + 36), EpochAt(q + 36));
    }

    lemma AllPairsAgreeIff(pool: FilledPool, alike: (nat, nat) -> bool)
      requires forall x, y :: alike(x, y) <==> PairDrawnAlike(pool, x, y)
      ensures forall x, y :: PairOf(Maker(pool)(x)) == PairOf(Maker(pool)(y)) <==> alike(x, y)
    {
      forall x, y ensures PairOf(Maker(pool)(x)) == PairOf(Maker(pool)(y)) <==> alike(x, y) {
        PairsAgreeIff(pool, x, y);
      }
    }

    /** The orders of a generated dataset have distinct ids exactly when they were drawn apart. */
    lemma DistinctIdsIff(pool: FilledPool, p: nat, n: nat)
      ensures DistinctIds(Collect(Maker(pool), p, n)) <==> IdsDrawnApart(p, n)
    {
      var alike := (x: nat, y: nat) => AgreeOutsideFixedBits(Drawn(x), Drawn(y));
      forall x, y ensures Maker(pool)(x).orderId == Maker(pool)(y).orderId <==> alike(x, y) {
        IdsAgreeIff(pool, x, y);
      }
      CollectedIds(Maker(pool), alike, p, n);
    }

    /** And distinct (user, created_at) pairs exactly when no user was drawn twice with one epoch. */
    lemma DistinctPairsIff(pool: FilledPool, p: nat, n: nat)
      ensures DistinctPairs(Collect(Maker(pool), p, n)) <==> PairsDrawnApart(pool, p, n)
    {
      var make: nat -> Order := Maker(pool);
      var alike := (x: nat, y: nat) => PairDrawnAlike(pool, x, y);
      AllPairsAgreeIff(pool, alike);
      CollectedPairs(make, alike, p, n);
    }

    method GenerateN(n: nat) returns (orders: seq<Order>)
      requires PoolFilled()
      modifies this`position
      ensures orders == Collect(Maker(userIdPool), old(position), n)
      ensures position == old(position) + DRAWS_PER_ORDER * n
    {
      orders := [];
      ghost var make := Maker(userIdPool);
      for i := 0 to n
        invariant orders == Collect(make, old(position), i) && position == old(position) + DRAWS_PER_ORDER * i
      {
        ghost var at := position;
        var o := GenerateOne();
        assert o == make(at);
        CollectMore(make, old(position), i, at, o);
        orders := orders + [o];
      }
    }

    /** Samples with a generator of its own, so the object is left unchanged; None for the exception. */
    method SampleUserIds(n: nat, localDraws: nat -> nat) returns (r: Option<seq<string>>)
      ensures r.None? <==> userIdPool == []
      ensures r.Some? ==> |r.value| == n && forall i :: 0 <= i < n ==>
                r.value[i] == userIdPool[Uniform(localDraws(i), 0, |userIdPool| - 1)]
    {
      if userIdPool == [] {
        return None;
      }
      var ids: seq<string> := [];
      for i := 0 to n
        invariant |ids| == i
        invariant forall k :: 0 <= k < i ==> ids[k] == userIdPool[Uniform(localDraws(k), 0, |userIdPool| - 1)]
      {
        ids := ids + [userIdPool[Uniform(localDraws(i), 0, |userIdPool| - 1)]];
      }
      return Some(ids);
    }
  }

  /** Read by the columns of the other table, no generated order comes back from orders_by_user as it was
      stored, whatever the three values read at the wrong type are. */
  lemma GeneratedOrdersMisread(o: Order, pool: seq<string>, amount: real, quantity: int, description: string)
    requires IsGenerated(o, pool)
    ensures ReadByPosition(RowOf(o), amount, quantity, description) != Store.Decode(RowOf(o))
  {
    UuidLength(o.productId);
    StatusLength(o.status);
  }

  lemma UuidLength(s: string)
    requires IsUuid(s)
    ensures |s| == 36
  {
    var bytes: seq<bv8> :| |bytes| == 16 && s == Text(Masked(bytes));
    TextIsVersion4(bytes);
  }

  lemma StatusLength(s: string)
    requires s in STATUS_POOL
    ensures |s| < 36
  {}

  lemma TimesAgreeIff(a: nat, b: nat)
    requires BASE_TIMESTAMP <= a <= BASE_TIMESTAMP + TIMESTAMP_RANGE
    requires BASE_TIMESTAMP <= b <= BASE_TIMESTAMP + TIMESTAMP_RANGE
    ensures EpochToIso(a) == EpochToIso(b) <==> a == b
  {
    ParseRender(a);
    ParseRender(b);
  }

  /** Generated times lie in the years whose texts sort correctly, so comparing two of them as
      strings is comparing their epochs; the range runs from new year 2022 to new year 2024. */
  lemma GeneratedTimes(a: nat, b: nat)
    requires BASE_TIMESTAMP <= a <= BASE_TIMESTAMP + TIMESTAMP_RANGE
    requires BASE_TIMESTAMP <= b <= BASE_TIMESTAMP + TIMESTAMP_RANGE
    ensures Lexicographic.Less(EpochToIso(a), EpochToIso(b)) <==> a < b
    ensures Calendar.CivilOf(BASE_TIMESTAMP) == Calendar.Civil(2022, 1, 1, 0, 0, 0)
    ensures Calendar.CivilOf(BASE_TIMESTAMP + TIMESTAMP_RANGE) == Calendar.Civil(2024, 1, 1, 0, 0, 0)
    ensures 2022 <= Calendar.CivilOf(a).year <= 2024
  {
    IsoOrder(a, b);
    NewYears();
    Calendar.EpochOfCivil(a);
    Calendar.EpochOrder(Calendar.CivilOf(a), Calendar.Civil(2022, 1, 1, 0, 0, 0));
    Calendar.EpochOrder(Calendar.Civil(2024, 1, 1, 0, 0, 0), Calendar.CivilOf(a));
  }

  lemma NewYears()
    ensures Calendar.EpochOf(Calendar.Civil(2022, 1, 1, 0, 0, 0)) == BASE_TIMESTAMP
    ensures Calendar.EpochOf(Calendar.Civil(2024, 1, 1, 0, 0, 0)) == BASE_TIMESTAMP + TIMESTAMP_RANGE
    ensures Calendar.CivilOf(BASE_TIMESTAMP) == Calendar.Civil(2022, 1, 1, 0, 0, 0)
    ensures Calendar.CivilOf(BASE_TIMESTAMP + TIMESTAMP_RANGE) == Calendar.Civil(2024, 1, 1, 0, 0, 0)
  {
    DaysUntilNewYears();
    Calendar.NewYear(2022);
    Calendar.NewYear(2024);
  }

  lemma DaysUntilNewYears()
    ensures Calendar.DaysBeforeYear(2022) == 18993 && Calendar.DaysBeforeYear(2024) == 19723
  {
    Calendar.DaysBeforeYearClosed(2022);
    Calendar.DaysBeforeYearClosed(2024);
  }
}
