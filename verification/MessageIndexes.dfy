/**
 * The message-index prefix of a Protobuf payload: zigzag varints as in the Protocol
 * Buffers encoding guide ("Base 128 Varints", "Signed Integers"), read in 64 bits.
 */
module MessageIndexes {
  import opened Rows

  type Byte = b: int | 0 <= b < 256

  const TWO_63: int := 0x8000_0000_0000_0000
  const TWO_64: int := 0x1_0000_0000_0000_0000
  const TWO_31: int := 0x8000_0000
  const TWO_32: int := 0x1_0000_0000

  /** The number a run of 7-bit groups spells, lowest group first. */
  function Spelled(s: seq<Byte>): nat {
    if s == [] then 0 else s[0] % 128 + 128 * Spelled(s[1..])
  }

  /** Place value of the `i`-th group. */
  function Place(i: nat): nat {
    if i == 0 then 1 else 128 * Place(i - 1)
  }

  function UnZigzag(u: nat): int {
    if u % 2 == 0 then u / 2 else -(u / 2) - 1
  }

  datatype Read<T> = Ok(value: T, rest: seq<Byte>) | Truncated | InvalidCount

  /** Position `i` ends the first varint: it alone has its top bit clear. */
  predicate EndsAt(bytes: seq<Byte>, i: nat) {
    i < |bytes| && bytes[i] < 128 && forall j | 0 <= j < i :: 128 <= bytes[j]
  }

  /** The end of the first varint, looked for among the first `n` bytes. */
  function End(bytes: seq<Byte>, n: nat): (i: Option<nat>)
    ensures i.Some? ==> i.value < n && EndsAt(bytes, i.value)
    ensures i.None? ==> forall j | 0 <= j < n && j < |bytes| :: 128 <= bytes[j]
  {
    if bytes == [] || n == 0 then None
    else if bytes[0] < 128 then Some(0)
    else
      var i := End(bytes[1..], n - 1);
      if i.Some? then Some(i.value + 1) else None
  }

  const MAX_BYTES: nat := 10

  function ReadVarint(bytes: seq<Byte>): Read<int> {
    var i := End(bytes, MAX_BYTES);
    if i.None? then Truncated
    else Ok(UnZigzag(Spelled(bytes[..i.value + 1]) % TWO_64), bytes[i.value + 1..])
  }

  lemma EndUnique(bytes: seq<Byte>, i: nat, n: nat)
    requires EndsAt(bytes, i) && i < n
    ensures End(bytes, n) == Some(i)
  {}

  lemma {:induction false} SpelledAppend(s: seq<Byte>, b: Byte)
    ensures Spelled(s + [b]) == Spelled(s) + (b % 128) * Place(|s|)
  {
    if s == [] {
      assert s + [b] == [b];
    } else {
      SpelledAppend(s[1..], b);
      assert (s + [b])[1..] == s[1..] + [b];
      assert 128 * ((b % 128) * Place(|s| - 1)) == (b % 128) * Place(|s|);
    }
  }

  lemma {:induction false} SpelledBelow(s: seq<Byte>)
    ensures Spelled(s) < Place(|s|)
  {
    if s != [] { SpelledBelow(s[1..]); }
  }

  lemma Places()
    ensures Place(0) == 1 && Place(1) == 0x80 && Place(2) == 0x4000 && Place(3) == 0x20_0000 && Place(4) == 0x1000_0000
    ensures Place(5) == 0x8_0000_0000 && Place(6) == 0x400_0000_0000 && Place(7) == 0x2_0000_0000_0000
    ensures Place(8) == 0x100_0000_0000_0000 && Place(9) == TWO_63
  {
    assert Place(2) == 128 * Place(1) && Place(3) == 128 * Place(2) && Place(4) == 128 * Place(3);
    assert Place(5) == 128 * Place(4) && Place(6) == 128 * Place(5) && Place(7) == 128 * Place(6);
    assert Place(8) == 128 * Place(7) && Place(9) == 128 * Place(8);
  }

  lemma Scaled(c: nat, place: nat)
    requires c < 128
    ensures 0 <= c * place <= 127 * place
  {
    assert (127 - c) * place >= 0;
    assert 127 * place - c * place == (127 - c) * place;
  }

  lemma {:induction false} PlaceGrows(i: nat, j: nat)
    requires i <= j
    ensures Place(i) <= Place(j)
  {
    if i < j { PlaceGrows(i, j - 1); }
  }

  lemma Whole(n: int)
    requires 0 <= n < TWO_64
    ensures n % TWO_64 == n
  {}

  lemma TopGroup(x: nat, c: nat)
    requires x < TWO_63 && c < 128
    ensures (x + c * TWO_63) % TWO_64 == x + (c * TWO_63) % TWO_64
  {
    var q, r := c / 2, c % 2;
    assert c * TWO_63 == q * TWO_64 + r * TWO_63;
    assert (q * TWO_64 + r * TWO_63) % TWO_64 == r * TWO_63;
    assert (q * TWO_64 + (x + r * TWO_63)) % TWO_64 == x + r * TWO_63;
  }

  /** Or-ing a group in at its place is adding it there: the bits below are free and
      those past the 64th fall off. */
  lemma GroupAdds(x: nat, c: nat, i: nat)
    requires i <= 9 && x < Place(i) && c < 128
    ensures (x + c * Place(i)) % TWO_64 == x + (c * Place(i)) % TWO_64
    ensures i < 9 ==> x + c * Place(i) < TWO_64
  {
    Places();
    if i == 9 {
      TopGroup(x, c);
    } else {
      Scaled(c, Place(i));
      PlaceGrows(i + 1, 9);
      assert Place(i + 1) == 128 * Place(i);
      Whole(x + c * Place(i));
      Whole(c * Place(i));
    }
  }

  /** One more byte of the loop. */
  lemma Accumulates(bytes: seq<Byte>, i: nat, result: nat)
    requires i < |bytes| && i <= 9 && result == Spelled(bytes[..i])
    ensures (result + ((bytes[i] % 128) * Place(i)) % TWO_64) == Spelled(bytes[..i + 1]) % TWO_64
    ensures i < 9 ==> Spelled(bytes[..i + 1]) % TWO_64 == Spelled(bytes[..i + 1])
  {
    assert bytes[..i + 1] == bytes[..i] + [bytes[i]];
    SpelledAppend(bytes[..i], bytes[i]);
    SpelledBelow(bytes[..i]);
    GroupAdds(result, bytes[i] % 128, i);
    if i < 9 { Whole(Spelled(bytes[..i + 1])); }
  }

  /** Every byte before `i` has its top bit set, and their groups amount to `result`. */
  predicate SpelledSo(bytes: seq<Byte>, i: nat, result: nat) {
    i <= |bytes| && i <= 9 && result == Spelled(bytes[..i]) && forall j | 0 <= j < i :: 128 <= bytes[j]
  }

  /** What the accumulator is once the group at `i` is or-ed in. */
  function Ored(bytes: seq<Byte>, i: nat, result: nat): nat
    requires i < |bytes|
  {
    result + ((bytes[i] % 128) * Place(i)) % TWO_64
  }

  lemma LastByte(bytes: seq<Byte>, i: nat, result: nat)
    requires SpelledSo(bytes, i, result) && i < |bytes| && bytes[i] < 128
    ensures ReadVarint(bytes) == Ok(UnZigzag(Ored(bytes, i, result)), bytes[i + 1..])
  {
    Accumulates(bytes, i, result);
    EndUnique(bytes, i, MAX_BYTES);
  }

  lemma NextByte(bytes: seq<Byte>, i: nat, result: nat)
    requires SpelledSo(bytes, i, result) && i < |bytes| && 128 <= bytes[i]
    ensures if i < 9 then SpelledSo(bytes, i + 1, Ored(bytes, i, result)) else ReadVarint(bytes) == Truncated
  {
    Accumulates(bytes, i, result);
  }

  lemma NoMoreBytes(bytes: seq<Byte>, result: nat)
    requires |bytes| <= 9 && SpelledSo(bytes, |bytes|, result)
    ensures ReadVarint(bytes) == Truncated
  {}

  /** The decoding loop, over a 64-bit accumulator. */
  method ReadZigzagVarint(bytes: seq<Byte>) returns (r: Read<int>)
    ensures r == ReadVarint(bytes)
  {
    var result: nat, shift, i := 0, 0, 0;
    var place := 1;
    while i < |bytes|
      invariant 0 <= i <= 9 && shift == 7 * i && place == Place(i) && SpelledSo(bytes, i, result)
      decreases |bytes| - i
    {
      var b := bytes[i];
      ghost var before := result;
      result := result + ((b % 128) * place) % TWO_64;
      if b < 128 {
        LastByte(bytes, i, before);
        return Ok(if result % 2 == 0 then result / 2 else -(result / 2) - 1, bytes[i + 1..]);
      }
      NextByte(bytes, i, before);
      shift := shift + 7;
      if shift >= 64 {
        return Truncated;
      }
      place := 128 * place;
      i := i + 1;
    }
    NoMoreBytes(bytes, result);
    r := Truncated;
  }

  // ---- the printer ----------------------------------------------------------------

  predicate InI64(n: int) { -TWO_63 <= n < TWO_63 }

  predicate InI32(n: int) { -TWO_31 <= n < TWO_31 }

  function Zigzag(n: int): nat {
    if n >= 0 then 2 * n else -2 * n - 1
  }

  function Groups(u: nat): seq<Byte> {
    if u < 128 then [u] else [128 + u % 128] + Groups(u / 128)
  }

  function WriteVarint(n: int): seq<Byte> { Groups(Zigzag(n)) }

  lemma {:induction false} GroupsSpell(u: nat)
    ensures Spelled(Groups(u)) == u && EndsAt(Groups(u), |Groups(u)| - 1)
  {
    if u >= 128 {
      GroupsSpell(u / 128);
      var g, rest := Groups(u), Groups(u / 128);
      assert g[1..] == rest;
      forall j | 0 <= j < |g| - 1 ensures 128 <= g[j] { if j > 0 { assert g[j] == rest[j - 1]; } }
    } else {
      assert Groups(u)[1..] == [];
    }
  }

  lemma {:induction false} GroupsShort(u: nat, i: nat)
    requires 0 < i && u < Place(i)
    ensures |Groups(u)| <= i
  {
    if u >= 128 {
      assert Place(i) == 128 * Place(i - 1);
      if i == 1 { Places(); }
      GroupsShort(u / 128, i - 1);
    }
  }

  lemma ZigzagBack(n: int)
    requires InI64(n)
    ensures Zigzag(n) < TWO_64 && UnZigzag(Zigzag(n)) == n && UnZigzag(Zigzag(n) % TWO_64) == n
  {}

  lemma GroupsFit(u: nat)
    requires u < TWO_64
    ensures |Groups(u)| <= MAX_BYTES
  {
    Places();
    assert Place(10) == 128 * Place(9);
    GroupsShort(u, 10);
  }

  lemma FrontEnds(g: seq<Byte>, tail: seq<Byte>)
    requires 0 < |g| <= MAX_BYTES && EndsAt(g, |g| - 1)
    ensures ReadVarint(g + tail) == Ok(UnZigzag(Spelled(g) % TWO_64), tail)
  {
    assert EndsAt(g + tail, |g| - 1);
    EndUnique(g + tail, |g| - 1, MAX_BYTES);
    assert (g + tail)[..|g|] == g && (g + tail)[|g|..] == tail;
  }

  /** Reading undoes writing for every 64-bit number, whatever follows it. */
  lemma VarintRoundTrip(n: int, tail: seq<Byte>)
    requires InI64(n)
    ensures ReadVarint(WriteVarint(n) + tail) == Ok(n, tail)
  {
    var u := Zigzag(n);
    ZigzagBack(n);
    GroupsSpell(u);
    GroupsFit(u);
    FrontEnds(Groups(u), tail);
  }

  /** A varint cut short is not read as another one. */
  lemma VarintTruncated(n: int, k: nat)
    requires k < |WriteVarint(n)|
    ensures ReadVarint(WriteVarint(n)[..k]) == Truncated
  {
    GroupsSpell(Zigzag(n));
  }

  // ---- the index list ---------------------------------------------------------------

  const MAX_COUNT: int := 128

  /** The low 32 bits, as a signed number. */
  function Narrow(n: int): int {
    var m := n % TWO_32;
    if m < TWO_31 then m else m - TWO_32
  }

  function ReadMany(bytes: seq<Byte>, n: nat): Read<seq<int>> {
    if n == 0 then Ok([], bytes) else
    var first := ReadVarint(bytes);
    if !first.Ok? then Truncated else
    var more := ReadMany(first.rest, n - 1);
    if more.Ok? then Ok([Narrow(first.value)] + more.value, more.rest) else Truncated
  }

  function ReadIndexes(bytes: seq<Byte>): Read<seq<int>> {
    var count := ReadVarint(bytes);
    if !count.Ok? then Truncated
    else if count.value == 0 then Ok([0], count.rest)
    else if !(0 <= count.value <= MAX_COUNT) then InvalidCount
    else ReadMany(count.rest, count.value)
  }

  method ReadMessageIndexes(bytes: seq<Byte>) returns (r: Read<seq<int>>)
    ensures r == ReadIndexes(bytes)
  {
    var count := ReadZigzagVarint(bytes);
    if !count.Ok? { return Truncated; }
    if count.value == 0 { return Ok([0], count.rest); }
    if !(0 <= count.value <= MAX_COUNT) { return InvalidCount; }
    var indexes, rest, i := [], count.rest, 0;
    ManyStarts(count.rest, count.value);
    while i < count.value
      invariant 0 <= i <= count.value
      invariant ManySo(count.rest, count.value, indexes, rest, i)
    {
      var idx := ReadZigzagVarint(rest);
      ManyNext(count.rest, count.value, indexes, rest, i);
      if !idx.Ok? { return Truncated; }
      indexes, rest, i := indexes + [Narrow(idx.value)], idx.rest, i + 1;
    }
    ManyEnds(count.rest, count.value, indexes, rest);
    r := Ok(indexes, rest);
  }

  /** `i` of `n` numbers have been read. */
  predicate ManySo(bytes: seq<Byte>, n: nat, read: seq<int>, rest: seq<Byte>, i: nat) {
    i <= n &&
    var more, all := ReadMany(rest, n - i), ReadMany(bytes, n);
    if more.Ok? then all == Ok(read + more.value, more.rest) else all == Truncated
  }

  lemma ManyStarts(bytes: seq<Byte>, n: nat)
    ensures ManySo(bytes, n, [], bytes, 0)
  {
    var all := ReadMany(bytes, n);
    if all.Ok? { assert [] + all.value == all.value; }
  }

  lemma ManyEnds(bytes: seq<Byte>, n: nat, read: seq<int>, rest: seq<Byte>)
    requires ManySo(bytes, n, read, rest, n)
    ensures ReadMany(bytes, n) == Ok(read, rest)
  {
    assert read + [] == read;
  }

  lemma ManyNext(bytes: seq<Byte>, n: nat, read: seq<int>, rest: seq<Byte>, i: nat)
    requires ManySo(bytes, n, read, rest, i) && i < n
    ensures var idx := ReadVarint(rest);
      if idx.Ok? then ManySo(bytes, n, read + [Narrow(idx.value)], idx.rest, i + 1) else ReadMany(bytes, n) == Truncated
  {
    var idx := ReadVarint(rest);
    if idx.Ok? {
      var more := ReadMany(idx.rest, n - i - 1);
      if more.Ok? {
        assert read + ([Narrow(idx.value)] + more.value) == (read + [Narrow(idx.value)]) + more.value;
      }
    }
  }

  function WriteMany(xs: seq<int>): seq<Byte> {
    if xs == [] then [] else WriteVarint(xs[0]) + WriteMany(xs[1..])
  }

  function WriteIndexes(xs: seq<int>): seq<Byte> {
    WriteVarint(|xs|) + WriteMany(xs)
  }

  lemma NarrowKeeps(n: int)
    requires InI32(n)
    ensures Narrow(n) == n
  {}

  lemma {:induction false} ManyRoundTrip(xs: seq<int>, tail: seq<Byte>)
    requires forall i | 0 <= i < |xs| :: InI32(xs[i])
    ensures ReadMany(WriteMany(xs) + tail, |xs|) == Ok(xs, tail)
  {
    if xs == [] {
      assert WriteMany(xs) + tail == tail;
    } else {
      var rest := WriteMany(xs[1..]) + tail;
      VarintRoundTrip(xs[0], rest);
      ManyRoundTrip(xs[1..], tail);
      NarrowKeeps(xs[0]);
      Regroup(WriteVarint(xs[0]), WriteMany(xs[1..]), tail);
      FirstOfMany(WriteMany(xs) + tail, |xs|, xs[0], rest, xs, tail);
    }
  }

  lemma Regroup(a: seq<Byte>, b: seq<Byte>, c: seq<Byte>)
    ensures (a + b) + c == a + (b + c)
  {}

  lemma FirstOfMany(bytes: seq<Byte>, n: nat, x: int, rest: seq<Byte>, xs: seq<int>, tail: seq<Byte>)
    requires n == |xs| > 0 && xs[0] == x && Narrow(x) == x
    requires ReadVarint(bytes) == Ok(x, rest) && ReadMany(rest, n - 1) == Ok(xs[1..], tail)
    ensures ReadMany(bytes, n) == Ok(xs, tail)
  {
    assert xs == [x] + xs[1..];
  }

  /** Every list of 1 to 128 32-bit indexes comes back, with exactly the bytes behind it. */
  lemma IndexesRoundTrip(xs: seq<int>, tail: seq<Byte>)
    requires 1 <= |xs| <= MAX_COUNT && forall i | 0 <= i < |xs| :: InI32(xs[i])
    ensures ReadIndexes(WriteIndexes(xs) + tail) == Ok(xs, tail)
  {
    Regroup(WriteVarint(|xs|), WriteMany(xs), tail);
    VarintRoundTrip(|xs|, WriteMany(xs) + tail);
    ManyRoundTrip(xs, tail);
  }

  /** The first message's own short form is one zero byte. */
  lemma ShortForm(tail: seq<Byte>)
    ensures ReadIndexes([0] + tail) == Ok([0], tail)
  {
    assert WriteVarint(0) == [0];
    VarintRoundTrip(0, tail);
  }

  /** A count out of range is refused whatever follows. */
  lemma CountRefused(n: int, tail: seq<Byte>)
    requires InI64(n) && (n < 0 || MAX_COUNT < n)
    ensures ReadIndexes(WriteVarint(n) + tail) == InvalidCount
  {
    VarintRoundTrip(n, tail);
  }

  lemma {:induction false} ManyTruncated(xs: seq<int>, k: nat)
    requires (forall i | 0 <= i < |xs| :: InI32(xs[i])) && k < |WriteMany(xs)|
    ensures ReadMany(WriteMany(xs)[..k], |xs|) == Truncated
  {
    var head, rest := WriteVarint(xs[0]), WriteMany(xs[1..]);
    if k < |head| {
      assert WriteMany(xs)[..k] == head[..k];
      VarintTruncated(xs[0], k);
    } else {
      assert WriteMany(xs)[..k] == head + rest[..k - |head|];
      VarintRoundTrip(xs[0], rest[..k - |head|]);
      ManyTruncated(xs[1..], k - |head|);
    }
  }

  /** A list cut short is refused, never read as a shorter one. */
  lemma IndexesTruncated(xs: seq<int>, k: nat)
    requires 1 <= |xs| <= MAX_COUNT && (forall i | 0 <= i < |xs| :: InI32(xs[i])) && k < |WriteIndexes(xs)|
    ensures ReadIndexes(WriteIndexes(xs)[..k]) == Truncated
  {
    var head, rest := WriteVarint(|xs|), WriteMany(xs);
    if k < |head| {
      assert WriteIndexes(xs)[..k] == head[..k];
      VarintTruncated(|xs|, k);
    } else {
      assert WriteIndexes(xs)[..k] == head + rest[..k - |head|];
      VarintRoundTrip(|xs|, rest[..k - |head|]);
      ManyTruncated(xs, k - |head|);
    }
  }
}
