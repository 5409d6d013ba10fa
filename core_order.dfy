/**
 * The order types and the order-ID format of the older `core/order` layout.
 * Customer IDs are UUIDs here, and the ID has the literal segment `-NONE-`
 * where the current format puts a country:
 * `<first 13 ULID chars>-NONE-<last 13 ULID chars>`.
 */
module CoreOrder {
  import opened Wrappers

  /** `types.UUID`: 16 bytes. */
  type Uuid = b: seq<bv8> | |b| == 16 witness [0, 0, 0, 0, 0, 0, 0, 0, 0, 0, 0, 0, 0, 0, 0, 0]

  const NilUuid: Uuid := [0, 0, 0, 0, 0, 0, 0, 0, 0, 0, 0, 0, 0, 0, 0, 0]

  datatype OrderItem = OrderItem(name: string)

  /** A `time.Time` instant in nanoseconds since January 1, year 1, UTC (0 is the zero time). */
  type Time = int

  datatype Order = Order(
    orderId: string,
    customerId: Uuid,
    creationDate: Time,
    status: string,
    items: seq<OrderItem>)

  datatype OrderRequest = OrderRequest(customerId: Uuid, items: seq<OrderItem>)

  /** `Order{}`. */
  const ZeroOrder := Order("", NilUuid, 0, "", [])

  const UlidLength := 26

  /** `GenerateOrderID()` with the ULID string passed in. */
  function GenerateOrderID(ulid: string): (id: string)
    requires |ulid| == UlidLength
    ensures |id| == 32
    ensures id[..13] == ulid[..13] && id[13..19] == "-NONE-" && id[19..] == ulid[13..]
  {
    var part1 := ulid[..13];
    var part2 := ulid[13..];
    part1 + "-NONE-" + part2
  }

  /** Removes the `-NONE-` segment from an ID of the older format. */
  function ParseOrderID(id: string): (ulid: Option<string>)
    ensures ulid.Some? ==> |ulid.value| == UlidLength
  {
    if |id| == 32 && id[13..19] == "-NONE-" then Some(id[..13] + id[19..]) else None
  }

  /** Removing the `-NONE-` segment gives the ULID back. */
  lemma ParseGeneratedOrderID(ulid: string)
    requires |ulid| == UlidLength
    ensures ParseOrderID(GenerateOrderID(ulid)) == Some(ulid)
  {
    var id := GenerateOrderID(ulid);
    assert id[..13] + id[19..] == ulid[..13] + ulid[13..] == ulid;
  }

  /** Every ID the parser accepts is the one generated from the ULID it yields. */
  lemma GenerateParsedOrderID(id: string)
    requires ParseOrderID(id).Some?
    ensures GenerateOrderID(ParseOrderID(id).value) == id
  {
    var ulid := ParseOrderID(id).value;
    assert ulid[..13] == id[..13] && ulid[13..] == id[19..];
    assert id == id[..13] + id[13..19] + id[19..];
  }

  // ---- UUID.String(): the canonical lower-case form xxxxxxxx-xxxx-xxxx-xxxx-xxxxxxxxxxxx

  const HexDigits := "0123456789abcdef"

  predicate IsLowerHexDigit(c: char)
  {
    '0' <= c <= '9' || 'a' <= c <= 'f'
  }

  function HexByte(b: bv8): (s: string)
    ensures |s| == 2 && IsLowerHexDigit(s[0]) && IsLowerHexDigit(s[1])
  {
    [HexDigits[(b >> 4) as int], HexDigits[(b & 0xf) as int]]
  }

  function Hex(bs: seq<bv8>): (s: string)
    ensures |s| == 2 * |bs|
    ensures forall i :: 0 <= i < |s| ==> IsLowerHexDigit(s[i])
  {
    if bs == [] then [] else HexByte(bs[0]) + Hex(bs[1..])
  }

  function UuidString(u: Uuid): (s: string)
    ensures |s| == 36
    ensures s[8] == '-' && s[13] == '-' && s[18] == '-' && s[23] == '-'
    ensures forall i :: 0 <= i < |s| && i !in {8, 13, 18, 23} ==> IsLowerHexDigit(s[i])
  {
    Hex(u[..4]) + "-" + Hex(u[4..6]) + "-" + Hex(u[6..8]) + "-" + Hex(u[8..10]) + "-" + Hex(u[10..])
  }

  lemma HexByteInjective(a: bv8, b: bv8)
    requires HexByte(a) == HexByte(b)
    ensures a == b
  {
    assert HexDigits[(a >> 4) as int] == HexDigits[(b >> 4) as int];
    assert HexDigits[(a & 0xf) as int] == HexDigits[(b & 0xf) as int];
    assert (a >> 4) == (b >> 4) && (a & 0xf) == (b & 0xf);
  }

  lemma {:induction false} HexInjective(x: seq<bv8>, y: seq<bv8>)
    requires |x| == |y| && Hex(x) == Hex(y)
    ensures x == y
  {
    if x != [] {
      assert Hex(x)[..2] == HexByte(x[0]) && Hex(y)[..2] == HexByte(y[0]);
      assert Hex(x)[2..] == Hex(x[1..]) && Hex(y)[2..] == Hex(y[1..]);
      HexByteInjective(x[0], y[0]);
      HexInjective(x[1..], y[1..]);
      assert x == [x[0]] + x[1..] && y == [y[0]] + y[1..];
    }
  }

  /** Where each group of a UUID's bytes sits in its string. */
  lemma UuidStringGroups(u: Uuid)
    ensures UuidString(u)[..8] == Hex(u[..4])
    ensures UuidString(u)[9..13] == Hex(u[4..6])
    ensures UuidString(u)[14..18] == Hex(u[6..8])
    ensures UuidString(u)[19..23] == Hex(u[8..10])
    ensures UuidString(u)[24..] == Hex(u[10..])
  {
    var a, b, c, d, e := Hex(u[..4]), Hex(u[4..6]), Hex(u[6..8]), Hex(u[8..10]), Hex(u[10..]);
    var s := UuidString(u);
    assert s == a + "-" + b + "-" + c + "-" + d + "-" + e;
    assert |a| == 8 && |b| == 4 && |c| == 4 && |d| == 4 && |e| == 12;
  }

  /** Different UUIDs have different canonical strings. */
  lemma UuidStringInjective(u: Uuid, v: Uuid)
    requires UuidString(u) == UuidString(v)
    ensures u == v
  {
    UuidStringGroups(u);
    UuidStringGroups(v);
    HexInjective(u[..4], v[..4]);
    HexInjective(u[4..6], v[4..6]);
    HexInjective(u[6..8], v[6..8]);
    HexInjective(u[8..10], v[8..10]);
    HexInjective(u[10..], v[10..]);
    assert u == u[..4] + u[4..6] + u[6..8] + u[8..10] + u[10..];
    assert v == v[..4] + v[4..6] + v[6..8] + v[8..10] + v[10..];
  }
}
