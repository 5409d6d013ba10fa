/**
 * The frontend's tile page: how many tiles `TilesHandler` draws, how the
 * tile slice is filled, and which colour `getColorForVersion` gives a
 * version.  Fetching instance information over HTTP and rendering the
 * template are outside the model; each fetch is given as its outcome.
 */
module Frontend {
  import opened Wrappers

  const DefaultTileCount := 3
  const MaxTileCount := 20
  const DefaultFallbackColor := "#667eea"
  /** `1<<31 - 1`, the largest int32. */
  const MaxTileColorIndex := 0x7fff_ffff

  const MinInt64 := -0x8000_0000_0000_0000
  const MaxInt64 := 0x7fff_ffff_ffff_ffff

  // ---- strconv.Atoi on a 64-bit platform

  predicate IsDigit(c: char)
  {
    '0' <= c <= '9'
  }

  predicate AllDigits(s: string)
  {
    forall i :: 0 <= i < |s| ==> IsDigit(s[i])
  }

  function DigitValue(c: char): nat
    requires IsDigit(c)
  {
    c as int - '0' as int
  }

  /** The value of a string of decimal digits, most significant first. */
  function DigitsValue(s: string): nat
    requires AllDigits(s)
  {
    if s == [] then 0 else DigitsValue(s[..|s| - 1]) * 10 + DigitValue(s[|s| - 1])
  }

  /**
   * `strconv.Atoi`: an optional sign and at least one decimal digit, with the
   * value in the range of a 64-bit int; anything else (empty, spaces,
   * underscores, letters, overflow) is an error, here `None`.
   */
  function Atoi(s: string): Option<int>
  {
    if |s| == 0 then None
    else
      var negative := s[0] == '-';
      var digits := if s[0] == '-' || s[0] == '+' then s[1..] else s;
      if |digits| == 0 || !AllDigits(digits) then None
      else
        var magnitude: int := DigitsValue(digits);
        var v := if negative then -magnitude else magnitude;
        if MinInt64 <= v <= MaxInt64 then Some(v) else None
  }

  /** The decimal form of a natural number, without sign or leading zeros. */
  function Decimal(n: nat): (s: string)
    ensures |s| > 0 && AllDigits(s)
  {
    if n < 10 then ["0123456789"[n]] else Decimal(n / 10) + ["0123456789"[n % 10]]
  }

  /** Reading a decimal string back gives its number. */
  lemma {:induction false} DecimalValue(n: nat)
    ensures DigitsValue(Decimal(n)) == n
  {
    if n >= 10 {
      DecimalValue(n / 10);
      var s := Decimal(n);
      assert s[..|s| - 1] == Decimal(n / 10);
    }
  }

  /** `strconv.Atoi` reads every int64 written in decimal. */
  lemma AtoiDecimal(n: nat)
    requires n <= MaxInt64
    ensures Atoi(Decimal(n)) == Some(n)
  {
    DecimalValue(n);
  }

  // ---- the tile count

  /** The tile count of `TilesHandler`; `countParam` is "" when the query has no `count`. */
  function TileCount(countParam: string): (count: int)
    ensures 1 <= count <= MaxTileCount
  {
    if countParam == "" then DefaultTileCount
    else
      match Atoi(countParam)
      case Some(parsed) => if parsed > 0 && parsed <= MaxTileCount then parsed else DefaultTileCount
      case None => DefaultTileCount
  }

  /** The parsed value is taken exactly when it lies in 1..20; otherwise the count stays 3. */
  lemma TileCountChoice(countParam: string)
    ensures TileCount(countParam) != DefaultTileCount ==>
              Atoi(countParam) == Some(TileCount(countParam))
    ensures Atoi(countParam).None? ==> TileCount(countParam) == DefaultTileCount
    ensures Atoi(countParam).Some? && 1 <= Atoi(countParam).value <= MaxTileCount ==>
              TileCount(countParam) == Atoi(countParam).value
    ensures Atoi(countParam).Some? && !(1 <= Atoi(countParam).value <= MaxTileCount) ==>
              TileCount(countParam) == DefaultTileCount
  {
    if countParam == "" {
      assert Atoi(countParam) == None;
    }
  }

  /** Every count from 1 to 20, written in decimal, is honoured. */
  lemma TileCountHonoured(n: nat)
    requires 1 <= n <= MaxTileCount
    ensures TileCount(Decimal(n)) == n
  {
    AtoiDecimal(n);
  }

  /** The handler's tests send "invalid" and "100"; the other values are further edge cases of the same rule. */
  lemma TileCountExamples()
    ensures TileCount("") == 3
    ensures TileCount("invalid") == 3
    ensures TileCount("100") == 3
    ensures TileCount("0") == 3
    ensures TileCount("-5") == 3
    ensures TileCount("5") == 5
    ensures TileCount("+7") == 7
  {
    assert DigitsValue("100") == 100 by {
      assert "100"[..2] == "10" && "10"[..1] == "1" && "1"[..0] == "";
    }
    assert DigitsValue("5") == 5 by {
      assert "5"[..0] == "";
    }
    assert DigitsValue("7") == 7 by {
      assert "7"[..0] == "";
    }
    assert DigitsValue("0") == 0 by {
      assert "0"[..0] == "";
    }
    assert "+7"[1..] == "7" && "-5"[1..] == "5";
    assert !AllDigits("invalid") by {
      assert !IsDigit("invalid"[0]);
    }
  }

  // ---- the colour of a version

  /** An octet of a Go byte slice. */
  newtype byte = x: int | 0 <= x < 0x100

  /** The UTF-8 encoding of one character: lead byte, continuation bytes 10xxxxxx, and the bits they carry. */
  function Utf8Char(c: char): (bytes: seq<byte>)
    ensures 1 <= |bytes| <= 4
    ensures c as int < 0x80 ==> bytes == [c as int as byte]
    ensures 0x80 <= c as int < 0x800 ==>
      |bytes| == 2 && 0xC0 <= bytes[0] as int < 0xE0 && 0x80 <= bytes[1] as int < 0xC0 &&
      (bytes[0] as int - 0xC0) * 0x40 + (bytes[1] as int - 0x80) == c as int
    ensures 0x800 <= c as int < 0x1_0000 ==>
      |bytes| == 3 && 0xE0 <= bytes[0] as int < 0xF0 &&
      0x80 <= bytes[1] as int < 0xC0 && 0x80 <= bytes[2] as int < 0xC0 &&
      (bytes[0] as int - 0xE0) * 0x1000 + (bytes[1] as int - 0x80) * 0x40 + (bytes[2] as int - 0x80) == c as int
    ensures 0x1_0000 <= c as int ==>
      |bytes| == 4 && 0xF0 <= bytes[0] as int < 0xF8 &&
      0x80 <= bytes[1] as int < 0xC0 && 0x80 <= bytes[2] as int < 0xC0 && 0x80 <= bytes[3] as int < 0xC0 &&
      (bytes[0] as int - 0xF0) * 0x4_0000 + (bytes[1] as int - 0x80) * 0x1000
        + (bytes[2] as int - 0x80) * 0x40 + (bytes[3] as int - 0x80) == c as int
  {
    var n := c as int;
    if n < 0x80 then [n as byte]
    else if n < 0x800 then Utf8Two(n)
    else if n < 0x1_0000 then Utf8Three(n)
    else Utf8Four(n)
  }

  /** The byte carrying `bits` under the marker bits `tag`. */
  function Tagged(tag: int, bits: int): (b: byte)
    requires 0 <= tag && 0 <= bits && tag + bits < 0x100
    ensures b as int == tag + bits
  {
    (tag + bits) as byte
  }

  function Utf8Two(n: int): (bytes: seq<byte>)
    requires 0x80 <= n < 0x800
    ensures |bytes| == 2 && 0xC0 <= bytes[0] as int < 0xE0 && 0x80 <= bytes[1] as int < 0xC0
    ensures (bytes[0] as int - 0xC0) * 0x40 + (bytes[1] as int - 0x80) == n
  {
    var lead, low := n / 0x40, n % 0x40;
    [Tagged(0xC0, lead), Tagged(0x80, low)]
  }

  function Utf8Three(n: int): (bytes: seq<byte>)
    requires 0x800 <= n < 0x1_0000
    ensures |bytes| == 3 && 0xE0 <= bytes[0] as int < 0xF0
    ensures 0x80 <= bytes[1] as int < 0xC0 && 0x80 <= bytes[2] as int < 0xC0
    ensures (bytes[0] as int - 0xE0) * 0x1000 + (bytes[1] as int - 0x80) * 0x40 + (bytes[2] as int - 0x80) == n
  {
    var rest, low := n / 0x40, n % 0x40;
    var lead, mid := rest / 0x40, rest % 0x40;
    [Tagged(0xE0, lead), Tagged(0x80, mid), Tagged(0x80, low)]
  }

  function Utf8Four(n: int): (bytes: seq<byte>)
    requires 0x1_0000 <= n < 0x11_0000
    ensures |bytes| == 4 && 0xF0 <= bytes[0] as int < 0xF8
    ensures 0x80 <= bytes[1] as int < 0xC0 && 0x80 <= bytes[2] as int < 0xC0 && 0x80 <= bytes[3] as int < 0xC0
    ensures (bytes[0] as int - 0xF0) * 0x4_0000 + (bytes[1] as int - 0x80) * 0x1000
      + (bytes[2] as int - 0x80) * 0x40 + (bytes[3] as int - 0x80) == n
  {
    var rest, low := n / 0x40, n % 0x40;
    var top, mid := rest / 0x40, rest % 0x40;
    var lead, high := top / 0x40, top % 0x40;
    [Tagged(0xF0, lead), Tagged(0x80, high), Tagged(0x80, mid), Tagged(0x80, low)]
  }

  function Utf8(s: string): seq<byte>
  {
    if s == [] then [] else Utf8(s[..|s| - 1]) + Utf8Char(s[|s| - 1])
  }

  const FnvOffsetBasis32: bv32 := 0x811c_9dc5
  const FnvPrime32: bv32 := 0x0100_0193

  /** 32-bit FNV-1a: for each byte, xor it in, then multiply by the prime modulo 2^32. */
  function Fnv1a32(data: seq<byte>): bv32
  {
    if data == [] then FnvOffsetBasis32
    else (Fnv1a32(data[..|data| - 1]) ^ (data[|data| - 1] as bv32)) * FnvPrime32
  }

  /** The hash widened to int64 and clamped to the largest int32, then reduced modulo the number of colours. */
  function ColorIndex(hash: bv32, colorCount: nat): (index: nat)
    requires colorCount > 0
    ensures index < colorCount
    ensures hash as int <= MaxTileColorIndex ==> index == hash as int % colorCount
    ensures hash as int > MaxTileColorIndex ==> index == MaxTileColorIndex % colorCount
  {
    var hashValue := hash as int;
    var clamped := if hashValue > MaxTileColorIndex then MaxTileColorIndex else hashValue;
    clamped % colorCount
  }

  /** `getColorForVersion`. */
  function ColorForVersion(tileColors: seq<string>, version: string): (color: string)
    ensures tileColors == [] ==> color == DefaultFallbackColor
    ensures tileColors != [] ==> color in tileColors
  {
    if |tileColors| == 0 then DefaultFallbackColor
    else tileColors[ColorIndex(Fnv1a32(Utf8(version)), |tileColors|)]
  }

  /** Known FNV-1a values: the empty input gives the offset basis; "a" and "b" hash above 2^31 - 1. */
  lemma FnvExamples()
    ensures Fnv1a32([]) == 0x811c_9dc5
    ensures Fnv1a32([0x61]) == 0xe40c_292c
    ensures Fnv1a32([0x62]) == 0xe70c_2de5
  {
    var a, b: byte := 0x61, 0x62;
    assert [a][..0] == [] && [b][..0] == [];
    assert a as bv32 == 0x61 && b as bv32 == 0x62;
    assert Fnv1a32([a]) == (FnvOffsetBasis32 ^ 0x61) * FnvPrime32;
    assert Fnv1a32([b]) == (FnvOffsetBasis32 ^ 0x62) * FnvPrime32;
  }

  /**
   * The clamp sends every hash above 2^31 - 1 to the same index, so all such
   * versions share one colour; "a" and "b" are two of them.
   */
  lemma ClampedVersionsShareColor(tileColors: seq<string>, v1: string, v2: string)
    requires Fnv1a32(Utf8(v1)) as int > MaxTileColorIndex
    requires Fnv1a32(Utf8(v2)) as int > MaxTileColorIndex
    ensures ColorForVersion(tileColors, v1) == ColorForVersion(tileColors, v2)
  {
  }

  lemma VersionsAAndBShareColor(tileColors: seq<string>)
    ensures ColorForVersion(tileColors, "a") == ColorForVersion(tileColors, "b")
  {
    assert Utf8("a") == [0x61] by {
      assert "a"[..0] == [];
    }
    assert Utf8("b") == [0x62] by {
      assert "b"[..0] == [];
    }
    FnvExamples();
    ClampedVersionsShareColor(tileColors, "a", "b");
  }

  // ---- the tiles

  /** `instanceapi.InstanceInfoResponse`. */
  datatype InstanceInfo = InstanceInfo(
    version: string,
    hostname: string,
    uptime: string,
    goVersion: string,
    timestamp: int)

  /** The outcome of one `fetchInstanceInfo` call; a failure carries the time `time.Now()` read next. */
  datatype FetchOutcome = Fetched(info: InstanceInfo) | FetchFailed(now: int)

  datatype InstanceTileData = InstanceTileData(index: int, info: InstanceInfo, color: string)

  /** The information a tile shows: the fetched one, or the error placeholder. */
  function TileInfo(outcome: FetchOutcome): (info: InstanceInfo)
    ensures outcome.FetchFailed? ==> info.version == "error" && info.hostname == "failed to fetch"
    ensures outcome.Fetched? ==> info == outcome.info
  {
    match outcome
    case Fetched(info) => info
    case FetchFailed(now) => InstanceInfo("error", "failed to fetch", "N/A", "N/A", now)
  }

  /**
   * The tile slice of `TilesHandler`: `count` tiles from the count parameter,
   * tile i numbered i + 1, showing the i-th fetch's outcome in its version's colour.
   */
  method BuildTiles(countParam: string, fetches: seq<FetchOutcome>, tileColors: seq<string>)
    returns (instances: array<InstanceTileData>)
    requires |fetches| >= TileCount(countParam)
    ensures fresh(instances)
    ensures instances.Length == TileCount(countParam)
    ensures forall i :: 0 <= i < instances.Length ==>
              && instances[i].index == i + 1
              && instances[i].info == TileInfo(fetches[i])
              && instances[i].color == ColorForVersion(tileColors, instances[i].info.version)
  {
    var count := TileCount(countParam);
    instances := new InstanceTileData[count];
    for i := 0 to count
      invariant forall j :: 0 <= j < i ==>
                  && instances[j].index == j + 1
                  && instances[j].info == TileInfo(fetches[j])
                  && instances[j].color == ColorForVersion(tileColors, instances[j].info.version)
    {
      var info := TileInfo(fetches[i]);
      instances[i] := InstanceTileData(i + 1, info, ColorForVersion(tileColors, info.version));
    }
  }
}
