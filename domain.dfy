/**
 * The order domain of the current layout: the value types, the sentinel
 * error for a bad country code, the country rule `^[A-Z]{2}$` and the
 * order-ID format `<first 13 ULID chars>-<CC>-<last 13 ULID chars>`.
 *
 * The ULID (time and entropy from a library) is a parameter: any string of
 * 26 characters.
 */
module Domain {
  import opened Wrappers

  datatype OrderItem = OrderItem(name: string)

  /**
   * A `time.Time` instant: nanoseconds since January 1, year 1, 00:00:00 UTC,
   * so 0 is Go's zero time.  The location attached by `.UTC()` is not modelled.
   */
  type Time = int

  datatype Order = Order(
    orderId: string,
    customerId: string,
    creationDate: Time,
    status: string,
    items: seq<OrderItem>)

  datatype OrderRequest = OrderRequest(customerId: string, items: seq<OrderItem>, country: string)

  const ErrInvalidCountry := Error("invalid country; must be exactly two uppercase letters matching [A-Z]{2}")

  /** `dom.Order{}`: every field at its zero value. */
  const ZeroOrder := Order("", "", 0, "", [])

  const UlidLength := 26

  predicate IsUpperAscii(c: char)
  {
    'A' <= c <= 'Z'
  }

  /** The regular expression `^[A-Z]{n}$`: exactly n characters, each in A..Z. */
  predicate MatchesUpperRun(s: string, n: nat)
  {
    if n == 0 then s == []
    else |s| > 0 && IsUpperAscii(s[0]) && MatchesUpperRun(s[1..], n - 1)
  }

  /** The regular expression `^[A-Z]{n}$` accepts exactly the strings of n upper-case ASCII letters. */
  lemma {:induction false} MatchesUpperRunIff(s: string, n: nat)
    ensures MatchesUpperRun(s, n) <==> |s| == n && forall i :: 0 <= i < n ==> IsUpperAscii(s[i])
  {
    if n > 0 && |s| > 0 {
      MatchesUpperRunIff(s[1..], n - 1);
      if |s| == n && forall i :: 0 <= i < n ==> IsUpperAscii(s[i]) {
        assert forall i :: 0 <= i < n - 1 ==> IsUpperAscii(s[1..][i]) by {
          forall i | 0 <= i < n - 1 ensures IsUpperAscii(s[1..][i]) {
            assert s[1..][i] == s[i + 1];
          }
        }
      }
    }
  }

  /** A country code the domain accepts, stated directly. */
  predicate ValidCountry(country: string)
  {
    |country| == 2 && IsUpperAscii(country[0]) && IsUpperAscii(country[1])
  }

  /** `validateCountry`: the regular expression `^[A-Z]{2}$`, no normalisation. */
  function ValidateCountry(country: string): (err: Option<Error>)
    ensures err.None? <==> ValidCountry(country)
    ensures err.Some? ==> err.value == ErrInvalidCountry
  {
    MatchesUpperRunIff(country, 2);
    if MatchesUpperRun(country, 2) then None else Some(ErrInvalidCountry)
  }

  /**
   * `GenerateOrderID(country)`, with the ULID string passed in.  Returns the
   * pair `(id, err)` as Go does: `("", ErrInvalidCountry)` on a bad country.
   */
  function GenerateOrderID(country: string, ulid: string): (r: (string, Option<Error>))
    requires |ulid| == UlidLength
    ensures r.1.Some? <==> !ValidCountry(country)
    ensures r.1.Some? ==> r == ("", Some(ErrInvalidCountry))
    ensures r.1.None? ==>
              && |r.0| == 30
              && r.0[13] == '-' && r.0[16] == '-'
              && r.0[..13] == ulid[..13]
              && r.0[14..16] == country
              && r.0[17..] == ulid[13..]
  {
    var err := ValidateCountry(country);
    if err.Some? then ("", err)
    else
      var part1 := ulid[..13];
      var part2 := ulid[13..];
      (part1 + "-" + country + "-" + part2, None)
  }

  /** Reads an order ID of the current format back into its ULID and its country. */
  function ParseOrderID(id: string): (r: Option<(string, string)>)
    ensures r.Some? ==> |r.value.0| == UlidLength && ValidCountry(r.value.1)
  {
    if |id| == 30 && id[13] == '-' && id[16] == '-' && ValidCountry(id[14..16])
    then Some((id[..13] + id[17..], id[14..16]))
    else None
  }

  /** Removing the country segment and both dashes gives the ULID back; the country reads back too. */
  lemma ParseGeneratedOrderID(country: string, ulid: string)
    requires |ulid| == UlidLength && ValidCountry(country)
    ensures ParseOrderID(GenerateOrderID(country, ulid).0) == Some((ulid, country))
  {
    var id := GenerateOrderID(country, ulid).0;
    assert id[..13] + id[17..] == ulid[..13] + ulid[13..] == ulid;
  }

  /** Every well-formed ID is the one generated from the ULID and country it parses to. */
  lemma GenerateParsedOrderID(id: string)
    requires ParseOrderID(id).Some?
    ensures GenerateOrderID(ParseOrderID(id).value.1, ParseOrderID(id).value.0) == (id, None)
  {
    var (ulid, country) := ParseOrderID(id).value;
    var gen := GenerateOrderID(country, ulid).0;
    assert ulid[..13] == id[..13] && ulid[13..] == id[17..];
    assert gen == id[..13] + "-" + id[14..16] + "-" + id[17..];
    assert id == id[..13] + [id[13]] + id[14..16] + [id[16]] + id[17..];
  }

  /** Distinct ULIDs (or countries) never produce the same order ID. */
  lemma OrderIDInjective(c1: string, u1: string, c2: string, u2: string)
    requires |u1| == UlidLength && |u2| == UlidLength
    requires GenerateOrderID(c1, u1).1.None? && GenerateOrderID(c2, u2).1.None?
    requires GenerateOrderID(c1, u1).0 == GenerateOrderID(c2, u2).0
    ensures u1 == u2 && c1 == c2
  {
    ParseGeneratedOrderID(c1, u1);
    ParseGeneratedOrderID(c2, u2);
  }

  /** The fixed examples of the country rule: "US" passes; "us", "Us", "USA" and "" fail. */
  lemma CountryExamples()
    ensures ValidateCountry("US") == None
    ensures ValidateCountry("DE") == None
    ensures ValidateCountry("us") == Some(ErrInvalidCountry)
    ensures ValidateCountry("Us") == Some(ErrInvalidCountry)
    ensures ValidateCountry("USA") == Some(ErrInvalidCountry)
    ensures ValidateCountry("") == Some(ErrInvalidCountry)
  {
  }

  /** No normalisation: a country code holding any lower-case letter is refused, never upper-cased. */
  lemma LowerCaseCountryRejected(country: string, i: nat, ulid: string)
    requires |ulid| == UlidLength
    requires i < |country| && 'a' <= country[i] <= 'z'
    ensures GenerateOrderID(country, ulid) == ("", Some(ErrInvalidCountry))
  {
  }
}
