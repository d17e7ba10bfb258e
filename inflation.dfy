/** Currency conversion between calendar years by the ratio of the US consumer
    price index (CPI) of the two years (inflation.py). */
module Inflation {

  /** Annual CPI, one entry per year from FIRST_YEAR to LAST_YEAR, written as
      one block per ten years (the last block has four years). */
  const CPI: seq<real> :=
    CPI_FROM_1913 + CPI_FROM_1923 + CPI_FROM_1933 + CPI_FROM_1943 + CPI_FROM_1953 + CPI_FROM_1963 +
    CPI_FROM_1973 + CPI_FROM_1983 + CPI_FROM_1993 + CPI_FROM_2003 + CPI_FROM_2013

  const CPI_FROM_1913: seq<real> := [9.9, 10.0, 10.1, 10.9, 12.8, 15.1, 17.3, 20.0, 17.9, 16.8]
  const CPI_FROM_1923: seq<real> := [17.1, 17.1, 17.5, 17.7, 17.4, 17.1, 17.1, 16.7, 15.2, 13.7]
  const CPI_FROM_1933: seq<real> := [13.0, 13.4, 13.7, 13.9, 14.4, 14.1, 13.9, 14.0, 14.7, 16.3]
  const CPI_FROM_1943: seq<real> := [17.3, 17.6, 18.0, 19.5, 22.3, 24.1, 23.8, 24.1, 26.0, 26.5]
  const CPI_FROM_1953: seq<real> := [26.7, 26.9, 26.8, 27.2, 28.1, 28.9, 29.1, 29.6, 29.9, 30.2]
  const CPI_FROM_1963: seq<real> := [30.6, 31.0, 31.5, 32.4, 33.4, 34.8, 36.7, 38.8, 40.5, 41.8]
  const CPI_FROM_1973: seq<real> := [44.4, 49.3, 53.8, 56.9, 60.6, 65.2, 72.6, 82.4, 90.9, 96.5]
  const CPI_FROM_1983: seq<real> := [99.6, 103.9, 107.6, 109.6, 113.6, 118.3, 124.0, 130.7, 136.2, 140.3]
  const CPI_FROM_1993: seq<real> := [144.5, 148.2, 152.4, 156.9, 160.5, 163.0, 166.6, 172.2, 177.1, 179.9]
  const CPI_FROM_2003: seq<real> := [184.0, 188.9, 195.3, 201.6, 207.3, 215.303, 214.537, 218.056, 224.939, 229.594]
  const CPI_FROM_2013: seq<real> := [232.957, 236.736, 237.017, 240.007]

  const FIRST_YEAR: int := 1913
  const LAST_YEAR: int := 2016

  /** The years the table covers. The conversion reads the table without a
      bounds check, so only these years may be passed to it. */
  predicate Covered(year: int)
  {
    FIRST_YEAR <= year <= LAST_YEAR
  }

  predicate Positive(s: seq<real>)
  {
    forall i :: 0 <= i < |s| ==> 0.0 < s[i]
  }

  /** The table has one entry per covered year, and every entry is positive. */
  lemma CpiPositive()
    ensures |CPI| == LAST_YEAR - FIRST_YEAR + 1 == 104
    ensures Positive(CPI)
  {
    assert Positive(CPI_FROM_1913);
    assert Positive(CPI_FROM_1923);
    assert Positive(CPI_FROM_1933);
    assert Positive(CPI_FROM_1943);
    assert Positive(CPI_FROM_1953);
    assert Positive(CPI_FROM_1963);
    assert Positive(CPI_FROM_1973);
    assert Positive(CPI_FROM_1983);
    assert Positive(CPI_FROM_1993);
    assert Positive(CPI_FROM_2003);
    assert Positive(CPI_FROM_2013);
  }

  /** Entry `i` of `table`, read one element at a time. Going through this
      function rather than indexing directly keeps the table's 104 values out
      of the proofs that only need to know that an entry is positive. */
  function Entry(table: seq<real>, i: nat): real
    requires i < |table|
  {
    if i == 0 then table[0] else Entry(table[1..], i - 1)
  }

  lemma {:induction false} EntryIsIndex(table: seq<real>, i: nat)
    requires i < |table|
    ensures Entry(table, i) == table[i]
  {
    if i > 0 {
      EntryIsIndex(table[1..], i - 1);
    }
  }

  /** The CPI of a covered year. */
  function CpiOf(year: int): (p: real)
    requires Covered(year)
    ensures 0.0 < p
  {
    CpiPositive();
    EntryIsIndex(CPI, year - FIRST_YEAR);
    Entry(CPI, year - FIRST_YEAR)
  }

  /** Converts `cost` in money of `originalYear` to money of `updatedYear`.
      The result has the sign of `cost`. */
  function Run(originalYear: int, updatedYear: int, cost: real): (r: real)
    requires Covered(originalYear) && Covered(updatedYear)
    ensures 0.0 < cost <==> 0.0 < r
    ensures cost == 0.0 <==> r == 0.0
    ensures cost < 0.0 <==> r < 0.0
  {
    var ratio := CpiOf(updatedYear) / CpiOf(originalYear);
    assert 0.0 < ratio;
    cost * ratio
  }

  /** Converting to the same year changes nothing. */
  lemma RunSameYear(year: int, cost: real)
    requires Covered(year)
    ensures Run(year, year, cost) == cost
  {
  }

  /** Conversion is linear in the amount. */
  lemma RunLinear(a: int, b: int, x: real, y: real, k: real)
    requires Covered(a) && Covered(b)
    ensures Run(a, b, x + y) == Run(a, b, x) + Run(a, b, y)
    ensures Run(a, b, k * x) == k * Run(a, b, x)
  {
  }

  /** Converting from a to b and then from b to c is converting from a to c. */
  lemma RunCompose(a: int, b: int, c: int, x: real)
    requires Covered(a) && Covered(b) && Covered(c)
    ensures Run(b, c, Run(a, b, x)) == Run(a, c, x)
  {
    var pa, pb, pc := CpiOf(a), CpiOf(b), CpiOf(c);
    assert (pb / pa) * (pc / pb) == pc / pa;
  }

  /** Converting back returns the original amount. */
  lemma RunRoundTrip(a: int, b: int, x: real)
    requires Covered(a) && Covered(b)
    ensures Run(b, a, Run(a, b, x)) == x
  {
    RunCompose(a, b, a, x);
    RunSameYear(a, x);
  }

  /** Two sample entries, read against the published table. */
  lemma CpiSamples()
    ensures CpiOf(FIRST_YEAR) == 9.9 && CpiOf(2008) == 215.303
    ensures CpiOf(2014) == 236.736 && CpiOf(LAST_YEAR) == 240.007
  {
    EntryIsIndex(CPI, 0);
    EntryIsIndex(CPI, 95);
    EntryIsIndex(CPI, 101);
    EntryIsIndex(CPI, 103);
  }
}
