/** The query of the policy list request: the ordered key/value list the client
    builds from the page, the limit and the filters before encoding it. */
module Api {
  import opened PolicyTypes

  /** One key/value entry of a query string. */
  datatype Param = Param(key: string, value: string)

  predicate IsDigit(c: char) {
    '0' <= c <= '9'
  }

  function DigitChar(d: nat): (c: char)
    requires d < 10
    ensures IsDigit(c)
  {
    (48 + d) as char
  }

  function DigitValue(c: char): (d: nat)
    requires IsDigit(c)
    ensures d < 10
  {
    (c as int) - 48
  }

  /** Decimal digits of a natural number, most significant first, no leading zero. */
  function NatDecimal(n: nat): (r: string)
    ensures |r| >= 1
    ensures forall i :: 0 <= i < |r| ==> IsDigit(r[i])
    ensures |r| > 1 ==> r[0] != '0'
    decreases n
  {
    if n < 10 then [DigitChar(n)] else NatDecimal(n / 10) + [DigitChar(n % 10)]
  }

  /** The decimal rendering of an integer (`String(n)`): a minus sign for negatives. */
  function Decimal(n: int): (r: string)
    ensures |r| >= 1
    ensures (r[0] == '-') <==> n < 0
  {
    if n < 0 then "-" + NatDecimal(-n) else NatDecimal(n)
  }

  /** The value of a string of decimal digits. */
  function ParseNat(s: string): nat
    requires forall i :: 0 <= i < |s| ==> IsDigit(s[i])
    decreases |s|
  {
    if |s| == 0 then 0 else ParseNat(s[..|s| - 1]) * 10 + DigitValue(s[|s| - 1])
  }

  /** Reads back an optionally signed decimal; nothing for any other string. */
  function ParseDecimal(s: string): (r: Option<int>)
    ensures r.Some? && |s| > 0 && s[0] != '-' ==> r.value >= 0
  {
    if |s| > 1 && s[0] == '-' && forall i :: 1 <= i < |s| ==> IsDigit(s[i]) then
      Some(0 - ParseNat(s[1..]) as int)
    else if |s| > 0 && forall i :: 0 <= i < |s| ==> IsDigit(s[i]) then
      Some(ParseNat(s))
    else
      None
  }

  lemma {:induction false} NatDecimalRoundTrip(n: nat)
    ensures ParseNat(NatDecimal(n)) == n
    decreases n
  {
    if n >= 10 {
      var r := NatDecimal(n);
      assert r[..|r| - 1] == NatDecimal(n / 10);
      NatDecimalRoundTrip(n / 10);
    }
  }

  /** Rendering then reading back gives the integer again. */
  lemma DecimalRoundTrip(n: int)
    ensures ParseDecimal(Decimal(n)) == Some(n)
  {
    var r := Decimal(n);
    if n < 0 {
      assert r[1..] == NatDecimal(-n);
      NatDecimalRoundTrip(-n);
    } else {
      NatDecimalRoundTrip(n);
    }
  }

  /** Distinct integers render differently. */
  lemma DecimalInjective(m: int, n: int)
    requires Decimal(m) == Decimal(n)
    ensures m == n
  {
    DecimalRoundTrip(m);
    DecimalRoundTrip(n);
  }

  /** One entry under `key` per value, in the order of `values`. */
  function Tagged(key: string, values: seq<string>): (r: seq<Param>)
    ensures |r| == |values|
    ensures forall i :: 0 <= i < |r| ==> r[i] == Param(key, values[i])
  {
    seq(|values|, i requires 0 <= i < |values| => Param(key, values[i]))
  }

  /** Number of fixed entries that precede the category entries. */
  function FixedCount(f: Filters): nat {
    if f.sortBy != "" then 3 else 2
  }

  /** The query of the list request: `page` and `limit` as decimals, then
      `sortBy` only when it is non-empty, then one `categories` entry per
      category, then one `year` entry per year, duplicates kept. */
  function QueryParams(page: int, limit: int, f: Filters): (r: seq<Param>)
    ensures |r| == 2 + (if f.sortBy != "" then 1 else 0) + |f.categories| + |f.years|
    ensures r[0] == Param("page", Decimal(page)) && r[1] == Param("limit", Decimal(limit))
    ensures f.sortBy != "" ==> r[2] == Param("sortBy", f.sortBy)
    ensures forall k :: 0 <= k < |f.categories| ==>
              r[FixedCount(f) + k] == Param("categories", f.categories[k])
    ensures forall k :: 0 <= k < |f.years| ==>
              r[FixedCount(f) + |f.categories| + k] == Param("year", f.years[k])
  {
    [Param("page", Decimal(page)), Param("limit", Decimal(limit))]
    + (if f.sortBy != "" then [Param("sortBy", f.sortBy)] else [])
    + Tagged("categories", f.categories)
    + Tagged("year", f.years)
  }

  /** All values stored under `key`, in order (`URLSearchParams.getAll`). */
  function GetAll(ps: seq<Param>, key: string): seq<string>
    decreases |ps|
  {
    if |ps| == 0 then []
    else (if ps[0].key == key then [ps[0].value] else []) + GetAll(ps[1..], key)
  }

  lemma {:induction false} GetAllAppend(a: seq<Param>, b: seq<Param>, key: string)
    ensures GetAll(a + b, key) == GetAll(a, key) + GetAll(b, key)
    decreases |a|
  {
    if |a| == 0 {
      assert a + b == b;
    } else {
      assert (a + b)[0] == a[0];
      assert (a + b)[1..] == a[1..] + b;
      GetAllAppend(a[1..], b, key);
    }
  }

  lemma {:induction false} GetAllTagged(tag: string, values: seq<string>, key: string)
    ensures GetAll(Tagged(tag, values), key) == if key == tag then values else []
    decreases |values|
  {
    if |values| > 0 {
      assert Tagged(tag, values)[1..] == Tagged(tag, values[1..]);
      GetAllTagged(tag, values[1..], key);
      if key == tag {
        assert values == [values[0]] + values[1..];
      }
    }
  }

  function FixedParams(page: int, limit: int): seq<Param> {
    [Param("page", Decimal(page)), Param("limit", Decimal(limit))]
  }

  function SortParams(f: Filters): seq<Param> {
    if f.sortBy != "" then [Param("sortBy", f.sortBy)] else []
  }

  lemma GetAllFixed(page: int, limit: int, key: string)
    ensures GetAll(FixedParams(page, limit), key)
            == (if key == "page" then [Decimal(page)] else []) + (if key == "limit" then [Decimal(limit)] else [])
  {
    var fixed := FixedParams(page, limit);
    assert fixed[1..][1..] == [];
    assert GetAll(fixed[1..], key) == (if key == "limit" then [Decimal(limit)] else []) + GetAll([], key);
  }

  lemma GetAllSort(f: Filters, key: string)
    ensures GetAll(SortParams(f), key) == if key == "sortBy" && f.sortBy != "" then [f.sortBy] else []
  {
  }

  /** The values under `key` in the query, piece by piece. */
  lemma GetAllQuery(page: int, limit: int, f: Filters, key: string)
    ensures GetAll(QueryParams(page, limit, f), key)
            == GetAll(FixedParams(page, limit), key) + GetAll(SortParams(f), key)
               + (if key == "categories" then f.categories else [])
               + (if key == "year" then f.years else [])
  {
    var fixed := FixedParams(page, limit);
    var sort := SortParams(f);
    var cats := Tagged("categories", f.categories);
    var years := Tagged("year", f.years);
    assert QueryParams(page, limit, f) == fixed + sort + cats + years;
    GetAllAppend(fixed + sort + cats, years, key);
    GetAllAppend(fixed + sort, cats, key);
    GetAllAppend(fixed, sort, key);
    GetAllTagged("categories", f.categories, key);
    GetAllTagged("year", f.years, key);
  }

  lemma QueryPage(page: int, limit: int, f: Filters)
    ensures GetAll(QueryParams(page, limit, f), "page") == [Decimal(page)]
  {
    GetAllQuery(page, limit, f, "page");
    GetAllFixed(page, limit, "page");
    GetAllSort(f, "page");
  }

  lemma QueryLimit(page: int, limit: int, f: Filters)
    ensures GetAll(QueryParams(page, limit, f), "limit") == [Decimal(limit)]
  {
    GetAllQuery(page, limit, f, "limit");
    GetAllFixed(page, limit, "limit");
    GetAllSort(f, "limit");
  }

  lemma QuerySort(page: int, limit: int, f: Filters)
    ensures GetAll(QueryParams(page, limit, f), "sortBy") == if f.sortBy != "" then [f.sortBy] else []
  {
    GetAllQuery(page, limit, f, "sortBy");
    GetAllFixed(page, limit, "sortBy");
    GetAllSort(f, "sortBy");
  }

  lemma QueryCategories(page: int, limit: int, f: Filters)
    ensures GetAll(QueryParams(page, limit, f), "categories") == f.categories
  {
    GetAllQuery(page, limit, f, "categories");
    GetAllFixed(page, limit, "categories");
    GetAllSort(f, "categories");
  }

  lemma QueryYears(page: int, limit: int, f: Filters)
    ensures GetAll(QueryParams(page, limit, f), "year") == f.years
  {
    GetAllQuery(page, limit, f, "year");
    GetAllFixed(page, limit, "year");
    GetAllSort(f, "year");
  }

  /** Decoding the query gives back every input: the page and the limit read
      back as integers, the sort key exactly when it is non-empty, and the
      category and year lists with their order and their duplicates. */
  lemma QueryParamsRoundTrip(page: int, limit: int, f: Filters)
    ensures var q := QueryParams(page, limit, f);
            && |GetAll(q, "page")| == 1 && ParseDecimal(GetAll(q, "page")[0]) == Some(page)
            && |GetAll(q, "limit")| == 1 && ParseDecimal(GetAll(q, "limit")[0]) == Some(limit)
            && GetAll(q, "sortBy") == (if f.sortBy != "" then [f.sortBy] else [])
            && GetAll(q, "categories") == f.categories
            && GetAll(q, "year") == f.years
  {
    QueryPage(page, limit, f);
    QueryLimit(page, limit, f);
    QuerySort(page, limit, f);
    QueryCategories(page, limit, f);
    QueryYears(page, limit, f);
    DecimalRoundTrip(page);
    DecimalRoundTrip(limit);
  }
}
