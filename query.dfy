/**
 * The query URL built by `fetchSearchTopstories` and the constants it is
 * built from, with a decoder that reads the term and page back.
 */
module Query {
  import opened Wrappers

  const DEFAULT_QUERY: string := "redux"
  const DEFAULT_PAGE: int := 0
  const DEFAULT_HPP: string := "100"

  const PATH_BASE: string := "https://hn.algolia.com/api/v1"
  const PATH_SEARCH: string := "/search"
  const PARAM_SEARCH: string := "query="
  const PARAM_PAGE: string := "page="
  const PARAM_HPP: string := "hitsPerPage="

  /** What a fetch asks the search API for. */
  datatype Request = Request(term: string, page: int)

  predicate IsDigit(c: char)
  {
    '0' <= c <= '9'
  }

  predicate AllDigits(s: string)
  {
    forall i :: 0 <= i < |s| ==> IsDigit(s[i])
  }

  function DigitChar(d: nat): (c: char)
    requires d < 10
    ensures IsDigit(c) && c as int - '0' as int == d
  {
    (d + '0' as int) as char
  }

  /** The decimal numeral of `n`, without leading zeros. */
  function NatToDecimal(n: nat): (s: string)
    ensures |s| > 0 && AllDigits(s)
    ensures s[0] == '0' <==> n == 0
  {
    if n < 10 then [DigitChar(n)]
    else NatToDecimal(n / 10) + [DigitChar(n % 10)]
  }

  /** The number a string of digits denotes. */
  function DecimalValue(s: string): nat
    requires AllDigits(s)
  {
    if s == [] then 0
    else 10 * DecimalValue(s[..|s| - 1]) + (s[|s| - 1] as int - '0' as int)
  }

  lemma {:induction false} DecimalRoundTrip(n: nat)
    ensures DecimalValue(NatToDecimal(n)) == n
  {
    if n >= 10 {
      var s := NatToDecimal(n);
      assert s[..|s| - 1] == NatToDecimal(n / 10);
      DecimalRoundTrip(n / 10);
    }
  }

  /** How a template literal prints an integer page: its numeral, with `-` in front when negative. */
  function IntToDecimal(p: int): (s: string)
    ensures |s| > 0
    ensures p >= 0 ==> AllDigits(s) && DecimalValue(s) == p
    ensures p < 0 ==> s[0] == '-' && AllDigits(s[1..]) && DecimalValue(s[1..]) == -p
  {
    if p < 0 then
      DecimalRoundTrip(-p);
      assert ("-" + NatToDecimal(-p))[1..] == NatToDecimal(-p);
      "-" + NatToDecimal(-p)
    else
      DecimalRoundTrip(p);
      NatToDecimal(p)
  }

  /** The URL up to the term, the text between term and page, and the text after the page. */
  const SEARCH_PREFIX: string := PATH_BASE + PATH_SEARCH + "?" + PARAM_SEARCH
  const PAGE_MARK: string := "&" + PARAM_PAGE
  const HPP_SUFFIX: string := "&" + PARAM_HPP + DEFAULT_HPP

  predicate StartsWith(s: string, prefix: string)
  {
    |prefix| <= |s| && s[..|prefix|] == prefix
  }

  predicate EndsWith(s: string, suffix: string)
  {
    |suffix| <= |s| && s[|s| - |suffix|..] == suffix
  }

  /**
   * The URL `fetchSearchTopstories(term, page)` requests. The term is put in
   * verbatim: nothing is percent-encoded.
   */
  function QueryUrl(term: string, page: int): (url: string)
    ensures StartsWith(url, SEARCH_PREFIX)
    ensures |SEARCH_PREFIX| + |term| <= |url|
    ensures url[|SEARCH_PREFIX|..|SEARCH_PREFIX| + |term|] == term
    ensures EndsWith(url, HPP_SUFFIX)
  {
    var mid := term + PAGE_MARK + IntToDecimal(page);
    ThreeParts(SEARCH_PREFIX, mid, HPP_SUFFIX);
    ThreeParts(term, PAGE_MARK, IntToDecimal(page));
    SEARCH_PREFIX + mid + HPP_SUFFIX
  }

  /** Where the three parts of a concatenation sit. */
  lemma ThreeParts(a: string, b: string, c: string)
    ensures StartsWith(a + b + c, a) && EndsWith(a + b + c, c)
    ensures |a + b + c| == |a| + |b| + |c|
    ensures (a + b + c)[|a|..|a| + |b|] == b
  {
  }

  /** The fixed parts of the URL, spelled out. */
  lemma UrlConstants()
    ensures SEARCH_PREFIX == "https://hn.algolia.com/api/v1/search?query="
    ensures PAGE_MARK == "&page="
    ensures HPP_SUFFIX == "&hitsPerPage=100"
  {
  }

  /** The number of digits `s` ends with. */
  function TrailingDigits(s: string): (n: nat)
    ensures n <= |s|
    ensures AllDigits(s[|s| - n..])
  {
    if s == [] || !IsDigit(s[|s| - 1]) then 0
    else
      var n := 1 + TrailingDigits(s[..|s| - 1]);
      assert s[|s| - n..] == s[..|s| - 1][|s| - n..] + [s[|s| - 1]];
      n
  }

  lemma {:induction false} TrailingDigitsAfter(a: string, b: string)
    requires a != [] && !IsDigit(a[|a| - 1]) && AllDigits(b)
    ensures TrailingDigits(a + b) == |b|
  {
    if b == [] {
      assert a + b == a;
    } else {
      assert (a + b)[..|a + b| - 1] == a + b[..|b| - 1];
      TrailingDigitsAfter(a, b[..|b| - 1]);
    }
  }

  /**
   * Reads the term and the page back out of the text between the fixed head
   * and the fixed tail of a URL: the page is the run of digits it ends with,
   * after an optional `-`, and the term is what stands before the `mark` in
   * front of that.
   */
  function DecodeMiddle(mid: string, mark: string): Option<Request>
  {
    var d := TrailingDigits(mid);
    var digits, rest := mid[|mid| - d..], mid[..|mid| - d];
    if d == 0 then None
    else if EndsWith(rest, mark) then
      Some(Request(rest[..|rest| - |mark|], DecimalValue(digits)))
    else if EndsWith(rest, mark + "-") then
      var magnitude: int := DecimalValue(digits);
      Some(Request(rest[..|rest| - |mark| - 1], -magnitude))
    else None
  }

  /** The inverse of `QueryUrl`. */
  function DecodeQueryUrl(url: string): Option<Request>
  {
    if !(|SEARCH_PREFIX| + |HPP_SUFFIX| <= |url| && StartsWith(url, SEARCH_PREFIX) && EndsWith(url, HPP_SUFFIX)) then None
    else DecodeMiddle(url[|SEARCH_PREFIX|..|url| - |HPP_SUFFIX|], PAGE_MARK)
  }

  lemma DecodeMiddleNonNegative(term: string, mark: string, page: nat)
    requires mark != [] && mark[|mark| - 1] == '='
    ensures DecodeMiddle(term + mark + IntToDecimal(page), mark) == Some(Request(term, page))
  {
    var dec := IntToDecimal(page);
    var rest := term + mark;
    var mid := rest + dec;
    TrailingDigitsAfter(rest, dec);
    assert mid[|mid| - |dec|..] == dec && mid[..|mid| - |dec|] == rest;
    assert rest[|rest| - |mark|..] == mark;
    assert rest[..|rest| - |mark|] == term;
  }

  lemma DecodeMiddleNegative(term: string, mark: string, page: int)
    requires mark != [] && mark[|mark| - 1] == '='
    requires page < 0
    ensures DecodeMiddle(term + mark + IntToDecimal(page), mark) == Some(Request(term, page))
  {
    var dec := IntToDecimal(page);
    var digits := dec[1..];
    var rest := term + mark + "-";
    assert dec == "-" + digits;
    var mid := term + mark + dec;
    assert mid == rest + digits;
    TrailingDigitsAfter(rest, digits);
    assert mid[|mid| - |digits|..] == digits && mid[..|mid| - |digits|] == rest;
    assert !EndsWith(rest, mark) by {
      assert rest[|rest| - 1] == '-';
    }
    assert rest == term + (mark + "-");
    assert rest[|rest| - |mark + "-"|..] == mark + "-";
    assert rest[..|rest| - |mark| - 1] == term;
  }

  /** The URL determines the term and the page it was built from. */
  lemma QueryUrlRoundTrip(term: string, page: int)
    ensures DecodeQueryUrl(QueryUrl(term, page)) == Some(Request(term, page))
  {
    UrlConstants();
    var url := QueryUrl(term, page);
    var mid := term + PAGE_MARK + IntToDecimal(page);
    ThreeParts(SEARCH_PREFIX, mid, HPP_SUFFIX);
    assert url[|SEARCH_PREFIX|..|url| - |HPP_SUFFIX|] == mid;
    if page >= 0 {
      DecodeMiddleNonNegative(term, PAGE_MARK, page);
    } else {
      DecodeMiddleNegative(term, PAGE_MARK, page);
    }
  }

  /** Different requests never share a URL. */
  lemma QueryUrlInjective(t1: string, p1: int, t2: string, p2: int)
    requires QueryUrl(t1, p1) == QueryUrl(t2, p2)
    ensures t1 == t2 && p1 == p2
  {
    QueryUrlRoundTrip(t1, p1);
    QueryUrlRoundTrip(t2, p2);
  }
}
