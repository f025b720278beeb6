/**
 * The text part of `OuraPriceTracker.extract_price`: two regular expressions are tried
 * in order on the page text, each at its leftmost match only, and an amount is reported
 * when it lies in the plausible range of an Oura Ring price.
 *
 * Amounts are integer cents: both patterns capture three whole digits and at most two
 * decimals, so the float the source builds is always a whole number of cents.
 * `\d` and `\s` are read as under `re.ASCII`.
 */
module PriceExtractor {

  import opened Wrappers

  /** An amount of money in cents. */
  type Cents = int

  /** The plausible range of a ring price, $200.00 to $600.00 inclusive. */
  const MinPlausible: Cents := 20000
  const MaxPlausible: Cents := 60000

  predicate InRange(c: Cents) {
    MinPlausible <= c <= MaxPlausible
  }

  /** What fetching a page gives: an exception (transport error, timeout, parse error)
      or an HTTP status together with the page's plain text. */
  datatype FetchOutcome = Raised | Response(status: int, text: string)

  // ---------------------------------------------------------------------------
  // Characters

  predicate IsDigit(c: char) {
    '0' <= c <= '9'
  }

  /** `\s` as under `re.ASCII`: space, tab, line feed, vertical tab, form feed, carriage
      return. */
  predicate IsSpace(c: char) {
    c == ' ' || 9 <= c as int <= 13
  }

  function DigitValue(c: char): (d: nat)
    requires IsDigit(c)
    ensures d < 10
  {
    c as int - '0' as int
  }

  // ---------------------------------------------------------------------------
  // The captured group `\d{3}(?:\.\d{2})?`

  predicate ThreeDigitsAt(s: string, i: nat) {
    i + 3 <= |s| && IsDigit(s[i]) && IsDigit(s[i + 1]) && IsDigit(s[i + 2])
  }

  predicate FractionAt(s: string, i: nat) {
    i + 3 <= |s| && s[i] == '.' && IsDigit(s[i + 1]) && IsDigit(s[i + 2])
  }

  /** The three whole digits at i, in cents. */
  function WholeAt(s: string, i: nat): (c: Cents)
    requires ThreeDigitsAt(s, i)
    ensures 0 <= c <= 99900 && c % 100 == 0
  {
    100 * (100 * DigitValue(s[i]) + 10 * DigitValue(s[i + 1]) + DigitValue(s[i + 2]))
  }

  /** The two decimals after the point at i, in cents. */
  function FractionValueAt(s: string, i: nat): (c: Cents)
    requires FractionAt(s, i)
    ensures 0 <= c < 100
  {
    10 * DigitValue(s[i + 1]) + DigitValue(s[i + 2])
  }

  // ---------------------------------------------------------------------------
  // The two patterns

  datatype Pattern =
    | DollarPrefix   // r'\$(\d{3}(?:\.\d{2})?)'
    | UsdSuffix      // r'(\d{3}(?:\.\d{2})?)\s*USD'

  /** The end of the run of white space starting at i (`\s*`, greedy). */
  function SkipSpaces(s: string, i: nat): (k: nat)
    requires i <= |s|
    ensures i <= k <= |s|
    ensures forall j :: i <= j < k ==> IsSpace(s[j])
    ensures k == |s| || !IsSpace(s[k])
    decreases |s| - i
  {
    if i < |s| && IsSpace(s[i]) then SkipSpaces(s, i + 1) else i
  }

  /** `\s*USD` matches starting at i. A shorter run of white space is followed by white
      space, never by `U`, so giving back spaces on backtracking cannot help. */
  predicate UsdAfter(s: string, i: nat)
    requires i <= |s|
  {
    var k := SkipSpaces(s, i);
    k + 3 <= |s| && s[k..k + 3] == "USD"
  }

  /** The amount the pattern captures in a match that starts at position i, if a match
      starts there. The optional decimals are greedy: they are taken when present and the
      rest of the pattern still matches; otherwise the pattern backtracks to the bare
      three digits. */
  function MatchAt(p: Pattern, s: string, i: nat): (r: Option<Cents>)
    ensures r.Some? ==> i < |s| && 0 <= r.value <= 99999
  {
    match p
    case DollarPrefix =>
      if i < |s| && s[i] == '$' && ThreeDigitsAt(s, i + 1) then
        if FractionAt(s, i + 4) then Some(WholeAt(s, i + 1) + FractionValueAt(s, i + 4))
        else Some(WholeAt(s, i + 1))
      else None
    case UsdSuffix =>
      if ThreeDigitsAt(s, i) then
        if FractionAt(s, i + 3) && UsdAfter(s, i + 6) then Some(WholeAt(s, i) + FractionValueAt(s, i + 3))
        else if UsdAfter(s, i + 3) then Some(WholeAt(s, i))
        else None
      else None
  }

  datatype Hit = Hit(pos: nat, cents: Cents)

  /** `re.search` from position `from`: the leftmost match at or after it. */
  function Search(p: Pattern, s: string, from: nat): (r: Option<Hit>)
    ensures r.Some? ==> from <= r.value.pos && MatchAt(p, s, r.value.pos) == Some(r.value.cents)
    ensures r.Some? ==> forall j :: from <= j < r.value.pos ==> MatchAt(p, s, j) == None
    ensures r.None? ==> forall j :: from <= j ==> MatchAt(p, s, j) == None
    decreases |s| - from
  {
    if from >= |s| then None
    else
      match MatchAt(p, s, from)
      case Some(c) => Some(Hit(from, c))
      case None => Search(p, s, from + 1)
  }

  /** The pattern loop of `extract_price`: the `$` pattern first, then the `USD` pattern;
      for each only the leftmost match is looked at, and it is returned when plausible. */
  function ExtractFromText(s: string): (r: Option<Cents>)
    ensures r.Some? ==> InRange(r.value)
  {
    var dollar := Search(DollarPrefix, s, 0);
    if dollar.Some? && InRange(dollar.value.cents) then Some(dollar.value.cents)
    else
      var usd := Search(UsdSuffix, s, 0);
      if usd.Some? && InRange(usd.value.cents) then Some(usd.value.cents)
      else None
  }

  /** `extract_price` after the request: an exception or a status other than 200 gives no
      price; otherwise the page text is searched. */
  function ExtractPrice(response: FetchOutcome): (r: Option<Cents>)
    ensures r.Some? ==> InRange(r.value)
    ensures !(response.Response? && response.status == 200) ==> r == None
    ensures response.Response? && response.status == 200 ==> r == ExtractFromText(response.text)
  {
    match response
    case Raised => None
    case Response(status, text) => if status != 200 then None else ExtractFromText(text)
  }

  // ---------------------------------------------------------------------------
  // What the extractor returns, stated without Search

  /** i is where the leftmost match of p in s starts, and c is the amount it captures. */
  ghost predicate FirstMatch(p: Pattern, s: string, i: nat, c: Cents) {
    MatchAt(p, s, i) == Some(c) && forall j :: 0 <= j < i ==> MatchAt(p, s, j) == None
  }

  /** The leftmost match of p in s captures the plausible amount c. */
  ghost predicate Accepts(p: Pattern, s: string, c: Cents) {
    InRange(c) && exists i :: FirstMatch(p, s, i, c)
  }

  /** p matches nowhere in s. */
  ghost predicate NoMatch(p: Pattern, s: string) {
    forall j :: MatchAt(p, s, j) == None
  }

  lemma FirstMatchUnique(p: Pattern, s: string, i: nat, c: Cents, i': nat, c': Cents)
    requires FirstMatch(p, s, i, c) && FirstMatch(p, s, i', c')
    ensures i == i' && c == c'
  {
    assert i < i' ==> MatchAt(p, s, i) == None;
    assert i' < i ==> MatchAt(p, s, i') == None;
  }

  /** The leftmost match, as re.search finds it, is the first match in the text. */
  lemma SearchIsFirstMatch(p: Pattern, s: string)
    ensures forall i, c :: FirstMatch(p, s, i, c) <==> Search(p, s, 0) == Some(Hit(i, c))
  {
    forall i: nat, c: Cents
      ensures FirstMatch(p, s, i, c) <==> Search(p, s, 0) == Some(Hit(i, c))
    {
      var r := Search(p, s, 0);
      if FirstMatch(p, s, i, c) {
        assert r.None? ==> MatchAt(p, s, i) == None;
        FirstMatchUnique(p, s, i, c, r.value.pos, r.value.cents);
      }
    }
  }

  lemma AcceptsIsSearch(p: Pattern, s: string, c: Cents)
    ensures Accepts(p, s, c) <==> (Search(p, s, 0).Some? && Search(p, s, 0).value.cents == c && InRange(c))
  {
    SearchIsFirstMatch(p, s);
    var r := Search(p, s, 0);
    if r.Some? && r.value.cents == c && InRange(c) {
      assert FirstMatch(p, s, r.value.pos, c);
    }
  }

  /** The extractor reports c exactly when the leftmost `$` match is the plausible amount
      c, or when the leftmost `$` match is missing or implausible and the leftmost `USD`
      match is the plausible amount c. No later match of either pattern is ever used. */
  lemma ExtractFromTextSpec(s: string, c: Cents)
    ensures ExtractFromText(s) == Some(c) <==>
      Accepts(DollarPrefix, s, c) ||
      ((forall d :: !Accepts(DollarPrefix, s, d)) && Accepts(UsdSuffix, s, c))
  {
    AcceptsIsSearch(DollarPrefix, s, c);
    AcceptsIsSearch(UsdSuffix, s, c);
    var dollar := Search(DollarPrefix, s, 0);
    if dollar.Some? && InRange(dollar.value.cents) {
      AcceptsIsSearch(DollarPrefix, s, dollar.value.cents);
    } else {
      forall d ensures !Accepts(DollarPrefix, s, d) {
        AcceptsIsSearch(DollarPrefix, s, d);
      }
    }
  }

  /** No signal exactly when neither pattern's leftmost match is plausible. */
  lemma ExtractFromTextNone(s: string)
    ensures ExtractFromText(s) == None <==>
      (forall d :: !Accepts(DollarPrefix, s, d)) && (forall d :: !Accepts(UsdSuffix, s, d))
  {
    if ExtractFromText(s).Some? {
      ExtractFromTextSpec(s, ExtractFromText(s).value);
    } else {
      forall d ensures !Accepts(DollarPrefix, s, d) && !Accepts(UsdSuffix, s, d) {
        ExtractFromTextSpec(s, d);
      }
    }
  }

  /** An implausible first `$` amount hides every later `$` amount, plausible or not:
      with no `USD` amount on the page the result is no signal. */
  lemma LaterDollarMatchIgnored(s: string, i: nat, c: Cents, k: nat, c2: Cents)
    requires FirstMatch(DollarPrefix, s, i, c) && !InRange(c)
    requires i < k && MatchAt(DollarPrefix, s, k) == Some(c2) && InRange(c2)
    requires NoMatch(UsdSuffix, s)
    ensures ExtractFromText(s) == None
  {
    SearchIsFirstMatch(DollarPrefix, s);
    SearchIsFirstMatch(UsdSuffix, s);
  }

  /** An implausible first `$` amount falls through to the `USD` pattern. */
  lemma ImplausibleDollarFallsThrough(s: string, i: nat, c: Cents, k: nat, c2: Cents)
    requires FirstMatch(DollarPrefix, s, i, c) && !InRange(c)
    requires FirstMatch(UsdSuffix, s, k, c2) && InRange(c2)
    ensures ExtractFromText(s) == Some(c2)
  {
    SearchIsFirstMatch(DollarPrefix, s);
    SearchIsFirstMatch(UsdSuffix, s);
  }

  // ---------------------------------------------------------------------------
  // A price tag shown on a page

  function DigitChar(d: int): (ch: char)
    requires 0 <= d < 10
    ensures IsDigit(ch) && DigitValue(ch) == d
  {
    ('0' as int + d) as char
  }

  /** How a page shows an amount with three whole digits: `$ddd.dd`. */
  function PriceTag(c: Cents): (t: string)
    requires 10000 <= c < 100000
    ensures |t| == 7
  {
    ['$', DigitChar(c / 10000), DigitChar(c / 1000 % 10), DigitChar(c / 100 % 10),
     '.', DigitChar(c / 10 % 10), DigitChar(c % 10)]
  }

  lemma DigitsOfCents(c: Cents)
    requires 10000 <= c < 100000
    ensures 100 * (100 * (c / 10000) + 10 * (c / 1000 % 10) + c / 100 % 10) + 10 * (c / 10 % 10) + c % 10 == c
  {
    assert c == 10 * (c / 10) + c % 10;
    assert c / 10 == 10 * (c / 100) + c / 10 % 10;
    assert c / 100 == 10 * (c / 1000) + c / 100 % 10;
    assert c / 1000 == 10 * (c / 10000) + c / 1000 % 10;
  }

  /** Whatever text surrounds it, a `$ddd.dd` tag that is the page's first `$` is read
      back exactly when its amount is plausible; an implausible one gives no signal when
      the page has no `USD` amount. */
  lemma PriceTagIsExtracted(prefix: string, c: Cents, suffix: string)
    requires 10000 <= c < 100000
    requires forall k :: 0 <= k < |prefix| ==> prefix[k] != '$'
    ensures InRange(c) ==> ExtractFromText(prefix + PriceTag(c) + suffix) == Some(c)
    ensures !InRange(c) && NoMatch(UsdSuffix, prefix + PriceTag(c) + suffix) ==>
      ExtractFromText(prefix + PriceTag(c) + suffix) == None
  {
    var s := prefix + PriceTag(c) + suffix;
    var n := |prefix|;
    var t := PriceTag(c);
    forall k | 0 <= k < 7 ensures s[n + k] == t[k] { }
    forall j | 0 <= j < n ensures MatchAt(DollarPrefix, s, j) == None {
      assert s[j] == prefix[j];
    }
    assert ThreeDigitsAt(s, n + 1) && FractionAt(s, n + 4);
    DigitsOfCents(c);
    assert MatchAt(DollarPrefix, s, n) == Some(c);
    assert FirstMatch(DollarPrefix, s, n, c);
    SearchIsFirstMatch(DollarPrefix, s);
    SearchIsFirstMatch(UsdSuffix, s);
  }

  /** A page without the letter `U` has no `USD` amount. */
  lemma NoUsdWithoutU(s: string)
    requires forall k :: 0 <= k < |s| ==> s[k] != 'U'
    ensures NoMatch(UsdSuffix, s)
  {
    forall j: nat ensures MatchAt(UsdSuffix, s, j) == None {
      if ThreeDigitsAt(s, j) {
        var k := SkipSpaces(s, j + 3);
        assert k + 3 <= |s| ==> s[k..k + 3][0] == s[k];
        if FractionAt(s, j + 3) {
          var k' := SkipSpaces(s, j + 6);
          assert k' + 3 <= |s| ==> s[k'..k' + 3][0] == s[k'];
        }
      }
    }
  }

  lemma TagsShown()
    ensures PriceTag(28750) == "$287.50" && PriceTag(99900) == "$999.00"
  {
  }

  /** A page showing only `$287.50` gives 287.50. */
  lemma PlausibleTagScenario()
    ensures ExtractFromText("$287.50") == Some(28750)
  {
    TagsShown();
    PriceTagIsExtracted("", 28750, "");
    assert "" + PriceTag(28750) + "" == PriceTag(28750);
  }

  /** A page showing only `$999.00` gives no signal. */
  lemma ImplausibleTagScenario()
    ensures ExtractFromText("$999.00") == None
  {
    TagsShown();
    NoUsdWithoutU(PriceTag(99900));
    PriceTagIsExtracted("", 99900, "");
    assert "" + PriceTag(99900) + "" == PriceTag(99900);
  }
}
