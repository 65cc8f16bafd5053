/**
 * RssService: parsing one feed item into a listing (`parseRssItem`), the district feed
 * URL (`fetchRssItemsByDistrict`, without the fetch) and ingestion (`storeListings`).
 */
module RssService {
  import opened Wrappers
  import opened Text
  import opened Numerals
  import opened Types
  import opened Patterns
  import opened Store
  import opened FailedListings

  const Category := "flats"

  /** Ids of the placeholder records a failed parse returns. */
  const SentinelPrefix := "error-"

  predicate IsSentinel(id: string) { SentinelPrefix <= id }

  // ---------------------------------------------------------------- listing id

  /** Length of the run of `\w` characters that ends `s`. */
  function WordTail(s: string): (n: nat)
    ensures n <= |s|
    ensures AllWord(s[|s| - n..])
    ensures n < |s| ==> !IsWordChar(s[|s| - n - 1])
  {
    if s == [] || !IsWordChar(s[|s| - 1]) then 0
    else
      var init := s[..|s| - 1];
      var m := WordTail(init);
      assert s[|s| - (m + 1)..] == init[|init| - m..] + [s[|s| - 1]];
      m + 1
  }

  /** `link.match(/\/(\w+)\.html$/)?.[1] ?? link`. */
  function ExtractId(link: string): (id: string)
    ensures id == link || (id != [] && AllWord(id))
  {
    if |link| >= 5 && link[|link| - 5..] == ".html" then
      var stem := link[..|link| - 5];
      var n := WordTail(stem);
      if 0 < n < |stem| && stem[|stem| - n - 1] == '/' then stem[|stem| - n..] else link
    else link
  }

  /** The shape the id expression matches: anything, `/`, a non-empty word, `.html` at the very end. */
  predicate IdPattern(link: string, prefix: string, word: string) {
    word != [] && AllWord(word) && link == prefix + "/" + word + ".html"
  }

  /** A link of that shape yields exactly its word as id. */
  lemma ExtractIdOfPattern(link: string, prefix: string, word: string)
    requires IdPattern(link, prefix, word)
    ensures ExtractId(link) == word
  {
    var stem := link[..|link| - 5];
    assert link[|link| - 5..] == ".html";
    assert stem == prefix + "/" + word;
    assert stem[|stem| - |word|..] == word;
    assert stem[|stem| - |word| - 1] == '/';
    var n := WordTail(stem);
    assert n == |word| by {
      assert forall k :: 0 <= k < |word| ==> stem[|prefix| + 1 + k] == word[k];
    }
  }

  /** Whenever the id differs from the link, the link has that shape around the id. */
  lemma ExtractIdSound(link: string)
    requires ExtractId(link) != link
    ensures IdPattern(link, link[..|link| - |ExtractId(link)| - 6], ExtractId(link))
  {
    var k := |link| - 5;
    var stem := link[..k];
    var n := WordTail(stem);
    var i := k - n - 1;
    assert 0 < n < |stem| && stem[i] == '/' && link[k..] == ".html" && ExtractId(link) == stem[i + 1..];
    assert stem[i + 1..] == link[i + 1..k] && link[i] == '/';
    SplitAroundSlash(link, i, k);
  }

  /** A string cut at a `/` at `i` and again at `k`. */
  lemma SplitAroundSlash(link: string, i: nat, k: nat)
    requires i < k <= |link| && link[i] == '/'
    ensures link == link[..i] + "/" + link[i + 1..k] + link[k..]
  {
    assert link == link[..i] + link[i..i + 1] + link[i + 1..k] + link[k..];
  }

  /** An id taken from the link's word never looks like a placeholder, since `-` is not a word character. */
  lemma ExtractedIdIsNotSentinel(link: string)
    requires ExtractId(link) != link
    ensures !IsSentinel(ExtractId(link))
  {
    var id := ExtractId(link);
    assert !IsWordChar('-');
    assert |id| > 5 ==> id[5] != '-';
  }

  // ---------------------------------------------------------------- field extractors

  predicate IsGroupChar(c: char) { IsDigit(c) || IsSpace(c) || c == ',' }

  /** What the price parse strips from the digit run: white space and commas. */
  predicate IsDigitSeparator(c: char) { IsSpace(c) || c == ',' }

  /** What the price-per-m² parse strips: white space, commas and the euro sign. */
  predicate IsAmountSeparator(c: char) { IsSpace(c) || c == ',' || c == '\U{20AC}' }

  /** Position of the first digit of `s` at or after `i`. */
  function FirstDigit(s: string, i: nat): (p: Option<nat>)
    requires i <= |s|
    ensures p.Some? ==> i <= p.value < |s| && IsDigit(s[p.value])
    ensures p.Some? ==> forall k :: i <= k < p.value ==> !IsDigit(s[k])
    ensures p.None? ==> forall k :: i <= k < |s| ==> !IsDigit(s[k])
    decreases |s| - i
  {
    if i == |s| then None
    else if IsDigit(s[i]) then Some(i)
    else FirstDigit(s, i + 1)
  }

  /** Length of the run of `[\d\s,]` starting at `i`. */
  function GroupRun(s: string, i: nat): (n: nat)
    requires i <= |s|
    ensures i + n <= |s|
    ensures forall k :: i <= k < i + n ==> IsGroupChar(s[k])
    ensures i + n < |s| ==> !IsGroupChar(s[i + n])
    decreases |s| - i
  {
    if i == |s| || !IsGroupChar(s[i]) then 0 else 1 + GroupRun(s, i + 1)
  }

  /**
   * The numeric price: the first match of `(\d[\d\s,]*)` with white space and commas
   * removed, read as a decimal integer; none when the text has no digit.
   */
  function NumericPrice(price: string): (v: Option<nat>)
    ensures v.None? <==> forall k :: 0 <= k < |price| ==> !IsDigit(price[k])
  {
    match FirstDigit(price, 0)
    case None => None
    case Some(i) =>
      var run := price[i..i + GroupRun(price, i)];
      var raw := Remove(run, IsDigitSeparator);
      RemoveGroupCharsIsDigits(run);
      Some(DigitsValue(raw))
  }

  /** A rendered amount is read back as itself. */
  lemma NumericPriceOfNatToString(n: nat)
    ensures NumericPrice(NatToString(n)) == Some(n)
  {
    var s := NatToString(n);
    assert FirstDigit(s, 0) == Some(0);
    GroupRunIs(s, 0, |s|);
    assert s[0..|s|] == s;
    RemoveKeepsDigitString(s);
  }

  /** Removing white space and commas leaves a digit string unchanged. */
  lemma {:induction false} RemoveKeepsDigitString(s: string)
    requires AllDigits(s)
    ensures Remove(s, IsDigitSeparator) == s
  {
    if s != [] {
      assert IsDigit(s[0]);
      RemoveKeepsDigitString(s[1..]);
    }
  }

  /** The `Cena:` text, trimmed; `''` when the description has none. */
  function PriceText(description: string): string {
    match Search(description, "Cena:")
    case None => ""
    case Some(c) => Trim(c)
  }

  /** The price per m²: the first `:`-labelled bold value anywhere, without white space, commas and `€`, through parseFloat. */
  function PricePerM2(description: string): Option<Num> {
    match Search(description, ":")
    case None => None
    case Some(c) => Some(ParseFloat(Remove(c, IsAmountSeparator)))
  }

  /** The `Pagasts:` text, trimmed, cut at its first newline and trimmed again. */
  function District(description: string): (r: Option<string>)
    ensures r.Some? ==> '\n' !in r.value && Trimmed(r.value)
    ensures r.Some? <==> Search(description, "Pagasts:").Some?
  {
    match Search(description, "Pagasts:")
    case None => None
    case Some(c) =>
      var t := Trim(c);
      var k := IndexOf(t, '\n');
      Some(if k >= 0 then Trim(t[..k]) else t)
  }

  /** The `Ist.:` text, trimmed; `Citi` ("other") stands for no room count, anything else goes through parseFloat. */
  function Rooms(description: string): (r: Option<Num>)
    ensures r.Some? ==> Search(description, "Ist.:").Some? && Trim(Search(description, "Ist.:").value) != "Citi"
    ensures Search(description, "Ist.:").Some? && Trim(Search(description, "Ist.:").value) != "Citi" ==> r.Some?
  {
    match Search(description, "Ist.:")
    case None => None
    case Some(c) =>
      var t := Trim(c);
      if t == "Citi" then None else Some(ParseFloat(t))
  }

  /** The `m2:` text, trimmed, through parseFloat. */
  function Area(description: string): Option<Num> {
    match Search(description, "m2:")
    case None => None
    case Some(c) => Some(ParseFloat(Trim(c)))
  }

  /** The `Stāvs:` text, trimmed. */
  function Floor(description: string): Option<string> {
    match Search(description, "St\U{0101}vs:")
    case None => None
    case Some(c) => Some(Trim(c))
  }

  // ---------------------------------------------------------------- parseRssItem

  /** `field?.[0] || ''` for a text field. */
  function FirstText(field: Option<seq<string>>): string {
    if field.None? || field.value == [] then "" else field.value[0]
  }

  /** `(field || [''])[0] || ''` for a field that may hold an element node. */
  function FirstValue(field: Option<seq<FeedValue>>): FeedValue {
    if field.None? || field.value == [] then Text("") else field.value[0]
  }

  /** What `value || fallback` yields when the value is used as text. */
  function OrText(value: FeedValue, fallback: string): string {
    match value
    case Text(t) => if t == "" then fallback else t
    case Node(c) => c
  }

  function OrDefault(t: string, fallback: string): string {
    if t == "" then fallback else t
  }

  /** Calling `.match` on a non-string link or description is the one way the parse throws. */
  predicate ParseThrows(item: RssItem) {
    FirstValue(item.link).Node? || FirstValue(item.description).Node?
  }

  /** The parsed record and, when parsing threw, the PARSING_ERROR report handed to the failure sink. */
  datatype ParseResult = ParseResult(parsed: ParsedRssItem, failure: Option<FailureReport>)

  /** The fields of an item whose link and description are text. */
  function ParseFields(link: string, title: string, description: string, pubDate: string, now: nat): ParsedRssItem {
    ParsedRssItem(
      ExtractId(link), title, PriceText(description),
      NumericPrice(PriceText(description)), PricePerM2(description), District(description),
      Rooms(description), Area(description), Floor(description),
      Category, link, if pubDate == "" then ParsedAt(now) else Published(pubDate))
  }

  /** `parseRssItem(item)` at time `now` (milliseconds). */
  function ParseRssItem(item: RssItem, now: nat): (r: ParseResult)
    ensures r.parsed.category == Category
    ensures r.failure.Some? <==> ParseThrows(item)
    ensures r.failure.Some? ==> IsSentinel(r.parsed.id) && r.parsed.price == ""
    ensures r.failure.Some? ==> r.failure.value.failureType == ParsingError && r.failure.value.rawData == Some(item)
    ensures r.failure.None? ==> r.parsed.id == ExtractId(r.parsed.link) && r.parsed.link == FirstValue(item.link).text
  {
    var link := FirstValue(item.link);
    var description := FirstValue(item.description);
    if link.Node? || description.Node? then
      var message := if link.Node? then "link.match is not a function" else "description.match is not a function";
      var report := FailureReport(
        None, Some(OrDefault(FirstText(item.title), "unknown")), OrText(link, "unknown"),
        "RSS parsing error: " + message, Some(item), ParsingError, NoInfo);
      var placeholder := ParsedRssItem(
        SentinelPrefix + NatToString(now), OrDefault(FirstText(item.title), "Parsing Error"), "",
        None, None, None, None, None, None, Category, OrText(link, ""), ParsedAt(now));
      ParseResult(placeholder, Some(report))
    else
      ParseResult(ParseFields(link.text, FirstText(item.title), description.text, FirstText(item.pubDate), now), None)
  }

  /**
   * The PARSING_ERROR row that actually reaches the failure log. The sink's `create` rejects a
   * `link` that is an element node rather than a string, and the sink swallows that error, so
   * an item whose link is a node leaves no row; a node description alone still leaves one.
   */
  function LoggedParseFailure(item: RssItem, now: nat): (f: Option<FailureReport>)
    ensures f.Some? <==> FirstValue(item.description).Node? && !FirstValue(item.link).Node?
    ensures f.Some? ==> f == ParseRssItem(item, now).failure && f.value.failureType == ParsingError
  {
    if FirstValue(item.link).Node? then None else ParseRssItem(item, now).failure
  }

  /** An item with no description parses cleanly with every description field unset and an empty price. */
  lemma ParseWithoutDescription(item: RssItem, now: nat)
    requires item.description.None? && !FirstValue(item.link).Node?
    ensures var r := ParseRssItem(item, now);
            && r.failure.None? && r.parsed.price == "" && r.parsed.priceValue.None?
            && r.parsed.pricePerM2.None? && r.parsed.district.None? && r.parsed.rooms.None?
            && r.parsed.area.None? && r.parsed.floor.None?
  {
    SearchEmpty("Cena:");
    SearchEmpty(":");
    SearchEmpty("Pagasts:");
    SearchEmpty("Ist.:");
    SearchEmpty("m2:");
    SearchEmpty("St\U{0101}vs:");
  }

  lemma SearchEmpty(name: string)
    requires name != []
    ensures Search("", name).None?
  {
    assert !At("", 0, name);
  }

  /** An item without a link gets the empty link and the empty id. */
  lemma ParseWithoutLink(item: RssItem, now: nat)
    requires item.link.None? && !ParseThrows(item)
    ensures ParseRssItem(item, now).parsed.link == "" && ParseRssItem(item, now).parsed.id == ""
  {
  }

  /** A missing publish date falls back to the parse time. */
  lemma ParseWithoutPubDate(item: RssItem, now: nat)
    requires item.pubDate.None? && !ParseThrows(item)
    ensures ParseRssItem(item, now).parsed.pubDate == ParsedAt(now)
  {
  }

  /** A Rooms value of `Citi` leaves the room count unset, never 0 and never NaN. */
  lemma CitiRoomsUnset(description: string)
    requires Search(description, "Ist.:").Some? && Trim(Search(description, "Ist.:").value) == "Citi"
    ensures Rooms(description).None?
  {
  }

  predicate AllSeparators(s: string) { forall k :: 0 <= k < |s| ==> IsDigitSeparator(s[k]) }

  /**
   * A price written in digit groups (`95 000 €`: digits, separators, digits, separators, then
   * anything that is not a digit, space or comma) is read as the digits put together.
   */
  lemma NumericPriceOfGroups(a: string, sep1: string, b: string, sep2: string, tail: string)
    requires a != [] && AllDigits(a) && AllDigits(b) && AllSeparators(sep1) && AllSeparators(sep2)
    requires tail == [] || !IsGroupChar(tail[0])
    ensures AllDigits(a + b)
    ensures NumericPrice(a + sep1 + b + sep2 + tail) == Some(DigitsValue(a + b))
  {
    var run := a + sep1 + b + sep2;
    assert forall k :: 0 <= k < |run| ==> IsGroupChar(run[k]) by {
      assert forall k :: 0 <= k < |a| ==> run[k] == a[k];
      assert forall k :: 0 <= k < |sep1| ==> run[|a| + k] == sep1[k];
      assert forall k :: 0 <= k < |b| ==> run[|a| + |sep1| + k] == b[k];
      assert forall k :: 0 <= k < |sep2| ==> run[|a| + |sep1| + |b| + k] == sep2[k];
    }
    assert run[0] == a[0];
    RemoveGroups(a, sep1, b, sep2);
    NumericPriceOfRun(run, tail);
  }

  lemma RemoveGroups(a: string, sep1: string, b: string, sep2: string)
    requires AllDigits(a) && AllDigits(b) && AllSeparators(sep1) && AllSeparators(sep2)
    ensures Remove(a + sep1 + b + sep2, IsDigitSeparator) == a + b
  {
    RemoveKeepsDigitString(a);
    RemoveKeepsDigitString(b);
    RemoveSeparators(sep1);
    RemoveSeparators(sep2);
    RemoveConcat(a, sep1, IsDigitSeparator);
    assert Remove(a + sep1, IsDigitSeparator) == a;
    RemoveConcat(a + sep1, b, IsDigitSeparator);
    assert Remove(a + sep1 + b, IsDigitSeparator) == a + b;
    RemoveConcat(a + sep1 + b, sep2, IsDigitSeparator);
  }

  lemma NumericPriceOfRun(run: string, tail: string)
    requires run != [] && IsDigit(run[0]) && forall k :: 0 <= k < |run| ==> IsGroupChar(run[k])
    requires tail == [] || !IsGroupChar(tail[0])
    ensures AllDigits(Remove(run, IsDigitSeparator))
    ensures NumericPrice(run + tail) == Some(DigitsValue(Remove(run, IsDigitSeparator)))
  {
    PriceRunIs(run, tail);
    RemoveGroupCharsIsDigits(run);
  }

  /** The digit group NumericPrice picks out of `run + tail` is `run`. */
  lemma PriceRunIs(run: string, tail: string)
    requires run != [] && IsDigit(run[0]) && forall k :: 0 <= k < |run| ==> IsGroupChar(run[k])
    requires tail == [] || !IsGroupChar(tail[0])
    ensures FirstDigit(run + tail, 0) == Some(0)
    ensures GroupRun(run + tail, 0) == |run|
    ensures (run + tail)[0..|run|] == run
  {
    var price := run + tail;
    assert price[0] == run[0];
    assert forall k :: 0 <= k < |run| ==> price[k] == run[k];
    assert |run| < |price| ==> price[|run|] == tail[0];
    GroupRunIs(price, 0, |run|);
  }

  lemma RemoveGroupCharsIsDigits(run: string)
    requires forall k :: 0 <= k < |run| ==> IsGroupChar(run[k])
    ensures AllDigits(Remove(run, IsDigitSeparator))
  {
    var raw := Remove(run, IsDigitSeparator);
    forall k | 0 <= k < |raw| ensures IsDigit(raw[k]) {
      assert raw[k] in run;
    }
  }

  lemma {:induction false} GroupRunIs(s: string, i: nat, n: nat)
    requires i <= n <= |s|
    requires forall k :: i <= k < n ==> IsGroupChar(s[k])
    requires n == |s| || !IsGroupChar(s[n])
    ensures GroupRun(s, i) == n - i
    decreases n - i
  {
    if i < n {
      GroupRunIs(s, i + 1, n);
    }
  }

  lemma {:induction false} RemoveSeparators(s: string)
    requires AllSeparators(s)
    ensures Remove(s, IsDigitSeparator) == []
  {
    if s != [] {
      assert IsDigitSeparator(s[0]);
      RemoveSeparators(s[1..]);
    }
  }

  // ---------------------------------------------------------------- district feed URL

  const RssBaseUrl := "https://www.ss.lv/lv/real-estate/flats/riga/"

  /** RSS_FEED_URL with its default value. */
  const RssFeedUrl := "https://www.ss.lv/lv/real-estate/flats/riga/rss/"

  datatype QueryParam = QueryParam(key: string, value: string)

  const PriceMinKey := "topt[8][min]"
  const PriceMaxKey := "topt[8][max]"
  const RoomsMinKey := "topt[1][min]"
  const RoomsMaxKey := "topt[1][max]"

  /** The query of a district feed: one parameter per truthy bound, in the source's order; `show` renders a float. */
  function DistrictQuery(priceMin: Option<int>, priceMax: Option<int>, roomsMin: Option<real>, roomsMax: Option<real>,
                         show: real -> string): seq<QueryParam>
  {
    (if TruthyInt(priceMin) then [QueryParam(PriceMinKey, IntToString(priceMin.value))] else [])
    + ((if TruthyInt(priceMax) then [QueryParam(PriceMaxKey, IntToString(priceMax.value))] else [])
       + ((if TruthyReal(roomsMin) then [QueryParam(RoomsMinKey, show(roomsMin.value))] else [])
          + (if TruthyReal(roomsMax) then [QueryParam(RoomsMaxKey, show(roomsMax.value))] else [])))
  }

  /** The value a query gives a key (its first occurrence), as URLSearchParams.get reads it. */
  function Lookup(q: seq<QueryParam>, key: string): Option<string> {
    if q == [] then None else if q[0].key == key then Some(q[0].value) else Lookup(q[1..], key)
  }

  function KeyRank(key: string): nat {
    if key == PriceMinKey then 0 else if key == PriceMaxKey then 1 else if key == RoomsMinKey then 2 else 3
  }

  /** Reading the query back gives each bound's text exactly when the bound is truthy (so 0 is never sent). */
  lemma DistrictQueryReadBack(priceMin: Option<int>, priceMax: Option<int>, roomsMin: Option<real>, roomsMax: Option<real>,
                              show: real -> string)
    ensures var q := DistrictQuery(priceMin, priceMax, roomsMin, roomsMax, show);
            && Lookup(q, PriceMinKey) == (if TruthyInt(priceMin) then Some(IntToString(priceMin.value)) else None)
            && Lookup(q, PriceMaxKey) == (if TruthyInt(priceMax) then Some(IntToString(priceMax.value)) else None)
            && Lookup(q, RoomsMinKey) == (if TruthyReal(roomsMin) then Some(show(roomsMin.value)) else None)
            && Lookup(q, RoomsMaxKey) == (if TruthyReal(roomsMax) then Some(show(roomsMax.value)) else None)
  {
    var a := if TruthyInt(priceMin) then [QueryParam(PriceMinKey, IntToString(priceMin.value))] else [];
    var b := if TruthyInt(priceMax) then [QueryParam(PriceMaxKey, IntToString(priceMax.value))] else [];
    var c := if TruthyReal(roomsMin) then [QueryParam(RoomsMinKey, show(roomsMin.value))] else [];
    var d := if TruthyReal(roomsMax) then [QueryParam(RoomsMaxKey, show(roomsMax.value))] else [];
    assert DistrictQuery(priceMin, priceMax, roomsMin, roomsMax, show) == a + (b + (c + d));
    KeysDistinct();
    LookupOfFour(a, b, c, d, PriceMinKey);
    LookupOfFour(a, b, c, d, PriceMaxKey);
    LookupOfFour(a, b, c, d, RoomsMinKey);
    LookupOfFour(a, b, c, d, RoomsMaxKey);
  }

  /** The parameters come in the fixed order price-min, price-max, rooms-min, rooms-max. */
  lemma DistrictQueryOrder(priceMin: Option<int>, priceMax: Option<int>, roomsMin: Option<real>, roomsMax: Option<real>,
                           show: real -> string)
    ensures RankIncreasing(DistrictQuery(priceMin, priceMax, roomsMin, roomsMax, show))
  {
    KeyRanks();
    var a := if TruthyInt(priceMin) then [QueryParam(PriceMinKey, IntToString(priceMin.value))] else [];
    var b := if TruthyInt(priceMax) then [QueryParam(PriceMaxKey, IntToString(priceMax.value))] else [];
    var c := if TruthyReal(roomsMin) then [QueryParam(RoomsMinKey, show(roomsMin.value))] else [];
    var d := if TruthyReal(roomsMax) then [QueryParam(RoomsMaxKey, show(roomsMax.value))] else [];
    assert DistrictQuery(priceMin, priceMax, roomsMin, roomsMax, show) == a + (b + (c + d));
    OrderOfFour(a, b, c, d);
  }

  /** Four parts of at most one parameter each, of ranks 0, 1, 2 and 3, join in rank order. */
  lemma OrderOfFour(a: seq<QueryParam>, b: seq<QueryParam>, c: seq<QueryParam>, d: seq<QueryParam>)
    requires |a| <= 1 && (a != [] ==> KeyRank(a[0].key) == 0)
    requires |b| <= 1 && (b != [] ==> KeyRank(b[0].key) == 1)
    requires |c| <= 1 && (c != [] ==> KeyRank(c[0].key) == 2)
    requires |d| <= 1 && (d != [] ==> KeyRank(d[0].key) == 3)
    ensures RankIncreasing(a + (b + (c + d)))
  {
    assert RankIncreasing(c + d) && RanksAbove(c + d, 1) by {
      assert RankIncreasing(d) && RanksAbove(d, 2);
      RankedConcat(c, d, 1, 1);
    }
    assert RankIncreasing(b + (c + d)) && RanksAbove(b + (c + d), 0) by {
      RankedConcat(b, c + d, 0, 0);
    }
    RankedConcat(a, b + (c + d), -1, -1);
  }

  predicate RankIncreasing(q: seq<QueryParam>) {
    forall i, j :: 0 <= i < j < |q| ==> KeyRank(q[i].key) < KeyRank(q[j].key)
  }

  predicate RanksAbove(q: seq<QueryParam>, r: int) { forall i :: 0 <= i < |q| ==> KeyRank(q[i].key) > r }

  /** A part of at most one parameter of rank `r + 1`, before a rank-increasing part of higher ranks, keeps ranks increasing. */
  lemma RankedConcat(x: seq<QueryParam>, y: seq<QueryParam>, r: int, lo: int)
    requires |x| <= 1 && (x != [] ==> KeyRank(x[0].key) == r + 1)
    requires RanksAbove(y, r + 1) && RankIncreasing(y) && r >= lo
    ensures RankIncreasing(x + y) && RanksAbove(x + y, lo)
  {
    var q := x + y;
    forall i, j | 0 <= i < j < |q| ensures KeyRank(q[i].key) < KeyRank(q[j].key) {
      if i < |x| {
        assert q[j] == y[j - |x|];
      } else {
        assert q[i] == y[i - |x|] && q[j] == y[j - |x|];
      }
    }
    forall i | 0 <= i < |q| ensures KeyRank(q[i].key) > lo {
      if i >= |x| {
        assert q[i] == y[i - |x|];
      }
    }
  }

  lemma KeyRanks()
    ensures KeyRank(PriceMinKey) == 0 && KeyRank(PriceMaxKey) == 1 && KeyRank(RoomsMinKey) == 2 && KeyRank(RoomsMaxKey) == 3
  {
    KeysDistinct();
  }

  /** Lookup in four at-most-one-element parts: the first part that has the key answers. */
  lemma LookupOfFour(a: seq<QueryParam>, b: seq<QueryParam>, c: seq<QueryParam>, d: seq<QueryParam>, key: string)
    requires |a| <= 1 && |b| <= 1 && |c| <= 1 && |d| <= 1
    ensures Lookup(a + (b + (c + d)), key)
            == if a != [] && a[0].key == key then Some(a[0].value)
               else if b != [] && b[0].key == key then Some(b[0].value)
               else if c != [] && c[0].key == key then Some(c[0].value)
               else if d != [] && d[0].key == key then Some(d[0].value)
               else None
  {
    LookupConcat(a, b + (c + d), key);
    LookupConcat(b, c + d, key);
    LookupConcat(c, d, key);
    LookupSingle(a, key);
    LookupSingle(b, key);
    LookupSingle(c, key);
    LookupSingle(d, key);
  }

  lemma KeysDistinct()
    ensures PriceMinKey != PriceMaxKey && PriceMinKey != RoomsMinKey && PriceMinKey != RoomsMaxKey
    ensures PriceMaxKey != RoomsMinKey && PriceMaxKey != RoomsMaxKey && RoomsMinKey != RoomsMaxKey
  {
    assert PriceMinKey[5] != RoomsMinKey[5] && PriceMinKey[5] != RoomsMaxKey[5];
    assert PriceMaxKey[5] != RoomsMinKey[5] && PriceMaxKey[5] != RoomsMaxKey[5];
    assert PriceMinKey[9] != PriceMaxKey[9] && RoomsMinKey[9] != RoomsMaxKey[9];
  }

  lemma LookupSingle(p: seq<QueryParam>, key: string)
    requires |p| <= 1
    ensures Lookup(p, key) == if p != [] && p[0].key == key then Some(p[0].value) else None
  {
    if p != [] {
      assert p[1..] == [];
    }
  }

  lemma {:induction false} LookupConcat(p: seq<QueryParam>, q: seq<QueryParam>, key: string)
    ensures Lookup(p + q, key) == if Lookup(p, key).Some? then Lookup(p, key) else Lookup(q, key)
  {
    if p == [] {
      assert p + q == q;
    } else {
      assert (p + q)[0] == p[0];
      assert (p + q)[1..] == p[1..] + q;
      LookupConcat(p[1..], q, key);
    }
  }

  function HexDigit(d: nat): char
    requires d < 16
  {
    if d < 10 then DigitChar(d) else (('A' as int) + d - 10) as char
  }

  /** application/x-www-form-urlencoded encoding of one character (code points below 128). */
  function FormEncodeChar(c: char): string {
    if ('a' <= c <= 'z') || ('A' <= c <= 'Z') || IsDigit(c) || c == '*' || c == '-' || c == '.' || c == '_' then [c]
    else if c == ' ' then "+"
    else if (c as int) < 128 then ['%', HexDigit((c as int) / 16), HexDigit((c as int) % 16)]
    else [c]
  }

  function FormEncode(s: string): string {
    if s == [] then [] else FormEncodeChar(s[0]) + FormEncode(s[1..])
  }

  /** `params.toString()`. */
  function QueryString(q: seq<QueryParam>): string {
    if q == [] then ""
    else
      var first := FormEncode(q[0].key) + "=" + FormEncode(q[0].value);
      if |q| == 1 then first else first + "&" + QueryString(q[1..])
  }

  lemma QueryStringEmpty(q: seq<QueryParam>)
    ensures QueryString(q) == [] <==> q == []
  {
    if q != [] {
      var k := q[0].key;
      if k != [] {
        assert FormEncode(k) == FormEncodeChar(k[0]) + FormEncode(k[1..]);
      }
      assert (FormEncode(k) + "=" + FormEncode(q[0].value))[|FormEncode(k)|] == '=';
    }
  }

  /** The URL `fetchRssItemsByDistrict` fetches. */
  function DistrictFeedUrl(district: string, priceMin: Option<int>, priceMax: Option<int>,
                           roomsMin: Option<real>, roomsMax: Option<real>, show: real -> string): (url: string)
    ensures RssBaseUrl + district + "/rss/" <= url
    ensures var n := |RssBaseUrl + district + "/rss/"|;
            (|url| > n <==> TruthyInt(priceMin) || TruthyInt(priceMax) || TruthyReal(roomsMin) || TruthyReal(roomsMax))
            && (|url| > n ==> url[n] == '?')
            && (|url| > n ==> url[n + 1..] == QueryString(DistrictQuery(priceMin, priceMax, roomsMin, roomsMax, show)))
  {
    var q := DistrictQuery(priceMin, priceMax, roomsMin, roomsMax, show);
    var query := QueryString(q);
    QueryStringEmpty(q);
    var prefix := RssBaseUrl + district + "/rss/";
    var tail := if query != "" then "?" + query else "";
    UrlParts(prefix, tail, query);
    prefix + tail
  }

  /** A URL made of a prefix and either nothing or `?` and a query. */
  lemma UrlParts(prefix: string, tail: string, query: string)
    requires tail == (if query != "" then "?" + query else "")
    ensures prefix <= prefix + tail
    ensures |prefix + tail| > |prefix| <==> query != ""
    ensures |prefix + tail| > |prefix| ==> (prefix + tail)[|prefix|] == '?' && (prefix + tail)[|prefix| + 1..] == query
  {
    if query != "" {
      assert (prefix + tail)[|prefix| + 1..] == tail[1..];
    }
  }

  // ---------------------------------------------------------------- storeListings

  predicate HasId(ls: seq<Listing>, id: string) {
    exists k :: 0 <= k < |ls| && ls[k].entry.id == id
  }

  /** The listing upsert with an empty update: create the row if the id is new, otherwise change nothing. */
  function Upsert(ls: seq<Listing>, p: ParsedRssItem, now: int): seq<Listing> {
    if HasId(ls, p.id) then ls else ls + [Listing(p, now)]
  }

  /** The state `storeListings` works on: the two tables it writes and its count. */
  datatype Ingestion = Ingestion(listings: seq<Listing>, failed: seq<FailureRecord>, stored: nat)

  /** The INVALID_DATA report for a listing the store rejected with `message`. */
  function StorageFailure(p: ParsedRssItem, message: string): FailureReport {
    FailureReport(Some(p.id), Some(p.title), p.link, "Database storage error: " + message, None, InvalidData, ParsedInfo(p))
  }

  /**
   * One iteration of the loop of `storeListings` for the item at `index`: parse (logging a
   * parse failure the sink accepts), skip placeholders, upsert; `storeError(index)` is the store's answer.
   */
  function IngestItem(st: Ingestion, item: RssItem, index: nat, now: nat, storeError: nat -> Option<string>): Ingestion {
    var r := ParseRssItem(item, now);
    var logged := LoggedParseFailure(item, now);
    var failed := if logged.Some? then AppendFailure(st.failed, logged.value, now) else st.failed;
    if IsSentinel(r.parsed.id) then st.(failed := failed)
    else if storeError(index).Some? then
      st.(failed := AppendFailure(failed, StorageFailure(r.parsed, storeError(index).value), now))
    else Ingestion(Upsert(st.listings, r.parsed, now), failed, st.stored + 1)
  }

  /** An item whose link is an element node changes nothing: its placeholder is skipped and its failure row is rejected. */
  lemma NodeLinkChangesNothing(st: Ingestion, item: RssItem, index: nat, now: nat, storeError: nat -> Option<string>)
    requires FirstValue(item.link).Node?
    ensures IngestItem(st, item, index, now, storeError) == st
  {
  }

  /** An item whose description alone is a node leaves exactly its PARSING_ERROR row and no listing. */
  lemma NodeDescriptionLogged(st: Ingestion, item: RssItem, index: nat, now: nat, storeError: nat -> Option<string>)
    requires FirstValue(item.description).Node? && !FirstValue(item.link).Node?
    ensures var r := ParseRssItem(item, now);
            IngestItem(st, item, index, now, storeError) == st.(failed := AppendFailure(st.failed, r.failure.value, now))
  {
  }

  /** The loop of `storeListings` over `items[from..]`. */
  function IngestFrom(st: Ingestion, items: seq<RssItem>, from: nat, now: nat, storeError: nat -> Option<string>): Ingestion
    requires from <= |items|
    decreases |items| - from
  {
    if from == |items| then st
    else IngestFrom(IngestItem(st, items[from], from, now, storeError), items, from + 1, now, storeError)
  }

  /** Ingestion only appends: existing listing rows and failure rows are never changed, and the count grows by at most one per item. */
  lemma {:induction false} IngestOnlyAppends(st: Ingestion, items: seq<RssItem>, from: nat, now: nat, storeError: nat -> Option<string>)
    requires from <= |items|
    ensures var r := IngestFrom(st, items, from, now, storeError);
            && st.listings <= r.listings && st.failed <= r.failed
            && st.stored <= r.stored <= st.stored + (|items| - from)
    decreases |items| - from
  {
    if from < |items| {
      var st1 := IngestItem(st, items[from], from, now, storeError);
      IngestItemAppends(st, items[from], from, now, storeError);
      IngestOnlyAppends(st1, items, from + 1, now, storeError);
      assert IngestFrom(st, items, from, now, storeError) == IngestFrom(st1, items, from + 1, now, storeError);
    }
  }

  /** One item appends at most one listing row and only failure rows. */
  lemma IngestItemAppends(st: Ingestion, item: RssItem, index: nat, now: nat, storeError: nat -> Option<string>)
    ensures var st1 := IngestItem(st, item, index, now, storeError);
            && st.listings <= st1.listings && st.failed <= st1.failed
            && st.stored <= st1.stored <= st.stored + 1
  {
    var r := ParseRssItem(item, now);
    var logged := LoggedParseFailure(item, now);
    var failed := if logged.Some? then AppendFailure(st.failed, logged.value, now) else st.failed;
    assert st.failed <= failed;
    if !IsSentinel(r.parsed.id) && storeError(index).Some? {
      assert failed <= AppendFailure(failed, StorageFailure(r.parsed, storeError(index).value), now);
    }
  }

  /** Every row ingestion adds is a parsed item of the batch that is not a placeholder and whose id was new, stamped with `now`. */
  lemma {:induction false} IngestAddsParsedItems(st: Ingestion, items: seq<RssItem>, from: nat, now: nat, storeError: nat -> Option<string>)
    requires from <= |items|
    requires UniqueListingIds(st.listings)
    ensures var r := IngestFrom(st, items, from, now, storeError);
            && UniqueListingIds(r.listings)
            && forall k :: |st.listings| <= k < |r.listings| ==>
                 r.listings[k].createdAt == now && !IsSentinel(r.listings[k].entry.id) && !HasId(st.listings, r.listings[k].entry.id)
                 && exists i :: from <= i < |items| && r.listings[k].entry == ParseRssItem(items[i], now).parsed
    decreases |items| - from
  {
    if from < |items| {
      var st1 := IngestItem(st, items[from], from, now, storeError);
      var p := ParseRssItem(items[from], now).parsed;
      IngestItemAdds(st, items[from], from, now, storeError);
      IngestAddsParsedItems(st1, items, from + 1, now, storeError);
      IngestOnlyAppends(st1, items, from + 1, now, storeError);
      var r := IngestFrom(st1, items, from + 1, now, storeError);
      assert r == IngestFrom(st, items, from, now, storeError);
      forall k | |st.listings| <= k < |r.listings|
        ensures r.listings[k].createdAt == now && !IsSentinel(r.listings[k].entry.id) && !HasId(st.listings, r.listings[k].entry.id)
        ensures exists i :: from <= i < |items| && r.listings[k].entry == ParseRssItem(items[i], now).parsed
      {
        if k < |st1.listings| {
          assert r.listings[k] == st1.listings[k];
          assert r.listings[k].entry == ParseRssItem(items[from], now).parsed;
        } else {
          assert !HasId(st1.listings, r.listings[k].entry.id);
          HasIdPrefix(st.listings, st1.listings, r.listings[k].entry.id);
        }
      }
    }
  }

  /** One item adds at most its own parsed entry, only when that entry is real and its id new. */
  lemma IngestItemAdds(st: Ingestion, item: RssItem, index: nat, now: nat, storeError: nat -> Option<string>)
    requires UniqueListingIds(st.listings)
    ensures var st1 := IngestItem(st, item, index, now, storeError);
            var p := ParseRssItem(item, now).parsed;
            && UniqueListingIds(st1.listings) && st.listings <= st1.listings
            && forall k :: |st.listings| <= k < |st1.listings| ==>
                 st1.listings[k].entry == p && st1.listings[k].createdAt == now && !IsSentinel(p.id) && !HasId(st.listings, p.id)
  {
  }

  /** An id absent from a longer table is absent from its prefix. */
  lemma HasIdPrefix(a: seq<Listing>, b: seq<Listing>, id: string)
    requires a <= b && !HasId(b, id)
    ensures !HasId(a, id)
  {
  }

  /** Ingesting a batch whose ids are all stored already (or are placeholders) changes no listing: the first-seen data wins. */
  lemma {:induction false} ReingestKeepsListings(st: Ingestion, items: seq<RssItem>, from: nat, now: nat, storeError: nat -> Option<string>)
    requires from <= |items|
    requires forall i :: from <= i < |items| ==> IsSentinel(ParseRssItem(items[i], now).parsed.id) || HasId(st.listings, ParseRssItem(items[i], now).parsed.id)
    ensures IngestFrom(st, items, from, now, storeError).listings == st.listings
    decreases |items| - from
  {
    if from < |items| {
      ReingestKeepsListings(IngestItem(st, items[from], from, now, storeError), items, from + 1, now, storeError);
    }
  }

  /** Ingestion keeps the failure log well formed: new failure rows get the next ids and time `now`. */
  lemma {:induction false} IngestKeepsFailureLog(st: Ingestion, items: seq<RssItem>, from: nat, now: nat, storeError: nat -> Option<string>)
    requires from <= |items|
    requires FailureLog(st.failed) && NotBefore(st.failed, now)
    ensures FailureLog(IngestFrom(st, items, from, now, storeError).failed)
    ensures NotBefore(IngestFrom(st, items, from, now, storeError).failed, now)
    decreases |items| - from
  {
    if from < |items| {
      var r := ParseRssItem(items[from], now);
      var logged := LoggedParseFailure(items[from], now);
      if logged.Some? {
        AppendKeepsLog(st.failed, logged.value, now);
        var f1 := AppendFailure(st.failed, logged.value, now);
        AppendKeepsLog(f1, StorageFailure(r.parsed, storeError(from).GetOr("")), now);
      } else {
        AppendKeepsLog(st.failed, StorageFailure(r.parsed, storeError(from).GetOr("")), now);
      }
      IngestKeepsFailureLog(IngestItem(st, items[from], from, now, storeError), items, from + 1, now, storeError);
    }
  }

  /** Every item of the batch that parses to a real entry and that the store accepts ends with its id in the table. */
  /** The item at `index` is in the table unless it parses to a placeholder or the store rejects it. */
  predicate Covers(ls: seq<Listing>, item: RssItem, index: nat, now: nat, storeError: nat -> Option<string>) {
    var p := ParseRssItem(item, now).parsed;
    !IsSentinel(p.id) && storeError(index).None? ==> HasId(ls, p.id)
  }

  lemma {:induction false} IngestCovers(st: Ingestion, items: seq<RssItem>, from: nat, now: nat, storeError: nat -> Option<string>)
    requires from <= |items|
    ensures var r := IngestFrom(st, items, from, now, storeError);
            forall i :: from <= i < |items| ==> Covers(r.listings, items[i], i, now, storeError)
    decreases |items| - from
  {
    if from < |items| {
      var st1 := IngestItem(st, items[from], from, now, storeError);
      var r := IngestFrom(st1, items, from + 1, now, storeError);
      assert r == IngestFrom(st, items, from, now, storeError);
      IngestCovers(st1, items, from + 1, now, storeError);
      IngestItemStores(st, items[from], from, now, storeError);
      IngestOnlyAppends(st1, items, from + 1, now, storeError);
      CoversGrows(st1.listings, r.listings, items[from], from, now, storeError);
      forall i | from <= i < |items|
        ensures Covers(r.listings, items[i], i, now, storeError)
      {
        if i > from {
          assert from + 1 <= i < |items|;
        }
      }
    }
  }

  /** After its own step an item is covered. */
  lemma IngestItemStores(st: Ingestion, item: RssItem, index: nat, now: nat, storeError: nat -> Option<string>)
    ensures Covers(IngestItem(st, item, index, now, storeError).listings, item, index, now, storeError)
  {
    var p := ParseRssItem(item, now).parsed;
    if !IsSentinel(p.id) && storeError(index).None? {
      assert IngestItem(st, item, index, now, storeError).listings == Upsert(st.listings, p, now);
      UpsertHasId(st.listings, p, now);
    }
  }

  /** Coverage survives appending rows. */
  lemma CoversGrows(a: seq<Listing>, b: seq<Listing>, item: RssItem, index: nat, now: nat, storeError: nat -> Option<string>)
    requires a <= b && Covers(a, item, index, now, storeError)
    ensures Covers(b, item, index, now, storeError)
  {
    var p := ParseRssItem(item, now).parsed;
    if !IsSentinel(p.id) && storeError(index).None? {
      HasIdGrows(a, b, p.id);
    }
  }

  /** After an upsert the entry's id is in the table. */
  lemma UpsertHasId(ls: seq<Listing>, p: ParsedRssItem, now: int)
    ensures HasId(Upsert(ls, p, now), p.id)
  {
    if !HasId(ls, p.id) {
      assert Upsert(ls, p, now)[|ls|].entry == p;
    }
  }

  /** An id present in a table is present in any table it is a prefix of. */
  lemma HasIdGrows(a: seq<Listing>, b: seq<Listing>, id: string)
    requires a <= b && HasId(a, id)
    ensures HasId(b, id)
  {
    var k :| 0 <= k < |a| && a[k].entry.id == id;
    assert b[k] == a[k];
  }

  /** The items from `from` on that parse to a real entry and that the store rejects. */
  function CountStoreErrors(items: seq<RssItem>, from: nat, now: nat, storeError: nat -> Option<string>): nat
    requires from <= |items|
    decreases |items| - from
  {
    if from == |items| then 0
    else (if !IsSentinel(ParseRssItem(items[from], now).parsed.id) && storeError(from).Some? then 1 else 0)
         + CountStoreErrors(items, from + 1, now, storeError)
  }

  /** The items from `from` on that parse to a real entry and that the store accepts. */
  function CountAccepted(items: seq<RssItem>, from: nat, now: nat, storeError: nat -> Option<string>): nat
    requires from <= |items|
    decreases |items| - from
  {
    if from == |items| then 0
    else (if !IsSentinel(ParseRssItem(items[from], now).parsed.id) && storeError(from).None? then 1 else 0)
         + CountAccepted(items, from + 1, now, storeError)
  }

  /** The items from `from` on whose parse failure the failure sink writes. */
  function CountLoggedParseFailures(items: seq<RssItem>, from: nat, now: nat): nat
    requires from <= |items|
    decreases |items| - from
  {
    if from == |items| then 0
    else (if LoggedParseFailure(items[from], now).Some? then 1 else 0) + CountLoggedParseFailures(items, from + 1, now)
  }

  /**
   * The accounting of `storeListings`: each store error adds one INVALID_DATA row and the loop
   * goes on, each parse failure the sink accepts adds one PARSING_ERROR row, no NOTIFICATION_ERROR
   * row is added, and the count is the number of accepted writes.
   */
  lemma {:induction false} IngestCounts(st: Ingestion, items: seq<RssItem>, from: nat, now: nat, storeError: nat -> Option<string>)
    requires from <= |items|
    ensures var r := IngestFrom(st, items, from, now, storeError);
            && CountKind(r.failed, InvalidData) == CountKind(st.failed, InvalidData) + CountStoreErrors(items, from, now, storeError)
            && CountKind(r.failed, ParsingError) == CountKind(st.failed, ParsingError) + CountLoggedParseFailures(items, from, now)
            && CountKind(r.failed, NotificationError) == CountKind(st.failed, NotificationError)
            && r.stored == st.stored + CountAccepted(items, from, now, storeError)
    decreases |items| - from
  {
    if from < |items| {
      IngestItemCounts(st, items[from], from, now, storeError);
      IngestCounts(IngestItem(st, items[from], from, now, storeError), items, from + 1, now, storeError);
    }
  }

  /** The accounting of one item. */
  lemma IngestItemCounts(st: Ingestion, item: RssItem, index: nat, now: nat, storeError: nat -> Option<string>)
    ensures var st1 := IngestItem(st, item, index, now, storeError);
            var isReal := !IsSentinel(ParseRssItem(item, now).parsed.id);
            && CountKind(st1.failed, InvalidData) == CountKind(st.failed, InvalidData) + (if isReal && storeError(index).Some? then 1 else 0)
            && CountKind(st1.failed, ParsingError) == CountKind(st.failed, ParsingError) + (if LoggedParseFailure(item, now).Some? then 1 else 0)
            && CountKind(st1.failed, NotificationError) == CountKind(st.failed, NotificationError)
            && st1.stored == st.stored + (if isReal && storeError(index).None? then 1 else 0)
  {
    var r := ParseRssItem(item, now);
    var logged := LoggedParseFailure(item, now);
    var failed := if logged.Some? then AppendFailure(st.failed, logged.value, now) else st.failed;
    if logged.Some? {
      AppendCounts(st.failed, logged.value, now, InvalidData);
      AppendCounts(st.failed, logged.value, now, ParsingError);
      AppendCounts(st.failed, logged.value, now, NotificationError);
    }
    if !IsSentinel(r.parsed.id) && storeError(index).Some? {
      var report := StorageFailure(r.parsed, storeError(index).value);
      AppendCounts(failed, report, now, InvalidData);
      AppendCounts(failed, report, now, ParsingError);
      AppendCounts(failed, report, now, NotificationError);
    }
  }

  /**
   * The body of the loop of `storeListings` for one item: parse it (logging a parse
   * failure), skip a placeholder, otherwise upsert it or log the store's rejection.
   * Reports whether a write was accepted.
   */
  method StoreItem(db: Db, item: RssItem, index: nat, now: nat, storeError: nat -> Option<string>) returns (stored: bool)
    requires db.Valid() && NotBefore(db.failed, now)
    modifies db`listings, db`failed
    ensures db.Valid() && NotBefore(db.failed, now)
    ensures forall count: nat ::
      Ingestion(db.listings, db.failed, count + if stored then 1 else 0)
      == IngestItem(Ingestion(old(db.listings), old(db.failed), count), item, index, now, storeError)
  {
    var r := ParseRssItem(item, now);
    var logged := LoggedParseFailure(item, now);
    if logged.Some? {
      AppendKeepsLog(db.failed, logged.value, now);
      db.failed := AppendFailure(db.failed, logged.value, now);
    }
    stored := false;
    if !IsSentinel(r.parsed.id) {
      var error := storeError(index);
      if error.Some? {
        AppendKeepsLog(db.failed, StorageFailure(r.parsed, error.value), now);
        db.failed := AppendFailure(db.failed, StorageFailure(r.parsed, error.value), now);
      } else {
        UpsertKeepsUnique(db.listings, r.parsed, now);
        db.listings := Upsert(db.listings, r.parsed, now);
        stored := true;
      }
    }
  }

  /**
   * `storeListings(items)`: for each item in order, parse it, skip placeholders and upsert the
   * rest; a rejected write becomes an INVALID_DATA failure and the loop goes on. Returns how
   * many writes the store accepted.
   */
  method StoreListings(db: Db, items: seq<RssItem>, now: nat, storeError: nat -> Option<string>) returns (storedCount: nat)
    requires db.Valid() && NotBefore(db.failed, now)
    modifies db`listings, db`failed
    ensures db.Valid() && NotBefore(db.failed, now)
    ensures Ingestion(db.listings, db.failed, storedCount) == IngestFrom(Ingestion(old(db.listings), old(db.failed), 0), items, 0, now, storeError)
    ensures storedCount <= |items|
  {
    ghost var start := Ingestion(db.listings, db.failed, 0);
    storedCount := 0;
    var i := 0;
    while i < |items|
      invariant 0 <= i <= |items|
      invariant db.Valid() && NotBefore(db.failed, now)
      invariant IngestFrom(Ingestion(db.listings, db.failed, storedCount), items, i, now, storeError) == IngestFrom(start, items, 0, now, storeError)
    {
      var stored := StoreItem(db, items[i], i, now, storeError);
      if stored {
        storedCount := storedCount + 1;
      }
      i := i + 1;
    }
    IngestOnlyAppends(start, items, 0, now, storeError);
  }

  lemma UpsertKeepsUnique(ls: seq<Listing>, p: ParsedRssItem, now: int)
    requires UniqueListingIds(ls)
    ensures UniqueListingIds(Upsert(ls, p, now))
  {
  }
}
