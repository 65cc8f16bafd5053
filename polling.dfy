/**
 * The pure parts of the polling service: the subscription matcher, the notification
 * text, and the query `getLastAvailableListing` sends to the listing table.
 */
module Polling {
  import opened Wrappers
  import opened Text
  import opened Numerals
  import opened Types

  // ---------------------------------------------------------------- matchesSubscription

  /** `bound && value && value < bound` on an integer criterion: the value is below a set minimum. */
  predicate BelowInt(value: Option<int>, bound: Option<int>) {
    TruthyInt(bound) && TruthyInt(value) && value.value < bound.value
  }

  predicate AboveInt(value: Option<int>, bound: Option<int>) {
    TruthyInt(bound) && TruthyInt(value) && value.value > bound.value
  }

  /** The same tests on a floating-point criterion; NaN and 0 are falsy and never fail it. */
  predicate BelowNum(value: Option<Num>, bound: Option<real>) {
    TruthyReal(bound) && TruthyNum(value) && value.value.value < bound.value
  }

  predicate AboveNum(value: Option<Num>, bound: Option<real>) {
    TruthyReal(bound) && TruthyNum(value) && value.value.value > bound.value
  }

  /** `matchesSubscription(listing, subscription)`: every criterion the subscription sets and the listing can be tested on is met. */
  predicate MatchesSubscription(l: Listing, s: Subscription) {
    var e := l.entry;
    e.category == s.category
    && !(TruthyText(s.district) && e.district != s.district)
    && !BelowInt(e.priceValue, s.priceMin) && !AboveInt(e.priceValue, s.priceMax)
    && !BelowNum(e.rooms, s.roomsMin) && !AboveNum(e.rooms, s.roomsMax)
    && !BelowNum(e.area, s.areaMin) && !AboveNum(e.area, s.areaMax)
  }

  /** A subscription that sets no criterion besides its category matches every listing of that category. */
  lemma MatchesWithoutCriteria(l: Listing, s: Subscription)
    requires !TruthyText(s.district) && !TruthyInt(s.priceMin) && !TruthyInt(s.priceMax)
    requires !TruthyReal(s.roomsMin) && !TruthyReal(s.roomsMax) && !TruthyReal(s.areaMin) && !TruthyReal(s.areaMax)
    ensures MatchesSubscription(l, s) <==> l.entry.category == s.category
  {
  }

  /** A listing whose price, rooms and area are missing, 0 or NaN passes every numeric bound: only category and district decide. */
  lemma MissingValuesPassBounds(l: Listing, s: Subscription)
    requires !TruthyInt(l.entry.priceValue) && !TruthyNum(l.entry.rooms) && !TruthyNum(l.entry.area)
    ensures MatchesSubscription(l, s)
            <==> l.entry.category == s.category && (!TruthyText(s.district) || l.entry.district == s.district)
  {
  }

  /** A listing of another category never matches, whatever else it has. */
  lemma CategoryMismatchFails(l: Listing, s: Subscription)
    requires l.entry.category != s.category
    ensures !MatchesSubscription(l, s)
  {
  }

  /** A listing whose truthy values all lie within the subscription's truthy bounds, in the right category and district, matches. */
  lemma InRangeMatches(l: Listing, s: Subscription)
    requires l.entry.category == s.category && (!TruthyText(s.district) || l.entry.district == s.district)
    requires TruthyInt(l.entry.priceValue) ==>
               (TruthyInt(s.priceMin) ==> s.priceMin.value <= l.entry.priceValue.value)
               && (TruthyInt(s.priceMax) ==> l.entry.priceValue.value <= s.priceMax.value)
    requires TruthyNum(l.entry.rooms) ==>
               (TruthyReal(s.roomsMin) ==> s.roomsMin.value <= l.entry.rooms.value.value)
               && (TruthyReal(s.roomsMax) ==> l.entry.rooms.value.value <= s.roomsMax.value)
    requires TruthyNum(l.entry.area) ==>
               (TruthyReal(s.areaMin) ==> s.areaMin.value <= l.entry.area.value.value)
               && (TruthyReal(s.areaMax) ==> l.entry.area.value.value <= s.areaMax.value)
    ensures MatchesSubscription(l, s)
  {
  }

  /** And conversely a listing with a truthy price below a truthy minimum never matches. */
  lemma PriceBelowMinimumFails(l: Listing, s: Subscription)
    requires TruthyInt(s.priceMin) && TruthyInt(l.entry.priceValue) && l.entry.priceValue.value < s.priceMin.value
    ensures !MatchesSubscription(l, s)
  {
  }

  // ---------------------------------------------------------------- buildListingMessage

  const OfficeIcon := "\U{1F3E2}"
  const HouseIcon := "\U{1F3E0}"
  const LinkIcon := "\U{1F517}"
  const CommercialLine := "\nProperty Type: Commercial"

  /** A listing counts as commercial when its title mentions `Citi` or its category is `commercial`. */
  predicate IsCommercial(e: ParsedRssItem) {
    Includes(e.title, "Citi") || e.category == "commercial"
  }

  /** The opening lines: icon, title, and the price or `Contact for price`. */
  function Opening(e: ParsedRssItem): string {
    var icon := if IsCommercial(e) then OfficeIcon else HouseIcon;
    icon + " New Listing Alert! " + icon + "\n\nTitle: " + e.title + "\nPrice: " + (if e.price != "" then e.price else "Contact for price")
  }

  /** The price per m², on the price line, when it is truthy. */
  function PerM2(e: ParsedRssItem, show: real -> string): string {
    if TruthyNum(e.pricePerM2) then "\nPrice per m\U{00B2}: " + show(e.pricePerM2.value.value) + " \U{20AC}/m\U{00B2}" else ""
  }

  /** The optional detail lines, each present only when its value is truthy. */
  function DetailLines(e: ParsedRssItem, show: real -> string): string {
    (if TruthyNum(e.rooms) then "\nRooms: " + show(e.rooms.value.value) else "")
    + (if TruthyNum(e.area) then "\nArea: " + show(e.area.value.value) + " m\U{00B2}" else "")
    + (if TruthyText(e.floor) then "\nFloor: " + e.floor.value else "")
    + (if TruthyText(e.district) then "\nDistrict: " + e.district.value else "")
  }

  /** The detail lines, then the commercial marker. */
  function MessageDetails(e: ParsedRssItem, show: real -> string): string {
    DetailLines(e, show) + (if IsCommercial(e) then CommercialLine else "")
  }

  /** The closing line: a blank line and the link. */
  function LinkLine(link: string): string {
    "\n\n" + LinkIcon + " " + link
  }

  /**
   * `buildListingMessage(listing)`; `show` renders a float as JavaScript prints it. The
   * message opens with the icon, title and price lines and always closes with the link.
   */
  function BuildListingMessage(e: ParsedRssItem, show: real -> string): (text: string)
    ensures Opening(e) <= text
    ensures |text| >= |LinkLine(e.link)| && text[|text| - |LinkLine(e.link)|..] == LinkLine(e.link)
    ensures text[0] == (if IsCommercial(e) then OfficeIcon[0] else HouseIcon[0])
  {
    var body := PerM2(e, show) + MessageDetails(e, show);
    var text := Opening(e) + body + LinkLine(e.link);
    assert text == Opening(e) + (body + LinkLine(e.link));
    assert text[0] == Opening(e)[0];
    text
  }

  /** A commercial listing's message carries the commercial marker, just before the link. */
  lemma CommercialMarked(e: ParsedRssItem, show: real -> string)
    requires IsCommercial(e)
    ensures var text := BuildListingMessage(e, show);
            var tail := CommercialLine + LinkLine(e.link);
            |text| >= |tail| && text[|text| - |tail|..] == tail
  {
    var tail := CommercialLine + LinkLine(e.link);
    var head := Opening(e) + PerM2(e, show) + DetailLines(e, show);
    assert MessageDetails(e, show) == DetailLines(e, show) + CommercialLine;
    Regroup(Opening(e), PerM2(e, show), DetailLines(e, show), CommercialLine, LinkLine(e.link));
    SuffixOfConcat(head, tail);
  }

  lemma Regroup(a: string, b: string, c: string, d: string, f: string)
    ensures a + (b + (c + d)) + f == (a + b + c) + (d + f)
  {
  }

  lemma SuffixOfConcat(a: string, t: string)
    ensures (a + t)[|a + t| - |t|..] == t
  {
  }

  /** A listing with no optional data gets exactly the header, the price and the link. */
  lemma PlainMessage(e: ParsedRssItem, show: real -> string)
    requires !IsCommercial(e) && !TruthyNum(e.pricePerM2) && !TruthyNum(e.rooms) && !TruthyNum(e.area)
    requires !TruthyText(e.floor) && !TruthyText(e.district)
    ensures BuildListingMessage(e, show)
            == HouseIcon + " New Listing Alert! " + HouseIcon + "\n\nTitle: " + e.title + "\nPrice: "
               + (if e.price != "" then e.price else "Contact for price") + "\n\n" + LinkIcon + " " + e.link
  {
  }

  // ---------------------------------------------------------------- getLastAvailableListing

  /** The `filters` argument; `None` is `undefined`. */
  datatype Filters = Filters(
    category: Option<string>,
    district: Option<string>,
    priceMin: Option<int>,
    priceMax: Option<int>,
    roomsMin: Option<real>,
    roomsMax: Option<real>,
    areaMin: Option<real>,
    areaMax: Option<real>)

  /** A range condition `{ gte, lte }`; an undefined end sets no limit. */
  datatype Range<T> = Range(gte: Option<T>, lte: Option<T>)

  /** The `where` object: equality tests, the always-present `priceValue: { not: null }`, and optional ranges. */
  datatype Where = Where(
    category: Option<string>,
    district: Option<string>,
    price: Option<Range<int>>,
    rooms: Option<Range<real>>,
    area: Option<Range<real>>)

  /** The `where` object `getLastAvailableListing` builds: each block is entered only on a truthy filter, then copies both ends as given. */
  function BuildWhere(f: Filters): Where {
    Where(
      if TruthyText(f.category) then f.category else None,
      if TruthyText(f.district) then f.district else None,
      if TruthyInt(f.priceMin) || TruthyInt(f.priceMax) then Some(Range(f.priceMin, f.priceMax)) else None,
      if TruthyReal(f.roomsMin) || TruthyReal(f.roomsMax) then Some(Range(f.roomsMin, f.roomsMax)) else None,
      if TruthyReal(f.areaMin) || TruthyReal(f.areaMax) then Some(Range(f.areaMin, f.areaMax)) else None)
  }

  /** An integer column against a range in SQL: null fails every comparison. */
  predicate IntInRange(v: Option<int>, r: Range<int>) {
    v.Some? && (r.gte.None? || v.value >= r.gte.value) && (r.lte.None? || v.value <= r.lte.value)
  }

  /**
   * A float column against a range in SQL: null fails every comparison; PostgreSQL orders NaN
   * above every number, so NaN passes a lower limit and fails an upper one.
   */
  predicate NumInRange(v: Option<Num>, r: Range<real>) {
    v.Some?
    && (r.gte.None? || v.value.NaN? || v.value.value >= r.gte.value)
    && (r.lte.None? || (v.value.Finite? && v.value.value <= r.lte.value))
  }

  /** A row satisfies the `where` object. */
  predicate SatisfiesWhere(l: Listing, w: Where) {
    var e := l.entry;
    e.priceValue.Some?
    && (w.category.None? || e.category == w.category.value)
    && (w.district.None? || e.district == w.district)
    && (w.price.None? || IntInRange(e.priceValue, w.price.value))
    && (w.rooms.None? || NumInRange(e.rooms, w.rooms.value))
    && (w.area.None? || NumInRange(e.area, w.area.value))
  }

  /** `findFirst({ where, orderBy: { createdAt: 'desc' } })`: a satisfying row with the latest creation time. */
  function FindLatest(ls: seq<Listing>, w: Where): (r: Option<Listing>)
    ensures r.Some? <==> exists k :: 0 <= k < |ls| && SatisfiesWhere(ls[k], w)
    ensures r.Some? ==> r.value in ls && SatisfiesWhere(r.value, w)
    ensures r.Some? ==> forall k :: 0 <= k < |ls| && SatisfiesWhere(ls[k], w) ==> ls[k].createdAt <= r.value.createdAt
  {
    if ls == [] then None
    else
      var init := ls[..|ls| - 1];
      var last := ls[|ls| - 1];
      var best := FindLatest(init, w);
      assert forall k :: 0 <= k < |init| ==> init[k] == ls[k];
      if !SatisfiesWhere(last, w) then best
      else if best.Some? && best.value.createdAt > last.createdAt then best
      else Some(last)
  }

  /** The subscription's criteria as `getLastAvailableListing` filters. */
  function FiltersOf(s: Subscription): Filters {
    Filters(Some(s.category), s.district, s.priceMin, s.priceMax, s.roomsMin, s.roomsMax, s.areaMin, s.areaMax)
  }

  /** The query is at least as strict as the matcher: a row the query returns for a subscription's criteria matches that subscription. */
  lemma QueryImpliesMatch(l: Listing, s: Subscription)
    requires s.category != ""
    requires SatisfiesWhere(l, BuildWhere(FiltersOf(s)))
    ensures MatchesSubscription(l, s)
  {
  }

  /** But not the converse: a listing without a room count matches a subscription with a room minimum, while the query drops it. */
  lemma MatchDoesNotImplyQuery(l: Listing, s: Subscription)
    requires l.entry.priceValue.Some? && l.entry.rooms.None? && l.entry.category == s.category
    requires s == Subscription(s.id, s.userChatId, s.category, None, None, None, Some(2.0), None, None, None, s.createdAt)
    ensures MatchesSubscription(l, s)
    ensures !SatisfiesWhere(l, BuildWhere(FiltersOf(s)))
  {
  }

  /** Only rows with a price are ever returned. */
  lemma QueryRequiresPrice(ls: seq<Listing>, f: Filters)
    requires FindLatest(ls, BuildWhere(f)).Some?
    ensures FindLatest(ls, BuildWhere(f)).value.entry.priceValue.Some?
  {
  }
}
