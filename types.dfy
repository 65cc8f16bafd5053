/**
 * Records of the notifier: the feed item as xml2js delivers it, the parsed listing
 * (backend/src/types/rss.types.ts), the stored rows (Listing, Subscription, FailedListing)
 * and the truthiness tests the services apply to optional fields.
 */
module Types {
  import opened Wrappers
  import opened Numerals

  /** A value xml2js produced for an element: its text, or a non-string node (an element that carried attributes). */
  datatype FeedValue = Text(text: string) | Node(content: string)

  /** One `<item>` of the feed: each field an optional array of values. */
  datatype RssItem = RssItem(
    link: Option<seq<FeedValue>>,
    title: Option<seq<string>>,
    description: Option<seq<FeedValue>>,
    pubDate: Option<seq<string>>)

  /** The publish date: the feed's date text, or the parse time when the feed gave none. */
  datatype PubDate = Published(text: string) | ParsedAt(time: int)

  /** ParsedRssItem; `None` is `undefined`. */
  datatype ParsedRssItem = ParsedRssItem(
    id: string,
    title: string,
    price: string,
    priceValue: Option<int>,
    pricePerM2: Option<Num>,
    district: Option<string>,
    rooms: Option<Num>,
    area: Option<Num>,
    floor: Option<string>,
    category: string,
    link: string,
    pubDate: PubDate)

  /** A row of the listing table: the parsed item plus its ingestion time in milliseconds; `None` is SQL null. */
  datatype Listing = Listing(entry: ParsedRssItem, createdAt: int)

  /** A row of the subscription table. */
  datatype Subscription = Subscription(
    id: nat,
    userChatId: string,
    category: string,
    district: Option<string>,
    priceMin: Option<int>,
    priceMax: Option<int>,
    roomsMin: Option<real>,
    roomsMax: Option<real>,
    areaMin: Option<real>,
    areaMax: Option<real>,
    createdAt: int)

  datatype FailureKind = ParsingError | InvalidData | NotificationError

  /** The structured `additionalInfo` each caller attaches to a failure. */
  datatype FailureInfo =
    | NoInfo
    | ParsedInfo(parsed: ParsedRssItem)
    | PriceInfo(price: string, priceValue: Option<int>)
    | RecipientInfo(userChatId: string, subscriptionId: nat)

  /** The argument of `logFailedListing`; the raw data snapshot is kept as the item itself. */
  datatype FailureReport = FailureReport(
    listingId: Option<string>,
    title: Option<string>,
    link: string,
    error: string,
    rawData: Option<RssItem>,
    failureType: FailureKind,
    additionalInfo: FailureInfo)

  /** A row of the failed-listing table. */
  datatype FailureRecord = FailureRecord(
    id: nat,
    report: FailureReport,
    resolved: bool,
    resolvedAt: Option<int>,
    createdAt: int)

  /** A row of the delivery ledger: (userChatId, listingId). */
  type SentKey = (string, string)

  /** JavaScript truthiness of an optional number: defined, not NaN and not 0. */
  predicate TruthyNum(x: Option<Num>) { x.Some? && x.value.Finite? && x.value.value != 0.0 }

  predicate TruthyReal(x: Option<real>) { x.Some? && x.value != 0.0 }

  predicate TruthyInt(x: Option<int>) { x.Some? && x.value != 0 }

  /** JavaScript truthiness of an optional string: defined and not empty. */
  predicate TruthyText(x: Option<string>) { x.Some? && x.value != "" }
}
