/**
 * The stateful side of the polling service: the notify loop over listings and
 * subscriptions (`matchAndNotify`), the scheduled cycle (`pollAndNotify`) and the on-demand
 * lookup (`getLastAvailableListing`). The feed, the chat transport and the float printer are
 * parameters.
 */
module PollingCycle {
  import opened Wrappers
  import opened Numerals
  import opened Types
  import opened Store
  import opened FailedListings
  import opened RssService
  import opened Polling

  /** What became of one delivery: sent and recorded, the send threw, or the send went out but recording it threw. */
  datatype SendOutcome = Delivered | SendFailed(message: string) | RecordFailed(message: string)

  /** The collaborators of a cycle: the feed (items per URL), the store's answer per item, the transport's answer per attempt, and the float printer. */
  datatype Collaborators = Collaborators(
    feed: string -> seq<RssItem>,
    storeError: nat -> Option<string>,
    send: nat -> SendOutcome,
    show: real -> string)

  /** One delivery attempt: the listing, the subscription it matched, the text sent and the outcome. */
  datatype Attempt = Attempt(listingId: string, subscription: Subscription, text: string, outcome: SendOutcome)

  /** The ledger key of an attempt: (owner chat id, listing id). */
  function KeyOf(a: Attempt): SentKey {
    (a.subscription.userChatId, a.listingId)
  }

  /** The state the notify loop works on: the ledger, the failure log and the attempts made so far. */
  datatype Delivery = Delivery(sent: set<SentKey>, failed: seq<FailureRecord>, attempts: seq<Attempt>)

  /** A listing is worth matching only with a price that is set and positive. */
  predicate ValidPrice(l: Listing) {
    l.entry.priceValue.Some? && l.entry.priceValue.value > 0
  }

  /** `${priceValue}` for a nullable integer. */
  function ShowPriceValue(v: Option<int>): string {
    if v.None? then "null" else IntToString(v.value)
  }

  /** The INVALID_DATA report for a listing without a usable price. */
  function InvalidPriceReport(l: Listing): FailureReport {
    FailureReport(Some(l.entry.id), Some(l.entry.title), l.entry.link,
                  "Invalid price value: " + ShowPriceValue(l.entry.priceValue), None, InvalidData,
                  PriceInfo(l.entry.price, l.entry.priceValue))
  }

  /** The NOTIFICATION_ERROR report for a delivery that threw `message`. */
  function SendFailureReport(l: Listing, s: Subscription, message: string): FailureReport {
    FailureReport(Some(l.entry.id), Some(l.entry.title), l.entry.link,
                  "Failed to send notification: " + message, None, NotificationError,
                  RecipientInfo(s.userChatId, s.id))
  }

  /** One iteration of the inner loop: skip a non-matching subscription or a recorded pair, otherwise send and record the outcome. */
  function NotifyStep(d: Delivery, l: Listing, s: Subscription, now: int, send: nat -> SendOutcome, show: real -> string): Delivery {
    var key := (s.userChatId, l.entry.id);
    if !MatchesSubscription(l, s) || key in d.sent then d
    else
      var outcome := send(|d.attempts|);
      var attempts := d.attempts + [Attempt(l.entry.id, s, BuildListingMessage(l.entry, show), outcome)];
      match outcome
      case Delivered => Delivery(d.sent + {key}, d.failed, attempts)
      case SendFailed(m) => Delivery(d.sent, AppendFailure(d.failed, SendFailureReport(l, s, m), now), attempts)
      case RecordFailed(m) => Delivery(d.sent, AppendFailure(d.failed, SendFailureReport(l, s, m), now), attempts)
  }

  /** The inner loop over `subs[from..]`. */
  function NotifySubs(d: Delivery, l: Listing, subs: seq<Subscription>, from: nat, now: int,
                      send: nat -> SendOutcome, show: real -> string): Delivery
    requires from <= |subs|
    decreases |subs| - from
  {
    if from == |subs| then d
    else NotifySubs(NotifyStep(d, l, subs[from], now, send, show), l, subs, from + 1, now, send, show)
  }

  /** One iteration of the outer loop: log a listing without a usable price, otherwise offer it to every subscription. */
  function ProcessListing(d: Delivery, l: Listing, subs: seq<Subscription>, now: int,
                          send: nat -> SendOutcome, show: real -> string): Delivery
  {
    if !ValidPrice(l) then d.(failed := AppendFailure(d.failed, InvalidPriceReport(l), now))
    else NotifySubs(d, l, subs, 0, now, send, show)
  }

  /** The outer loop over `ls[from..]`. */
  function NotifyListings(d: Delivery, ls: seq<Listing>, from: nat, subs: seq<Subscription>, now: int,
                          send: nat -> SendOutcome, show: real -> string): Delivery
    requires from <= |ls|
    decreases |ls| - from
  {
    if from == |ls| then d
    else NotifyListings(ProcessListing(d, ls[from], subs, now, send, show), ls, from + 1, subs, now, send, show)
  }

  /**
   * The body of the inner loop of `matchAndNotify` for one subscription: check the matcher
   * and the ledger, send, and record the pair or log the failure.
   */
  method NotifySubscriber(db: Db, l: Listing, s: Subscription, attempts: seq<Attempt>, now: int,
                          send: nat -> SendOutcome, show: real -> string) returns (attempts': seq<Attempt>)
    requires db.Valid() && NotBefore(db.failed, now)
    modifies db`sent, db`failed
    ensures db.Valid() && NotBefore(db.failed, now)
    ensures Delivery(db.sent, db.failed, attempts') == NotifyStep(Delivery(old(db.sent), old(db.failed), attempts), l, s, now, send, show)
  {
    attempts' := attempts;
    if !MatchesSubscription(l, s) {
      return;
    }
    var key := (s.userChatId, l.entry.id);
    if key in db.sent {
      return;
    }
    var text := BuildListingMessage(l.entry, show);
    var outcome := send(|attempts|);
    attempts' := attempts + [Attempt(l.entry.id, s, text, outcome)];
    match outcome {
      case Delivered =>
        db.sent := db.sent + {key};
      case SendFailed(m) =>
        LogFailedListing(db, SendFailureReport(l, s, m), now);
      case RecordFailed(m) =>
        LogFailedListing(db, SendFailureReport(l, s, m), now);
    }
  }

  /**
   * `matchAndNotify(listings)`: for each listing, log it and move on when its price is not
   * usable, otherwise offer it to every subscription in the table. Returns the delivery
   * attempts made, in order.
   */
  method MatchAndNotify(db: Db, listings: seq<Listing>, now: int, send: nat -> SendOutcome, show: real -> string)
    returns (attempts: seq<Attempt>)
    requires db.Valid() && NotBefore(db.failed, now)
    modifies db`sent, db`failed
    ensures db.Valid() && NotBefore(db.failed, now)
    ensures Delivery(db.sent, db.failed, attempts)
            == NotifyListings(Delivery(old(db.sent), old(db.failed), []), listings, 0, db.subscriptions, now, send, show)
  {
    ghost var start := Delivery(db.sent, db.failed, []);
    attempts := [];
    var i := 0;
    while i < |listings|
      invariant 0 <= i <= |listings|
      invariant db.Valid() && NotBefore(db.failed, now)
      invariant NotifyListings(Delivery(db.sent, db.failed, attempts), listings, i, db.subscriptions, now, send, show)
                == NotifyListings(start, listings, 0, db.subscriptions, now, send, show)
    {
      var listing := listings[i];
      if !ValidPrice(listing) {
        LogFailedListing(db, InvalidPriceReport(listing), now);
      } else {
        ghost var before := Delivery(db.sent, db.failed, attempts);
        var subscriptions := db.subscriptions;
        var j := 0;
        while j < |subscriptions|
          invariant 0 <= j <= |subscriptions|
          invariant db.Valid() && NotBefore(db.failed, now)
          invariant NotifySubs(Delivery(db.sent, db.failed, attempts), listing, subscriptions, j, now, send, show)
                    == NotifySubs(before, listing, subscriptions, 0, now, send, show)
        {
          attempts := NotifySubscriber(db, listing, subscriptions[j], attempts, now, send, show);
          j := j + 1;
        }
      }
      i := i + 1;
    }
  }

  // ---------------------------------------------------------------- properties of the notify loop

  /** The loop only adds: ledger pairs, failure rows and attempts are never removed or changed. */
  lemma StepGrows(d: Delivery, l: Listing, s: Subscription, now: int, send: nat -> SendOutcome, show: real -> string)
    ensures var r := NotifyStep(d, l, s, now, send, show);
            d.sent <= r.sent && d.failed <= r.failed && d.attempts <= r.attempts && |r.attempts| <= |d.attempts| + 1
  {
  }

  lemma {:induction false} SubsGrow(d: Delivery, l: Listing, subs: seq<Subscription>, from: nat, now: int,
                                    send: nat -> SendOutcome, show: real -> string)
    requires from <= |subs|
    ensures var r := NotifySubs(d, l, subs, from, now, send, show);
            d.sent <= r.sent && d.failed <= r.failed && d.attempts <= r.attempts
    decreases |subs| - from
  {
    if from < |subs| {
      StepGrows(d, l, subs[from], now, send, show);
      SubsGrow(NotifyStep(d, l, subs[from], now, send, show), l, subs, from + 1, now, send, show);
    }
  }

  lemma {:induction false} ListingsGrow(d: Delivery, ls: seq<Listing>, from: nat, subs: seq<Subscription>, now: int,
                                        send: nat -> SendOutcome, show: real -> string)
    requires from <= |ls|
    ensures var r := NotifyListings(d, ls, from, subs, now, send, show);
            d.sent <= r.sent && d.failed <= r.failed && d.attempts <= r.attempts
    decreases |ls| - from
  {
    if from < |ls| {
      if ValidPrice(ls[from]) {
        SubsGrow(d, ls[from], subs, 0, now, send, show);
      }
      ListingsGrow(ProcessListing(d, ls[from], subs, now, send, show), ls, from + 1, subs, now, send, show);
    }
  }

  /** The pairs of the attempts that were delivered. */
  function DeliveredKeys(attempts: seq<Attempt>): set<SentKey> {
    set k | 0 <= k < |attempts| && attempts[k].outcome == Delivered :: KeyOf(attempts[k])
  }

  /**
   * At most once: no attempt is for a pair recorded before the loop, and no attempt repeats
   * the pair of an earlier delivered one. So each (user, listing) pair is delivered at most once.
   */
  predicate AtMostOnce(sent0: set<SentKey>, attempts: seq<Attempt>) {
    forall k :: 0 <= k < |attempts| ==>
      KeyOf(attempts[k]) !in sent0
      && forall j :: 0 <= j < k && attempts[j].outcome == Delivered ==> KeyOf(attempts[j]) != KeyOf(attempts[k])
  }

  /** The ledger holds exactly the pairs recorded before plus those delivered, and no pair was attempted twice after delivery. */
  predicate Accounted(sent0: set<SentKey>, d: Delivery) {
    d.sent == sent0 + DeliveredKeys(d.attempts) && AtMostOnce(sent0, d.attempts)
  }

  lemma StepAccounted(sent0: set<SentKey>, d: Delivery, l: Listing, s: Subscription, now: int,
                      send: nat -> SendOutcome, show: real -> string)
    requires Accounted(sent0, d)
    ensures Accounted(sent0, NotifyStep(d, l, s, now, send, show))
  {
    var key := (s.userChatId, l.entry.id);
    if MatchesSubscription(l, s) && key !in d.sent {
      var r := NotifyStep(d, l, s, now, send, show);
      var n := |d.attempts|;
      assert r.attempts[..n] == d.attempts;
      assert KeyOf(r.attempts[n]) == key;
      assert forall k :: 0 <= k < n ==> r.attempts[k] == d.attempts[k];
      assert key !in DeliveredKeys(d.attempts);
      assert DeliveredKeys(r.attempts) == DeliveredKeys(d.attempts) + (if r.attempts[n].outcome == Delivered then {key} else {}) by {
        forall x | x in DeliveredKeys(r.attempts) ensures x in DeliveredKeys(d.attempts) || (x == key && r.attempts[n].outcome == Delivered) {
          var k :| 0 <= k < |r.attempts| && r.attempts[k].outcome == Delivered && KeyOf(r.attempts[k]) == x;
          if k < n {
            assert d.attempts[k] == r.attempts[k];
          }
        }
        forall x | x in DeliveredKeys(d.attempts) ensures x in DeliveredKeys(r.attempts) {
          var k :| 0 <= k < n && d.attempts[k].outcome == Delivered && KeyOf(d.attempts[k]) == x;
          assert r.attempts[k] == d.attempts[k];
        }
      }
      forall k, j | 0 <= j < k < |r.attempts| && r.attempts[j].outcome == Delivered
        ensures KeyOf(r.attempts[j]) != KeyOf(r.attempts[k])
      {
        if k == n {
          assert KeyOf(r.attempts[j]) in DeliveredKeys(d.attempts);
        } else {
          assert r.attempts[k] == d.attempts[k] && r.attempts[j] == d.attempts[j];
        }
      }
    }
  }

  lemma {:induction false} SubsAccounted(sent0: set<SentKey>, d: Delivery, l: Listing, subs: seq<Subscription>, from: nat, now: int,
                                         send: nat -> SendOutcome, show: real -> string)
    requires from <= |subs| && Accounted(sent0, d)
    ensures Accounted(sent0, NotifySubs(d, l, subs, from, now, send, show))
    decreases |subs| - from
  {
    if from < |subs| {
      StepAccounted(sent0, d, l, subs[from], now, send, show);
      SubsAccounted(sent0, NotifyStep(d, l, subs[from], now, send, show), l, subs, from + 1, now, send, show);
    }
  }

  /** The notify loop keeps the ledger accounted for: it gains exactly the delivered pairs, each at most once. */
  lemma {:induction false} ListingsAccounted(sent0: set<SentKey>, d: Delivery, ls: seq<Listing>, from: nat, subs: seq<Subscription>,
                                             now: int, send: nat -> SendOutcome, show: real -> string)
    requires from <= |ls| && Accounted(sent0, d)
    ensures Accounted(sent0, NotifyListings(d, ls, from, subs, now, send, show))
    decreases |ls| - from
  {
    if from < |ls| {
      if ValidPrice(ls[from]) {
        SubsAccounted(sent0, d, ls[from], subs, 0, now, send, show);
      }
      ListingsAccounted(sent0, ProcessListing(d, ls[from], subs, now, send, show), ls, from + 1, subs, now, send, show);
    }
  }

  /** A run of the loop from an empty attempt list: the ledger afterwards is the old one plus the delivered pairs, and no pair is delivered twice. */
  lemma NotifyAtMostOnce(sent: set<SentKey>, failed: seq<FailureRecord>, ls: seq<Listing>, subs: seq<Subscription>,
                         now: int, send: nat -> SendOutcome, show: real -> string)
    ensures var r := NotifyListings(Delivery(sent, failed, []), ls, 0, subs, now, send, show);
            && r.sent == sent + DeliveredKeys(r.attempts)
            && (forall j, k :: 0 <= j < k < |r.attempts| && r.attempts[j].outcome == Delivered ==>
                  KeyOf(r.attempts[j]) != KeyOf(r.attempts[k]))
            && (forall k :: 0 <= k < |r.attempts| ==> KeyOf(r.attempts[k]) !in sent)
  {
    assert DeliveredKeys([]) == {};
    ListingsAccounted(sent, Delivery(sent, failed, []), ls, 0, subs, now, send, show);
  }

  /** Number of attempts that did not end in a recorded delivery. */
  function CountUndelivered(attempts: seq<Attempt>): (n: nat)
    ensures n <= |attempts|
  {
    if attempts == [] then 0
    else CountUndelivered(attempts[..|attempts| - 1]) + (if attempts[|attempts| - 1].outcome == Delivered then 0 else 1)
  }

  /** Number of listings of `ls[from..]` the loop rejects for their price. */
  function CountInvalidPrice(ls: seq<Listing>, from: nat): (n: nat)
    requires from <= |ls|
    ensures n <= |ls| - from
    decreases |ls| - from
  {
    if from == |ls| then 0
    else (if ValidPrice(ls[from]) then 0 else 1) + CountInvalidPrice(ls, from + 1)
  }

  lemma StepCounts(d: Delivery, l: Listing, s: Subscription, now: int, send: nat -> SendOutcome, show: real -> string)
    ensures var r := NotifyStep(d, l, s, now, send, show);
            && CountKind(r.failed, NotificationError) + CountUndelivered(d.attempts)
               == CountKind(d.failed, NotificationError) + CountUndelivered(r.attempts)
            && CountKind(r.failed, InvalidData) == CountKind(d.failed, InvalidData)
            && CountKind(r.failed, ParsingError) == CountKind(d.failed, ParsingError)
  {
    var r := NotifyStep(d, l, s, now, send, show);
    if r != d {
      assert r.attempts[..|r.attempts| - 1] == d.attempts;
      var outcome := send(|d.attempts|);
      if !outcome.Delivered? {
        var report := SendFailureReport(l, s, outcome.message);
        AppendCounts(d.failed, report, now, NotificationError);
        AppendCounts(d.failed, report, now, InvalidData);
        AppendCounts(d.failed, report, now, ParsingError);
      }
    }
  }

  lemma {:induction false} SubsCounts(d: Delivery, l: Listing, subs: seq<Subscription>, from: nat, now: int,
                                      send: nat -> SendOutcome, show: real -> string)
    requires from <= |subs|
    ensures var r := NotifySubs(d, l, subs, from, now, send, show);
            && CountKind(r.failed, NotificationError) + CountUndelivered(d.attempts)
               == CountKind(d.failed, NotificationError) + CountUndelivered(r.attempts)
            && CountKind(r.failed, InvalidData) == CountKind(d.failed, InvalidData)
            && CountKind(r.failed, ParsingError) == CountKind(d.failed, ParsingError)
    decreases |subs| - from
  {
    if from < |subs| {
      StepCounts(d, l, subs[from], now, send, show);
      SubsCounts(NotifyStep(d, l, subs[from], now, send, show), l, subs, from + 1, now, send, show);
    }
  }

  /**
   * The failure log gains one INVALID_DATA row per listing without a usable price and one
   * NOTIFICATION_ERROR row per attempt that did not end in a recorded delivery; no PARSING_ERROR rows.
   */
  lemma {:induction false} ListingsCounts(d: Delivery, ls: seq<Listing>, from: nat, subs: seq<Subscription>, now: int,
                                          send: nat -> SendOutcome, show: real -> string)
    requires from <= |ls|
    ensures var r := NotifyListings(d, ls, from, subs, now, send, show);
            && CountKind(r.failed, NotificationError) + CountUndelivered(d.attempts)
               == CountKind(d.failed, NotificationError) + CountUndelivered(r.attempts)
            && CountKind(r.failed, InvalidData) == CountKind(d.failed, InvalidData) + CountInvalidPrice(ls, from)
            && CountKind(r.failed, ParsingError) == CountKind(d.failed, ParsingError)
    decreases |ls| - from
  {
    if from < |ls| {
      var l := ls[from];
      if ValidPrice(l) {
        SubsCounts(d, l, subs, 0, now, send, show);
      } else {
        AppendCounts(d.failed, InvalidPriceReport(l), now, NotificationError);
        AppendCounts(d.failed, InvalidPriceReport(l), now, InvalidData);
        AppendCounts(d.failed, InvalidPriceReport(l), now, ParsingError);
      }
      ListingsCounts(ProcessListing(d, l, subs, now, send, show), ls, from + 1, subs, now, send, show);
    }
  }

  /** The pair of `l` and `s` is in the ledger, or an attempt for it failed. */
  predicate Covered(d: Delivery, l: Listing, s: Subscription) {
    (s.userChatId, l.entry.id) in d.sent
    || exists k :: 0 <= k < |d.attempts| && KeyOf(d.attempts[k]) == (s.userChatId, l.entry.id) && d.attempts[k].outcome != Delivered
  }

  lemma CoveredStays(d: Delivery, r: Delivery, l: Listing, s: Subscription)
    requires Covered(d, l, s) && d.sent <= r.sent && d.attempts <= r.attempts
    ensures Covered(r, l, s)
  {
    if (s.userChatId, l.entry.id) !in d.sent {
      var k :| 0 <= k < |d.attempts| && KeyOf(d.attempts[k]) == (s.userChatId, l.entry.id) && d.attempts[k].outcome != Delivered;
      assert r.attempts[k] == d.attempts[k];
    }
  }

  lemma {:induction false} SubsCover(d: Delivery, l: Listing, subs: seq<Subscription>, from: nat, now: int,
                                     send: nat -> SendOutcome, show: real -> string)
    requires from <= |subs|
    ensures var r := NotifySubs(d, l, subs, from, now, send, show);
            forall j :: from <= j < |subs| && MatchesSubscription(l, subs[j]) ==> Covered(r, l, subs[j])
    decreases |subs| - from
  {
    if from < |subs| {
      var s := subs[from];
      var d1 := NotifyStep(d, l, s, now, send, show);
      var r := NotifySubs(d1, l, subs, from + 1, now, send, show);
      SubsCover(d1, l, subs, from + 1, now, send, show);
      if MatchesSubscription(l, s) {
        if (s.userChatId, l.entry.id) !in d.sent {
          assert d1.attempts[|d.attempts|].outcome == send(|d.attempts|);
          assert KeyOf(d1.attempts[|d.attempts|]) == (s.userChatId, l.entry.id);
        }
        assert Covered(d1, l, s);
        SubsGrow(d1, l, subs, from + 1, now, send, show);
        CoveredStays(d1, r, l, s);
      }
    }
  }

  /** Coverage: every pair of a listing with a usable price and a subscription it matches ends in the ledger or with a failed attempt. */
  lemma {:induction false} ListingsCover(d: Delivery, ls: seq<Listing>, from: nat, subs: seq<Subscription>, now: int,
                                         send: nat -> SendOutcome, show: real -> string)
    requires from <= |ls|
    ensures var r := NotifyListings(d, ls, from, subs, now, send, show);
            forall i, j :: from <= i < |ls| && 0 <= j < |subs| && ValidPrice(ls[i]) && MatchesSubscription(ls[i], subs[j]) ==>
              Covered(r, ls[i], subs[j])
    decreases |ls| - from
  {
    if from < |ls| {
      var l := ls[from];
      var d1 := ProcessListing(d, l, subs, now, send, show);
      var r := NotifyListings(d1, ls, from + 1, subs, now, send, show);
      ListingsCover(d1, ls, from + 1, subs, now, send, show);
      if ValidPrice(l) {
        SubsCover(d, l, subs, 0, now, send, show);
        ListingsGrow(d1, ls, from + 1, subs, now, send, show);
        forall j | 0 <= j < |subs| && MatchesSubscription(l, subs[j]) ensures Covered(r, l, subs[j]) {
          CoveredStays(d1, r, l, subs[j]);
        }
      }
    }
  }

  /** A pair already in the ledger is never attempted again. */
  predicate AllRecorded(sent: set<SentKey>, ls: seq<Listing>, from: nat, subs: seq<Subscription>)
    requires from <= |ls|
  {
    forall i, j :: from <= i < |ls| && 0 <= j < |subs| && ValidPrice(ls[i]) && MatchesSubscription(ls[i], subs[j]) ==>
      (subs[j].userChatId, ls[i].entry.id) in sent
  }

  lemma {:induction false} SubsSkipRecorded(d: Delivery, l: Listing, subs: seq<Subscription>, from: nat, now: int,
                                            send: nat -> SendOutcome, show: real -> string)
    requires from <= |subs|
    requires forall j :: from <= j < |subs| && MatchesSubscription(l, subs[j]) ==> (subs[j].userChatId, l.entry.id) in d.sent
    ensures NotifySubs(d, l, subs, from, now, send, show) == d
    decreases |subs| - from
  {
    if from < |subs| {
      SubsSkipRecorded(d, l, subs, from + 1, now, send, show);
    }
  }

  /** Re-running over listings whose matching pairs are all in the ledger sends nothing and changes no ledger pair. */
  lemma {:induction false} ListingsSkipRecorded(d: Delivery, ls: seq<Listing>, from: nat, subs: seq<Subscription>, now: int,
                                                send: nat -> SendOutcome, show: real -> string)
    requires from <= |ls| && AllRecorded(d.sent, ls, from, subs)
    ensures var r := NotifyListings(d, ls, from, subs, now, send, show);
            r.attempts == d.attempts && r.sent == d.sent
    decreases |ls| - from
  {
    if from < |ls| {
      var l := ls[from];
      if ValidPrice(l) {
        SubsSkipRecorded(d, l, subs, 0, now, send, show);
      }
      ListingsSkipRecorded(ProcessListing(d, l, subs, now, send, show), ls, from + 1, subs, now, send, show);
    }
  }

  /**
   * Re-running the loop over the same listings after a run in which every attempt was delivered
   * sends nothing at all: the second run makes no attempt and leaves the ledger as it is.
   */
  lemma SecondRunSendsNothing(sent: set<SentKey>, failed: seq<FailureRecord>, ls: seq<Listing>, subs: seq<Subscription>,
                              now: int, now2: int, send: nat -> SendOutcome, send2: nat -> SendOutcome, show: real -> string)
    requires var r := NotifyListings(Delivery(sent, failed, []), ls, 0, subs, now, send, show);
             forall k :: 0 <= k < |r.attempts| ==> r.attempts[k].outcome == Delivered
    ensures var r := NotifyListings(Delivery(sent, failed, []), ls, 0, subs, now, send, show);
            var r2 := NotifyListings(Delivery(r.sent, r.failed, []), ls, 0, subs, now2, send2, show);
            r2.attempts == [] && r2.sent == r.sent
  {
    var r := NotifyListings(Delivery(sent, failed, []), ls, 0, subs, now, send, show);
    ListingsCover(Delivery(sent, failed, []), ls, 0, subs, now, send, show);
    ListingsSkipRecorded(Delivery(r.sent, r.failed, []), ls, 0, subs, now2, send2, show);
  }

  /** The attempt sends listing `l`'s message to subscription `s`, which it matches. */
  predicate AttemptFor(a: Attempt, l: Listing, s: Subscription, show: real -> string) {
    ValidPrice(l) && MatchesSubscription(l, s) && a.listingId == l.entry.id && a.subscription == s
    && a.text == BuildListingMessage(l.entry, show)
  }

  lemma {:induction false} SubsSound(d: Delivery, l: Listing, subs: seq<Subscription>, from: nat, now: int,
                                     send: nat -> SendOutcome, show: real -> string)
    requires from <= |subs| && ValidPrice(l)
    ensures var r := NotifySubs(d, l, subs, from, now, send, show);
            && d.attempts <= r.attempts
            && forall k :: |d.attempts| <= k < |r.attempts| ==> exists j :: from <= j < |subs| && AttemptFor(r.attempts[k], l, subs[j], show)
    decreases |subs| - from
  {
    if from < |subs| {
      var d1 := NotifyStep(d, l, subs[from], now, send, show);
      var r := NotifySubs(d1, l, subs, from + 1, now, send, show);
      SubsSound(d1, l, subs, from + 1, now, send, show);
      if d1 != d {
        assert AttemptFor(d1.attempts[|d.attempts|], l, subs[from], show);
        assert r.attempts[|d.attempts|] == d1.attempts[|d.attempts|];
      }
    }
  }

  /** Soundness: every attempt offers a listing with a usable price to a subscription it matches, with that listing's message. */
  lemma {:induction false} ListingsSound(d: Delivery, ls: seq<Listing>, from: nat, subs: seq<Subscription>, now: int,
                                         send: nat -> SendOutcome, show: real -> string)
    requires from <= |ls|
    ensures var r := NotifyListings(d, ls, from, subs, now, send, show);
            && d.attempts <= r.attempts
            && forall k :: |d.attempts| <= k < |r.attempts| ==>
                 exists i, j :: from <= i < |ls| && 0 <= j < |subs| && AttemptFor(r.attempts[k], ls[i], subs[j], show)
    decreases |ls| - from
  {
    if from < |ls| {
      var l := ls[from];
      var d1 := ProcessListing(d, l, subs, now, send, show);
      var r := NotifyListings(d1, ls, from + 1, subs, now, send, show);
      ListingsSound(d1, ls, from + 1, subs, now, send, show);
      if ValidPrice(l) {
        SubsSound(d, l, subs, 0, now, send, show);
        forall k | |d.attempts| <= k < |d1.attempts|
          ensures exists i, j :: from <= i < |ls| && 0 <= j < |subs| && AttemptFor(r.attempts[k], ls[i], subs[j], show)
        {
          assert r.attempts[k] == d1.attempts[k];
          var j :| 0 <= j < |subs| && AttemptFor(d1.attempts[k], l, subs[j], show);
        }
      }
    }
  }

  // ---------------------------------------------------------------- pollAndNotify

  /** The trailing window of the cycle: ten minutes, in milliseconds. */
  const WindowMillis: int := 10 * 60 * 1000

  /** `findMany({ where: { createdAt: { gte: now - 10 minutes } } })`, in table order. */
  function RecentListings(ls: seq<Listing>, now: int): (r: seq<Listing>)
    ensures forall x :: x in r <==> x in ls && x.createdAt >= now - WindowMillis
    ensures |r| <= |ls| && multiset(r) <= multiset(ls)
  {
    if ls == [] then []
    else
      assert ls == [ls[0]] + ls[1..];
      assert multiset(ls) == multiset([ls[0]]) + multiset(ls[1..]);
      (if ls[0].createdAt >= now - WindowMillis then [ls[0]] else []) + RecentListings(ls[1..], now)
  }

  /** Every listing a poll stores is inside the ten-minute window, so the notify loop of the same poll offers it. */
  lemma StoredListingsAreRecent(listings: seq<Listing>, failed: seq<FailureRecord>, items: seq<RssItem>, now: nat,
                                storeError: nat -> Option<string>)
    requires UniqueListingIds(listings)
    ensures var g := IngestFrom(Ingestion(listings, failed, 0), items, 0, now, storeError);
            forall k :: |listings| <= k < |g.listings| ==> g.listings[k] in RecentListings(g.listings, now)
  {
    IngestAddsParsedItems(Ingestion(listings, failed, 0), items, 0, now, storeError);
  }

  /**
   * `pollAndNotify()` at time `now`: fetch the feed; with no items stop; otherwise store them,
   * then run the notify loop over the listings created in the last ten minutes.
   */
  method PollAndNotify(db: Db, now: nat, c: Collaborators) returns (attempts: seq<Attempt>)
    requires db.Valid() && NotBefore(db.failed, now)
    modifies db`listings, db`failed, db`sent
    ensures db.Valid() && NotBefore(db.failed, now)
    ensures |c.feed(RssFeedUrl)| == 0 ==>
              attempts == [] && db.listings == old(db.listings) && db.failed == old(db.failed) && db.sent == old(db.sent)
    ensures |c.feed(RssFeedUrl)| > 0 ==>
              var ingested := IngestFrom(Ingestion(old(db.listings), old(db.failed), 0), c.feed(RssFeedUrl), 0, now, c.storeError);
              && db.listings == ingested.listings
              && Delivery(db.sent, db.failed, attempts)
                 == NotifyListings(Delivery(old(db.sent), ingested.failed, []), RecentListings(ingested.listings, now), 0,
                                   db.subscriptions, now, c.send, c.show)
  {
    var items := c.feed(RssFeedUrl);
    if |items| == 0 {
      return [];
    }
    var storedCount := StoreListings(db, items, now, c.storeError);
    var recentListings := RecentListings(db.listings, now);
    attempts := MatchAndNotify(db, recentListings, now, c.send, c.show);
  }

  // ---------------------------------------------------------------- getLastAvailableListing

  /** The feed `getLastAvailableListing` reads: the district feed with the price and room bounds when a district is given, else the default feed. */
  function FeedUrlFor(f: Filters, show: real -> string): (url: string)
    ensures TruthyText(f.district) ==> RssBaseUrl + f.district.value + "/rss/" <= url
    ensures TruthyText(f.district) ==> url == DistrictFeedUrl(f.district.value, f.priceMin, f.priceMax, f.roomsMin, f.roomsMax, show)
    ensures !TruthyText(f.district) ==> url == RssFeedUrl
  {
    if TruthyText(f.district) then DistrictFeedUrl(f.district.value, f.priceMin, f.priceMax, f.roomsMin, f.roomsMax, show)
    else RssFeedUrl
  }

  /**
   * `getLastAvailableListing(filters)` at time `now`: fetch the feed for the filters, store
   * what it returned, then query the table. Returns the URL fetched and the listing found.
   */
  method GetLastAvailableListing(db: Db, f: Filters, now: nat, c: Collaborators) returns (url: string, r: Option<Listing>)
    requires db.Valid() && NotBefore(db.failed, now)
    modifies db`listings, db`failed
    ensures db.Valid() && NotBefore(db.failed, now)
    ensures url == FeedUrlFor(f, c.show)
    ensures var ingested := IngestFrom(Ingestion(old(db.listings), old(db.failed), 0), c.feed(url), 0, now, c.storeError);
            db.listings == ingested.listings && db.failed == ingested.failed
    ensures r == FindLatest(db.listings, BuildWhere(f))
  {
    url := FeedUrlFor(f, c.show);
    var rssItems := c.feed(url);
    if |rssItems| > 0 {
      var storedCount := StoreListings(db, rssItems, now, c.storeError);
    }
    r := FindLatest(db.listings, BuildWhere(f));
  }
}
