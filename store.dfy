/**
 * The database the services share through Prisma, as one object whose fields are the
 * tables: users, subscriptions, listings, the delivery ledger (sentListing) and the
 * failed-listing table. Rows are kept in insertion order.
 */
module Store {
  import opened Wrappers
  import opened Types

  /** Listing ids are the table's primary key. */
  predicate UniqueListingIds(ls: seq<Listing>) {
    forall a, b :: 0 <= a < b < |ls| ==> ls[a].entry.id != ls[b].entry.id
  }

  /** User chat ids are the table's primary key. */
  predicate DistinctUsers(us: seq<string>) {
    forall a, b :: 0 <= a < b < |us| ==> us[a] != us[b]
  }

  /** Subscription ids are handed out in increasing order, below the next free id, and rows are created in time order. */
  predicate SubscriptionTable(ss: seq<Subscription>, next: nat) {
    (forall a, b :: 0 <= a < b < |ss| ==> ss[a].id < ss[b].id && ss[a].createdAt <= ss[b].createdAt)
    && (forall k :: 0 <= k < |ss| ==> ss[k].id < next)
  }

  /** Failure rows were created in time order. */
  predicate InTimeOrder(fs: seq<FailureRecord>) {
    forall a, b :: 0 <= a < b < |fs| ==> fs[a].createdAt <= fs[b].createdAt
  }

  /** Failure ids are row numbers and rows are created in time order. */
  predicate FailureLog(fs: seq<FailureRecord>) {
    (forall k :: 0 <= k < |fs| ==> fs[k].id == k) && InTimeOrder(fs)
  }

  /** `now` is not earlier than any row of the log (the clock does not run backwards). */
  predicate NotBefore(fs: seq<FailureRecord>, now: int) {
    forall k :: 0 <= k < |fs| ==> fs[k].createdAt <= now
  }

  class Db {
    var users: seq<string>
    var subscriptions: seq<Subscription>
    var nextSubscriptionId: nat
    var listings: seq<Listing>
    var sent: set<SentKey>
    var failed: seq<FailureRecord>

    ghost predicate Valid()
      reads this
    {
      DistinctUsers(users)
      && SubscriptionTable(subscriptions, nextSubscriptionId)
      && UniqueListingIds(listings)
      && FailureLog(failed)
    }

    constructor ()
      ensures Valid()
      ensures users == [] && subscriptions == [] && listings == [] && sent == {} && failed == []
    {
      users, subscriptions, nextSubscriptionId := [], [], 0;
      listings, sent, failed := [], {}, [];
    }
  }
}
