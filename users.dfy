/** The user and subscription store (`UserService`) over the shared database object. */
module UserService {
  import opened Wrappers
  import opened Types
  import opened Store
  import opened Text

  // ---------------------------------------------------------------- ensureUser

  /** The user table after `ensureUser(chatId)`: unchanged when the user exists, otherwise with the user appended. */
  function Registered(users: seq<string>, chatId: string): (r: seq<string>)
    ensures chatId in r && forall u :: u in users ==> u in r
    ensures forall u :: u in r ==> u in users || u == chatId
  {
    if chatId in users then users else users + [chatId]
  }

  /** Registering keeps chat ids unique, and afterwards the user is there exactly once. */
  lemma RegisteredOnce(users: seq<string>, chatId: string)
    requires DistinctUsers(users)
    ensures DistinctUsers(Registered(users, chatId))
    ensures multiset(Registered(users, chatId))[chatId] == 1
  {
    var r := Registered(users, chatId);
    DistinctCountsOne(r, chatId);
  }

  lemma {:induction false} DistinctCountsOne(us: seq<string>, u: string)
    requires DistinctUsers(us) && u in us
    ensures multiset(us)[u] == 1
  {
    var n := |us| - 1;
    assert us == us[..n] + [us[n]];
    assert DistinctUsers(us[..n]);
    if us[n] == u {
      assert u !in us[..n];
    } else {
      DistinctCountsOne(us[..n], u);
    }
  }

  /** Calling `ensureUser` twice is the same as calling it once. */
  lemma RegisteredIdempotent(users: seq<string>, chatId: string)
    ensures Registered(Registered(users, chatId), chatId) == Registered(users, chatId)
  {
  }

  /** `ensureUser(chatId)`: look the user up and create it when it is missing. */
  method EnsureUser(db: Db, chatId: string)
    requires db.Valid()
    modifies db`users
    ensures db.Valid()
    ensures db.users == Registered(old(db.users), chatId)
  {
    if chatId !in db.users {
      db.users := db.users + [chatId];
    }
    RegisteredOnce(old(db.users), chatId);
  }

  // ---------------------------------------------------------------- createSubscription

  /** The `Partial<SubscriptionDto>` argument; `None` is a missing field. */
  datatype SubscriptionDto = SubscriptionDto(
    category: Option<string>,
    district: Option<string>,
    priceMin: Option<int>,
    priceMax: Option<int>,
    roomsMin: Option<real>,
    roomsMax: Option<real>,
    areaMin: Option<real>,
    areaMax: Option<real>)

  const DefaultCategory := "flats"

  /** The row `createSubscription` inserts, with the id and creation time the database assigns. */
  function NewSubscription(id: nat, chatId: string, dto: SubscriptionDto, now: int): (s: Subscription)
    ensures s.id == id && s.userChatId == chatId && s.createdAt == now
    ensures s.category == if dto.category.Some? && dto.category.value != "" then dto.category.value else DefaultCategory
    ensures s.category != ""
    ensures s.district == dto.district && s.priceMin == dto.priceMin && s.priceMax == dto.priceMax
    ensures s.roomsMin == dto.roomsMin && s.roomsMax == dto.roomsMax && s.areaMin == dto.areaMin && s.areaMax == dto.areaMax
  {
    Subscription(id, chatId, if TruthyText(dto.category) then dto.category.value else DefaultCategory,
                 dto.district, dto.priceMin, dto.priceMax, dto.roomsMin, dto.roomsMax, dto.areaMin, dto.areaMax, now)
  }

  /** The clock does not run backwards: `now` is not before any subscription's creation. */
  predicate NotBeforeAny(ss: seq<Subscription>, now: int) {
    forall k :: 0 <= k < |ss| ==> ss[k].createdAt <= now
  }

  /** `createSubscription(chatId, dto)` at time `now`: insert the row and return it. */
  method CreateSubscription(db: Db, chatId: string, dto: SubscriptionDto, now: int) returns (s: Subscription)
    requires db.Valid() && NotBeforeAny(db.subscriptions, now)
    modifies db`subscriptions, db`nextSubscriptionId
    ensures db.Valid()
    ensures s == NewSubscription(old(db.nextSubscriptionId), chatId, dto, now)
    ensures db.subscriptions == old(db.subscriptions) + [s]
    ensures db.nextSubscriptionId == old(db.nextSubscriptionId) + 1
  {
    s := NewSubscription(db.nextSubscriptionId, chatId, dto, now);
    db.subscriptions := db.subscriptions + [s];
    db.nextSubscriptionId := db.nextSubscriptionId + 1;
  }

  // ---------------------------------------------------------------- getSubscriptions

  /** `getSubscriptions(chatId)`: the subscriptions that chat owns, newest first (rows of equal time in reverse insertion order). */
  function GetSubscriptions(ss: seq<Subscription>, chatId: string): (out: seq<Subscription>)
    ensures forall x :: x in out <==> x in ss && x.userChatId == chatId
    ensures |out| <= |ss|
  {
    if ss == [] then []
    else
      var init := ss[..|ss| - 1];
      var last := ss[|ss| - 1];
      assert ss == init + [last];
      var rest := GetSubscriptions(init, chatId);
      if last.userChatId == chatId then [last] + rest else rest
  }

  /** Ordered by creation time, newest first, and by id among them. */
  predicate NewestFirst(out: seq<Subscription>) {
    forall a, b :: 0 <= a < b < |out| ==> out[a].createdAt >= out[b].createdAt && out[a].id > out[b].id
  }

  /** In a well-formed table the result is ordered newest first. */
  lemma {:induction false} GetSubscriptionsNewestFirst(ss: seq<Subscription>, next: nat, chatId: string)
    requires SubscriptionTable(ss, next)
    ensures NewestFirst(GetSubscriptions(ss, chatId))
  {
    if ss != [] {
      var init := ss[..|ss| - 1];
      var last := ss[|ss| - 1];
      assert SubscriptionTable(init, next);
      GetSubscriptionsNewestFirst(init, next, chatId);
      var rest := GetSubscriptions(init, chatId);
      forall x | x in rest ensures x.createdAt <= last.createdAt && x.id < last.id {
        var k :| 0 <= k < |init| && init[k] == x;
        assert ss[k] == x;
      }
      if last.userChatId == chatId {
        ConsNewestFirst(last, rest);
      }
    }
  }

  lemma ConsNewestFirst(x: Subscription, rest: seq<Subscription>)
    requires NewestFirst(rest)
    requires forall y :: y in rest ==> y.createdAt <= x.createdAt && y.id < x.id
    ensures NewestFirst([x] + rest)
  {
    var out := [x] + rest;
    forall a, b | 0 <= a < b < |out| ensures out[a].createdAt >= out[b].createdAt && out[a].id > out[b].id {
      assert out[b] == rest[b - 1];
      if a > 0 {
        assert out[a] == rest[a - 1];
      } else {
        assert rest[b - 1] in rest;
      }
    }
  }

  /** A subscription just created is the first one `getSubscriptions` lists for its owner. */
  lemma CreatedComesFirst(ss: seq<Subscription>, s: Subscription)
    ensures GetSubscriptions(ss + [s], s.userChatId)[0] == s
    ensures GetSubscriptions(ss + [s], s.userChatId)[1..] == GetSubscriptions(ss, s.userChatId)
  {
    assert (ss + [s])[..|ss|] == ss;
  }

  // ---------------------------------------------------------------- removeSubscription

  const NotOwnedMessage := "Subscription not found or does not belong to the user"

  /** The subscription exists and belongs to the chat. */
  predicate Owns(ss: seq<Subscription>, chatId: string, id: nat) {
    exists k :: 0 <= k < |ss| && ss[k].id == id && ss[k].userChatId == chatId
  }

  /** The table with the row of that id deleted. */
  function Without(ss: seq<Subscription>, id: nat): seq<Subscription>
  {
    if ss == [] then []
    else (if ss[0].id == id then [] else [ss[0]]) + Without(ss[1..], id)
  }

  /** The delete keeps exactly the rows with another id. */
  lemma {:induction false} WithoutMembers(ss: seq<Subscription>, id: nat)
    ensures forall x :: x in Without(ss, id) <==> x in ss && x.id != id
    ensures |Without(ss, id)| <= |ss|
  {
    if ss != [] {
      WithoutMembers(ss[1..], id);
      assert ss == [ss[0]] + ss[1..];
    }
  }

  /** Deleting by id removes exactly one row of a well-formed table that has it, and keeps the table well formed. */
  lemma WithoutRemovesOne(ss: seq<Subscription>, next: nat, k: nat)
    requires SubscriptionTable(ss, next) && k < |ss|
    ensures Without(ss, ss[k].id) == ss[..k] + ss[k + 1..]
    ensures SubscriptionTable(Without(ss, ss[k].id), next)
  {
    assert forall j :: 0 <= j < |ss| && j != k ==> ss[j].id != ss[k].id;
    WithoutAt(ss, k);
    DropKeepsTable(ss, next, k);
  }

  lemma WithoutAt(ss: seq<Subscription>, k: nat)
    requires k < |ss| && forall j :: 0 <= j < |ss| && j != k ==> ss[j].id != ss[k].id
    ensures Without(ss, ss[k].id) == ss[..k] + ss[k + 1..]
  {
    var a, b := SplitAround(ss, k);
    WithoutSplit(ss, a, ss[k], b);
  }

  /** The rows before and after row `k`, which all have other ids. */
  lemma SplitAround(ss: seq<Subscription>, k: nat) returns (a: seq<Subscription>, b: seq<Subscription>)
    requires k < |ss| && forall j :: 0 <= j < |ss| && j != k ==> ss[j].id != ss[k].id
    ensures a == ss[..k] && b == ss[k + 1..]
    ensures ss == (a + [ss[k]]) + b
    ensures forall j :: 0 <= j < |a| ==> a[j].id != ss[k].id
    ensures forall j :: 0 <= j < |b| ==> b[j].id != ss[k].id
  {
    a, b := ss[..k], ss[k + 1..];
    forall j | 0 <= j < |b| ensures b[j].id != ss[k].id {
      assert b[j] == ss[k + 1 + j];
    }
  }

  /** Deleting the id of the one row in the middle leaves the rows around it. */
  lemma WithoutSplit(ss: seq<Subscription>, a: seq<Subscription>, x: Subscription, b: seq<Subscription>)
    requires ss == (a + [x]) + b
    requires forall j :: 0 <= j < |a| ==> a[j].id != x.id
    requires forall j :: 0 <= j < |b| ==> b[j].id != x.id
    ensures Without(ss, x.id) == a + b
  {
    assert Without(a + [x], x.id) == a by {
      assert Without([x], x.id) == [];
      WithoutAbsent(a, x.id);
      WithoutConcat(a, [x], x.id);
      assert a + [] == a;
    }
    assert Without(b, x.id) == b by {
      WithoutAbsent(b, x.id);
    }
    WithoutConcat(a + [x], b, x.id);
  }

  /** Deleting distributes over concatenation. */
  lemma {:induction false} WithoutConcat(a: seq<Subscription>, b: seq<Subscription>, id: nat)
    ensures Without(a + b, id) == Without(a, id) + Without(b, id)
  {
    if a == [] {
      assert a + b == b;
    } else {
      var head := if a[0].id == id then [] else [a[0]];
      assert Without(a + b, id) == head + Without(a[1..] + b, id) by {
        assert (a + b)[1..] == a[1..] + b;
        assert (a + b)[0] == a[0];
      }
      WithoutConcat(a[1..], b, id);
      Reassociate(head, Without(a[1..], id), Without(b, id));
    }
  }

  lemma DropKeepsTable(ss: seq<Subscription>, next: nat, k: nat)
    requires SubscriptionTable(ss, next) && k < |ss|
    ensures SubscriptionTable(ss[..k] + ss[k + 1..], next)
  {
    var r := ss[..k] + ss[k + 1..];
    assert forall a :: 0 <= a < |r| ==> r[a] == ss[if a < k then a else a + 1];
  }

  lemma {:induction false} WithoutAbsent(ss: seq<Subscription>, id: nat)
    requires forall k :: 0 <= k < |ss| ==> ss[k].id != id
    ensures Without(ss, id) == ss
  {
    if ss != [] {
      WithoutAbsent(ss[1..], id);
    }
  }

  /**
   * `removeSubscription(chatId, id)`: look for the subscription with that id owned by that
   * chat; fail without changing anything if there is none, otherwise delete it.
   */
  method RemoveSubscription(db: Db, chatId: string, id: nat) returns (r: Outcome<string>)
    requires db.Valid()
    modifies db`subscriptions
    ensures db.Valid()
    ensures r.Pass? <==> Owns(old(db.subscriptions), chatId, id)
    ensures r.Fail? ==> r.error == NotOwnedMessage && db.subscriptions == old(db.subscriptions)
    ensures r.Pass? ==> db.subscriptions == Without(old(db.subscriptions), id)
  {
    var k := 0;
    while k < |db.subscriptions| && !(db.subscriptions[k].id == id && db.subscriptions[k].userChatId == chatId)
      invariant 0 <= k <= |db.subscriptions|
      invariant forall j :: 0 <= j < k ==> !(db.subscriptions[j].id == id && db.subscriptions[j].userChatId == chatId)
    {
      k := k + 1;
    }
    if k == |db.subscriptions| {
      return Fail(NotOwnedMessage);
    }
    WithoutRemovesOne(db.subscriptions, db.nextSubscriptionId, k);
    db.subscriptions := db.subscriptions[..k] + db.subscriptions[k + 1..];
    r := Pass;
  }
}
