/**
 * FailedListingService: the failure sink. Records are appended by every pipeline stage,
 * listed newest first with filters, marked resolved one at a time and counted.
 */
module FailedListings {
  import opened Wrappers
  import opened Types
  import opened Store

  /** The row `logFailedListing` creates: a fresh id, unresolved, stamped with `now`. */
  function AppendFailure(fs: seq<FailureRecord>, report: FailureReport, now: int): (r: seq<FailureRecord>)
  {
    fs + [FailureRecord(|fs|, report, false, None, now)]
  }

  /** Appending keeps ids equal to row numbers and rows in time order. */
  lemma AppendKeepsLog(fs: seq<FailureRecord>, report: FailureReport, now: int)
    requires FailureLog(fs) && NotBefore(fs, now)
    ensures FailureLog(AppendFailure(fs, report, now)) && NotBefore(AppendFailure(fs, report, now), now)
  {
  }

  /**
   * `logFailedListing`: one row with the caller's kind, link, error and ids is added and nothing
   * else changes. The source also writes the row to a log file and swallows any error, so the
   * call never fails.
   */
  method LogFailedListing(db: Db, report: FailureReport, now: int)
    requires db.Valid() && NotBefore(db.failed, now)
    modifies db`failed
    ensures db.Valid() && NotBefore(db.failed, now)
    ensures db.failed == AppendFailure(old(db.failed), report, now)
  {
    AppendKeepsLog(db.failed, report, now);
    db.failed := AppendFailure(db.failed, report, now);
  }

  /** The `options` of `getFailedListings`; absent fields take the defaults. */
  datatype FailureQuery = FailureQuery(failureType: Option<FailureKind>, resolved: Option<bool>, limit: Option<nat>)

  const DefaultLimit: nat := 50

  /** The `where` of `getFailedListings`: the resolved flag always, the kind when one is given. */
  predicate Selects(r: FailureRecord, kind: Option<FailureKind>, resolved: bool) {
    r.resolved == resolved && (kind.Some? ==> r.report.failureType == kind.value)
  }

  predicate NewestFirst(rs: seq<FailureRecord>) {
    forall a, b :: 0 <= a < b < |rs| ==> rs[a].createdAt >= rs[b].createdAt
  }

  /** The selected rows, latest row first. */
  function SelectedNewestFirst(fs: seq<FailureRecord>, kind: Option<FailureKind>, resolved: bool): (out: seq<FailureRecord>)
    ensures forall r :: r in out <==> r in fs && Selects(r, kind, resolved)
    ensures multiset(out) <= multiset(fs)
    ensures InTimeOrder(fs) ==> NewestFirst(out)
    ensures |out| <= |fs|
  {
    if fs == [] then []
    else
      var last := fs[|fs| - 1];
      var init := fs[..|fs| - 1];
      var rest := SelectedNewestFirst(init, kind, resolved);
      assert fs == init + [last];
      if Selects(last, kind, resolved) then
        LastIsLatest(fs);
        assert InTimeOrder(fs) ==> InTimeOrder(init);
        ConsNewestFirst(last, rest);
        [last] + rest
      else rest
  }

  /** A row no older than any row of a newest-first list may go in front of it. */
  lemma ConsNewestFirst(x: FailureRecord, rest: seq<FailureRecord>)
    ensures NewestFirst(rest) && (forall r :: r in rest ==> r.createdAt <= x.createdAt) ==> NewestFirst([x] + rest)
  {
    if NewestFirst(rest) && (forall r :: r in rest ==> r.createdAt <= x.createdAt) {
      var q := [x] + rest;
      forall a, b | 0 <= a < b < |q| ensures q[a].createdAt >= q[b].createdAt {
        assert q[b] == rest[b - 1] && q[b] in rest;
        if a > 0 {
          assert q[a] == rest[a - 1];
        }
      }
    }
  }

  /** In a log in time order the last row is no older than any other. */
  lemma LastIsLatest(fs: seq<FailureRecord>)
    requires fs != []
    ensures InTimeOrder(fs) ==> forall r :: r in fs[..|fs| - 1] ==> r.createdAt <= fs[|fs| - 1].createdAt
  {
    if InTimeOrder(fs) {
      forall r | r in fs[..|fs| - 1] ensures r.createdAt <= fs[|fs| - 1].createdAt {
        var k :| 0 <= k < |fs| - 1 && fs[..|fs| - 1][k] == r;
        assert fs[k] == r;
      }
    }
  }

  /** `getFailedListings(options)`. */
  function GetFailedListings(fs: seq<FailureRecord>, options: Option<FailureQuery>): (out: seq<FailureRecord>)
    requires InTimeOrder(fs)
    ensures var q := options.GetOr(FailureQuery(None, None, None));
            var resolved := q.resolved.GetOr(false);
            var limit := q.limit.GetOr(DefaultLimit);
            && (forall r :: r in out ==> r in fs && Selects(r, q.failureType, resolved))
            && multiset(out) <= multiset(fs)
            && |out| <= limit
            && NewestFirst(out)
            && (forall x :: x in fs && Selects(x, q.failureType, resolved) && x !in out ==>
                  |out| == limit && forall y :: y in out ==> y.createdAt >= x.createdAt)
  {
    var q := options.GetOr(FailureQuery(None, None, None));
    var resolved := q.resolved.GetOr(false);
    var limit := q.limit.GetOr(DefaultLimit);
    var all := SelectedNewestFirst(fs, q.failureType, resolved);
    var out := if |all| <= limit then all else all[..limit];
    NewestPrefix(all, limit, out);
    out
  }

  /** The first `limit` rows of a newest-first list: a newest-first sub-multiset, and whatever was cut is no newer. */
  lemma NewestPrefix(all: seq<FailureRecord>, limit: nat, out: seq<FailureRecord>)
    requires out == if |all| <= limit then all else all[..limit]
    requires NewestFirst(all)
    ensures multiset(out) <= multiset(all) && (forall r :: r in out ==> r in all)
    ensures |out| <= limit && NewestFirst(out)
    ensures forall x :: x in all && x !in out ==> |out| == limit && forall y :: y in out ==> y.createdAt >= x.createdAt
  {
    if |all| > limit {
      assert all == out + all[limit..];
      forall x | x in all && x !in out
        ensures |out| == limit && forall y :: y in out ==> y.createdAt >= x.createdAt
      {
        var i :| 0 <= i < |all| && all[i] == x;
        assert i >= limit;
        forall y | y in out ensures y.createdAt >= x.createdAt {
          var j :| 0 <= j < |out| && out[j] == y;
          assert all[j] == y;
        }
      }
    }
  }

  /** Omitting the options is asking for unresolved rows of every kind, at most 50. */
  lemma DefaultOptions(fs: seq<FailureRecord>)
    requires InTimeOrder(fs)
    ensures GetFailedListings(fs, None) == GetFailedListings(fs, Some(FailureQuery(None, Some(false), Some(50))))
  {
  }

  /** The row `markAsResolved` writes. */
  function Resolve(fs: seq<FailureRecord>, id: nat, now: int): (r: seq<FailureRecord>)
    requires id < |fs|
  {
    fs[id := fs[id].(resolved := true, resolvedAt := Some(now))]
  }

  /**
   * `markAsResolved(id)`: the row with that id becomes resolved at `now`; every other row is
   * unchanged. An id that names no row makes the update throw (Prisma's record-not-found).
   */
  method MarkAsResolved(db: Db, id: nat, now: int) returns (r: Outcome<string>)
    requires db.Valid()
    modifies db`failed
    ensures db.Valid()
    ensures r.Pass? <==> id < |old(db.failed)|
    ensures r.Pass? ==> db.failed == Resolve(old(db.failed), id, now)
    ensures r.Fail? ==> db.failed == old(db.failed)
  {
    if id < |db.failed| {
      db.failed := Resolve(db.failed, id, now);
      r := Pass;
    } else {
      r := Fail("Record to update not found.");
    }
  }

  /** Resolving touches only the named row, and only its resolution fields. */
  lemma ResolveTouchesOnlyThatRow(fs: seq<FailureRecord>, id: nat, now: int)
    requires id < |fs|
    ensures |Resolve(fs, id, now)| == |fs|
    ensures Resolve(fs, id, now)[id].resolved && Resolve(fs, id, now)[id].resolvedAt == Some(now)
    ensures Resolve(fs, id, now)[id].report == fs[id].report && Resolve(fs, id, now)[id].createdAt == fs[id].createdAt
    ensures forall k :: 0 <= k < |fs| && k != id ==> Resolve(fs, id, now)[k] == fs[k]
  {
  }

  function CountKind(fs: seq<FailureRecord>, kind: FailureKind): (n: nat)
    ensures n <= |fs|
  {
    if fs == [] then 0
    else CountKind(fs[..|fs| - 1], kind) + (if fs[|fs| - 1].report.failureType == kind then 1 else 0)
  }

  function CountUnresolved(fs: seq<FailureRecord>): (n: nat)
    ensures n <= |fs|
  {
    if fs == [] then 0
    else CountUnresolved(fs[..|fs| - 1]) + (if fs[|fs| - 1].resolved then 0 else 1)
  }

  function CountSince(fs: seq<FailureRecord>, since: int): (n: nat)
    ensures n <= |fs|
  {
    if fs == [] then 0
    else CountSince(fs[..|fs| - 1], since) + (if fs[|fs| - 1].createdAt >= since then 1 else 0)
  }

  const DayMillis: int := 24 * 60 * 60 * 1000

  datatype FailureStats = FailureStats(
    total: nat,
    parsingErrors: nat,
    invalidData: nat,
    notificationErrors: nat,
    unresolved: nat,
    last24Hours: nat)

  /** `getFailedListingStats()` at time `now`. */
  function GetFailedListingStats(fs: seq<FailureRecord>, now: int): (s: FailureStats)
    ensures s.total == |fs|
    ensures s.unresolved <= s.total && s.last24Hours <= s.total
  {
    FailureStats(|fs|, CountKind(fs, ParsingError), CountKind(fs, InvalidData),
                 CountKind(fs, NotificationError), CountUnresolved(fs), CountSince(fs, now - DayMillis))
  }

  /** Every row has one of the three kinds, so the per-kind counts add up to the total. */
  lemma {:induction false} KindCountsPartition(fs: seq<FailureRecord>)
    ensures CountKind(fs, ParsingError) + CountKind(fs, InvalidData) + CountKind(fs, NotificationError) == |fs|
  {
    if fs != [] {
      KindCountsPartition(fs[..|fs| - 1]);
    }
  }

  lemma StatsKindsSumToTotal(fs: seq<FailureRecord>, now: int)
    ensures var s := GetFailedListingStats(fs, now);
            s.parsingErrors + s.invalidData + s.notificationErrors == s.total
  {
    KindCountsPartition(fs);
  }

  /** Logging a failure raises the total, its own kind's count and the unresolved count by one. */
  lemma AppendCounts(fs: seq<FailureRecord>, report: FailureReport, now: int, kind: FailureKind)
    ensures CountKind(AppendFailure(fs, report, now), kind)
            == CountKind(fs, kind) + (if report.failureType == kind then 1 else 0)
    ensures CountUnresolved(AppendFailure(fs, report, now)) == CountUnresolved(fs) + 1
  {
    assert AppendFailure(fs, report, now)[..|fs|] == fs;
  }

  /** Resolving an unresolved row lowers the unresolved count by one; resolving a resolved row changes nothing. */
  lemma {:induction false} ResolveCounts(fs: seq<FailureRecord>, id: nat, now: int)
    requires id < |fs|
    ensures CountUnresolved(Resolve(fs, id, now)) == CountUnresolved(fs) - (if fs[id].resolved then 0 else 1)
  {
    var r := Resolve(fs, id, now);
    var n := |fs| - 1;
    if id == n {
      assert r[..n] == fs[..n];
    } else {
      assert r[..n] == Resolve(fs[..n], id, now);
      ResolveCounts(fs[..n], id, now);
    }
  }
}
