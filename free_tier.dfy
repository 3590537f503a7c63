/** The shared daily free-credit allowance of lib/db.ts. Money is kept in
    integer US cents: one credit is worth 2 cents and the whole site may give
    away 2000 cents ($20) of free credits per calendar day. */
module FreeTier {
  import opened Seqs

  const DailyFreeLimitCents := 2000
  const CentsPerCredit := 2

  /** One record per date key ("YYYY-MM-DD"). */
  datatype DailyUsage = DailyUsage(
    date: string,
    totalFreeCreditsUsed: int,
    totalFreeCreditsValueCents: int,
    uniqueUsers: seq<string>)

  /** What the accounting keeps true of a record: a non-negative count, its
      value at the fixed rate, and each user listed once. */
  predicate Consistent(u: DailyUsage)
  {
    && u.totalFreeCreditsUsed >= 0
    && u.totalFreeCreditsValueCents == u.totalFreeCreditsUsed * CentsPerCredit
    && NoDuplicates(u.uniqueUsers)
  }

  /** The zeroed record `getTodayUsage` creates for a date it has not seen. */
  function ZeroUsage(date: string): (u: DailyUsage)
    ensures u.date == date && Consistent(u)
    ensures u.totalFreeCreditsUsed == 0 && u.uniqueUsers == []
  {
    DailyUsage(date, 0, 0, [])
  }

  /** The record after `recordFreeUsage(userId, credits)`. */
  function Recorded(u: DailyUsage, userId: string, credits: int): (r: DailyUsage)
    ensures r.date == u.date
    ensures r.totalFreeCreditsUsed == u.totalFreeCreditsUsed + credits
    ensures r.totalFreeCreditsValueCents == u.totalFreeCreditsValueCents + credits * CentsPerCredit
    ensures forall x :: x in r.uniqueUsers <==> x in u.uniqueUsers || x == userId
    ensures credits >= 0 && Consistent(u) ==> Consistent(r)
  {
    var users := if userId in u.uniqueUsers then u.uniqueUsers else u.uniqueUsers + [userId];
    DailyUsage(u.date, u.totalFreeCreditsUsed + credits,
               u.totalFreeCreditsValueCents + credits * CentsPerCredit, users)
  }

  /** `canUseFreeCreditToday`: admitted exactly when recording the request
      keeps the day's value within the cap. The user is not consulted. */
  function WithinDailyCap(u: DailyUsage, credits: int): (ok: bool)
    ensures forall userId :: ok <==> Recorded(u, userId, credits).totalFreeCreditsValueCents <= DailyFreeLimitCents
  {
    !(u.totalFreeCreditsValueCents + credits * CentsPerCredit > DailyFreeLimitCents)
  }

  predicate DatesUnique(days: seq<DailyUsage>)
  {
    forall i, j :: 0 <= i < j < |days| ==> days[i].date != days[j].date
  }

  predicate AllConsistent(days: seq<DailyUsage>)
  {
    forall k :: 0 <= k < |days| ==> Consistent(days[k])
  }

  /** `dailyUsage.find(u => u.date === date)`, as a position. */
  function IndexOfDate(days: seq<DailyUsage>, date: string): (r: Option<nat>)
    ensures r.None? <==> forall k :: 0 <= k < |days| ==> days[k].date != date
    ensures r.Some? ==> r.value < |days| && days[r.value].date == date
    ensures r.Some? ==> forall k :: 0 <= k < r.value ==> days[k].date != date
  {
    Find(days, (d: DailyUsage) => d.date == date)
  }

  /** The usage list after `getTodayUsage(date)`: unchanged when the date has a
      record, otherwise extended by one zeroed record for it. Either way the
      date then has a record, and the list keeps one record per date. */
  function WithDay(days: seq<DailyUsage>, date: string): (r: seq<DailyUsage>)
    ensures IndexOfDate(days, date).Some? ==> r == days
    ensures IndexOfDate(days, date).None? ==> r == days + [ZeroUsage(date)]
    ensures IndexOfDate(r, date).Some?
    ensures DatesUnique(days) ==> DatesUnique(r)
    ensures AllConsistent(days) ==> AllConsistent(r)
  {
    if IndexOfDate(days, date).Some? then days
    else
      var r := days + [ZeroUsage(date)];
      assert r[|days|].date == date;
      r
  }

  /** The usage list after `recordFreeUsage(userId, credits)` on `date`: the
      date's record (created if need be) takes the credits and the user, and
      no other record changes. */
  function RecordedOn(days: seq<DailyUsage>, date: string, userId: string, credits: int): (r: seq<DailyUsage>)
    ensures var d := WithDay(days, date);
      var i := IndexOfDate(d, date).value;
      && |r| == |d|
      && r[i] == Recorded(d[i], userId, credits)
      && forall k :: 0 <= k < |d| && k != i ==> r[k] == d[k]
    ensures DatesUnique(days) ==> DatesUnique(r)
    ensures credits >= 0 && AllConsistent(days) ==> AllConsistent(r)
  {
    var d := WithDay(days, date);
    var i := IndexOfDate(d, date).value;
    d[i := Recorded(d[i], userId, credits)]
  }

  /** Recording after the record was already created lazily is the same as
      recording from scratch. */
  lemma RecordedOnAfterWithDay(days: seq<DailyUsage>, date: string, userId: string, credits: int)
    ensures RecordedOn(WithDay(days, date), date, userId, credits) == RecordedOn(days, date, userId, credits)
  {
  }

  /** Admission keeps the cap: a request admitted by `WithinDailyCap` and then
      recorded leaves the day's free value at most $20. */
  lemma AdmittedStaysWithinCap(days: seq<DailyUsage>, date: string, userId: string, credits: int)
    requires var d := WithDay(days, date); WithinDailyCap(d[IndexOfDate(d, date).value], credits)
    ensures var r := RecordedOn(days, date, userId, credits);
      r[IndexOfDate(r, date).value].totalFreeCreditsValueCents <= DailyFreeLimitCents
  {
    var d := WithDay(days, date);
    var i := IndexOfDate(d, date).value;
    var r := RecordedOn(days, date, userId, credits);
    assert r[i].date == date;
    var j := IndexOfDate(r, date);
    assert j.Some?;
    assert forall k :: 0 <= k < i ==> r[k] == d[k];
  }

  /** A second recording by the same user on the same day adds the credits
      again but does not list the user twice. */
  lemma RepeatUserListedOnce(u: DailyUsage, userId: string, a: int, b: int)
    ensures Recorded(Recorded(u, userId, a), userId, b).uniqueUsers == Recorded(u, userId, a).uniqueUsers
    ensures Recorded(Recorded(u, userId, a), userId, b).totalFreeCreditsUsed == u.totalFreeCreditsUsed + a + b
  {
  }
}
