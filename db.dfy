/** The lowdb store of lib/db.ts: the object `getDb` hands to every route,
    holding the users, the generation history, the per-day free usage and the
    pricing tests. Each list is a field the operations reassign; a user or a
    usage record that the source mutates through a reference is replaced at
    its position in the list. */
module LowDb {
  import opened Seqs
  import opened Records
  import opened FreeTier
  import opened Pricing

  /** Credits a Google user starts with. */
  const SignupBonus := 3
  /** Credits granted once for completing the profile. */
  const ProfileBonus := 2

  /** The contents of the database file as read; a file written before the
      daily-usage and pricing lists existed lacks them. */
  datatype StoredSchema = StoredSchema(
    users: seq<User>,
    generations: seq<Generation>,
    dailyUsage: Option<seq<DailyUsage>>,
    pricingTests: Option<seq<PricingTest>>)

  /** What a caller passes to `recordGeneration`: every field of the record
      except id, owner and timestamp. */
  datatype GenerationParams = GenerationParams(
    prompt: string,
    width: int,
    height: int,
    numOutputs: int,
    costCredits: int,
    images: seq<Image>,
    status: GenerationStatus)

  /** The user list after `completeUserProfile(userId)`: the first user with
      that id, if its profile is incomplete, is marked complete and gains the
      bonus; in every other case nothing changes. */
  function CompletedProfile(users: seq<User>, userId: string): (r: seq<User>)
    ensures |r| == |users|
    ensures forall k :: 0 <= k < |users| ==> r[k].id == users[k].id && r[k].email == users[k].email
    ensures forall k :: 0 <= k < |users| && Some(k) != IndexById(users, userId) ==> r[k] == users[k]
    ensures forall k :: 0 <= k < |users| && Some(k) == IndexById(users, userId) ==>
      && r[k].profileCompleted
      && r[k].creditsBalance == users[k].creditsBalance + (if users[k].profileCompleted then 0 else ProfileBonus)
      && r[k] == users[k].(profileCompleted := true, creditsBalance := r[k].creditsBalance)
  {
    match IndexById(users, userId)
    case None => users
    case Some(i) =>
      if users[i].profileCompleted then users
      else users[i := users[i].(profileCompleted := true, creditsBalance := users[i].creditsBalance + ProfileBonus)]
  }

  /** Completing a profile twice grants the bonus once. */
  lemma CompleteProfileIdempotent(users: seq<User>, userId: string)
    ensures CompletedProfile(CompletedProfile(users, userId), userId) == CompletedProfile(users, userId)
  {
    var once := CompletedProfile(users, userId);
    SameIdsSameIndex(users, once, userId);
    var twice := CompletedProfile(once, userId);
    assert forall k :: 0 <= k < |users| ==> twice[k] == once[k];
  }

  /** Profile completion keeps every invariant of the user list. */
  lemma CompleteProfileKeepsInvariants(users: seq<User>, userId: string)
    ensures EmailsUnique(users) ==> EmailsUnique(CompletedProfile(users, userId))
    ensures IdsUnique(users) ==> IdsUnique(CompletedProfile(users, userId))
    ensures BalancesNonNegative(users) ==> BalancesNonNegative(CompletedProfile(users, userId))
    ensures forall e :: IndexByEmail(CompletedProfile(users, userId), e) == IndexByEmail(users, e)
  {
    var r := CompletedProfile(users, userId);
    forall e ensures IndexByEmail(r, e) == IndexByEmail(users, e) {
      SameEmailsSameIndex(users, r, e);
    }
  }

  class Db {
    var users: seq<User>
    var generations: seq<Generation>
    var dailyUsage: seq<DailyUsage>
    var pricingTests: seq<PricingTest>

    /** What every operation keeps: one user per email, no negative balance,
        one usage record per date, and each record's value and user list
        consistent with its credit count. */
    ghost predicate Valid()
      reads this
    {
      && EmailsUnique(users)
      && BalancesNonNegative(users)
      && DatesUnique(dailyUsage)
      && AllConsistent(dailyUsage)
    }

    /** `getDb`: the file's contents, or the defaults when there is no file,
        with a missing daily-usage list back-filled empty and a missing
        pricing list back-filled with the three default tests. A list that is
        present, even empty, is kept. */
    constructor Open(file: Option<StoredSchema>)
      ensures file.None? ==> users == [] && generations == [] && dailyUsage == []
      ensures file.None? ==> pricingTests == DefaultPricingTests && Valid()
      ensures file.Some? ==> users == file.value.users && generations == file.value.generations
      ensures file.Some? ==> dailyUsage == (if file.value.dailyUsage.Some? then file.value.dailyUsage.value else [])
      ensures file.Some? ==> pricingTests == (if file.value.pricingTests.Some? then file.value.pricingTests.value else DefaultPricingTests)
    {
      var data := if file.Some? then file.value else StoredSchema([], [], Some([]), Some(DefaultPricingTests));
      users := data.users;
      generations := data.generations;
      dailyUsage := [];
      if data.dailyUsage.Some? {
        dailyUsage := data.dailyUsage.value;
      }
      pricingTests := DefaultPricingTests;
      if data.pricingTests.Some? {
        pricingTests := data.pricingTests.value;
      }
    }

    /** `getOrCreateGoogleUser`: the user with this email, created with the
        signup bonus and an incomplete profile if there is none. */
    method GetOrCreateGoogleUser(email: string, name: string, image: Option<string>, clientIp: Option<string>,
                                 newId: string, now: int) returns (user: User)
      modifies this`users
      ensures IndexByEmail(old(users), email).Some? ==>
        users == old(users) && user == users[IndexByEmail(old(users), email).value]
      ensures IndexByEmail(old(users), email).None? ==>
        && user == User(newId, email, name, image, SignupBonus, false, clientIp, now)
        && users == old(users) + [user]
      ensures user.email == email && IndexByEmail(users, email).Some?
      ensures old(Valid()) ==> Valid()
      ensures IdsUnique(old(users)) && IndexById(old(users), newId).None? ==> IdsUnique(users)
    {
      var found := IndexByEmail(users, email);
      if found.Some? {
        user := users[found.value];
      } else {
        user := User(newId, email, name, image, SignupBonus, false, clientIp, now);
        ghost var before := users;
        users := users + [user];
        assert forall k :: 0 <= k < |before| ==> users[k] == before[k];
        assert users[|before|] == user;
      }
    }

    /** `completeUserProfile`: see CompletedProfile; returns the user found by
        id, after the update, or None. */
    method CompleteUserProfile(userId: string) returns (user: Option<User>)
      modifies this`users
      ensures users == CompletedProfile(old(users), userId)
      ensures IndexById(old(users), userId).None? ==> user.None?
      ensures IndexById(old(users), userId).Some? ==> user == Some(users[IndexById(old(users), userId).value])
      ensures old(Valid()) ==> Valid()
    {
      CompleteProfileKeepsInvariants(users, userId);
      var found := IndexById(users, userId);
      if found.Some? && !users[found.value].profileCompleted {
        var u := users[found.value];
        users := users[found.value := u.(profileCompleted := true, creditsBalance := u.creditsBalance + ProfileBonus)];
      }
      user := if found.Some? then Some(users[found.value]) else None;
    }

    /** `recordGeneration`: appends one record owned by `userId` carrying the
        caller's fields; earlier records are untouched. */
    method RecordGeneration(userId: string, params: GenerationParams, newId: string, now: int) returns (gen: Generation)
      modifies this`generations
      ensures gen.id == newId && gen.userId == userId && gen.createdAt == now
      ensures gen.prompt == params.prompt && gen.width == params.width && gen.height == params.height
      ensures gen.numOutputs == params.numOutputs && gen.costCredits == params.costCredits
      ensures gen.images == params.images && gen.status == params.status
      ensures generations == old(generations) + [gen]
    {
      gen := Generation(newId, userId, params.prompt, params.width, params.height, params.numOutputs,
                        params.images, params.costCredits, params.status, now);
      generations := generations + [gen];
    }

    /** `getTodayUsage`: the position of the record for `today`, created
        zeroed if the date has none. */
    method GetTodayUsage(today: string) returns (i: nat)
      modifies this`dailyUsage
      ensures dailyUsage == WithDay(old(dailyUsage), today)
      ensures IndexOfDate(dailyUsage, today) == Some(i)
      ensures old(Valid()) ==> Valid()
    {
      var found := IndexOfDate(dailyUsage, today);
      if found.Some? {
        i := found.value;
      } else {
        ghost var before := dailyUsage;
        dailyUsage := dailyUsage + [ZeroUsage(today)];
        i := |dailyUsage| - 1;
        assert forall k :: 0 <= k < |before| ==> dailyUsage[k] == before[k];
      }
    }

    /** `canUseFreeCreditToday`: whether today's record can absorb
        `creditsNeeded` more free credits under the cap. `userId` is unused,
        as in the source; today's record may be created on the way. */
    method CanUseFreeCreditToday(userId: string, creditsNeeded: int, today: string) returns (ok: bool)
      modifies this`dailyUsage
      ensures dailyUsage == WithDay(old(dailyUsage), today)
      ensures IndexOfDate(dailyUsage, today).Some?
      ensures ok == WithinDailyCap(dailyUsage[IndexOfDate(dailyUsage, today).value], creditsNeeded)
      ensures old(Valid()) ==> Valid()
    {
      var i := GetTodayUsage(today);
      var usage := dailyUsage[i];
      ok := !(usage.totalFreeCreditsValueCents + creditsNeeded * CentsPerCredit > DailyFreeLimitCents);
    }

    /** `recordFreeUsage`: today's record takes `creditsUsed` credits, their
        value, and the user if not yet listed. */
    method RecordFreeUsage(userId: string, creditsUsed: int, today: string)
      modifies this`dailyUsage
      ensures dailyUsage == RecordedOn(old(dailyUsage), today, userId, creditsUsed)
      ensures old(Valid()) && creditsUsed >= 0 ==> Valid()
    {
      ghost var before := dailyUsage;
      var i := GetTodayUsage(today);
      var usage := dailyUsage[i];
      var seen := usage.uniqueUsers;
      if userId !in seen {
        seen := seen + [userId];
      }
      dailyUsage := dailyUsage[i := DailyUsage(usage.date,
                                               usage.totalFreeCreditsUsed + creditsUsed,
                                               usage.totalFreeCreditsValueCents + creditsUsed * CentsPerCredit,
                                               seen)];
      assert dailyUsage == RecordedOn(before, today, userId, creditsUsed);
    }

    /** `getPricingTest`: an empty list is first reset to the defaults; then
        the named active test, or the active test at `pick`. */
    method GetPricingTest(testName: Option<string>, pick: nat) returns (test: Option<PricingTest>)
      modifies this`pricingTests
      ensures pricingTests == if old(pricingTests) == [] then DefaultPricingTests else old(pricingTests)
      ensures test == SelectPricingTest(pricingTests, testName, pick)
      ensures old(pricingTests) == [] ==> test.Some?
    {
      if |pricingTests| == 0 {
        pricingTests := DefaultPricingTests;
        DefaultsAllSelectable(testName, pick);
      }
      test := SelectPricingTest(pricingTests, testName, pick);
    }
  }
}
