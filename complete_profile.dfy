/** The profile-completion endpoint of app/api/complete-profile/route.ts: the
    signed-in user's one-time bonus. */
module CompleteProfile {
  import opened Seqs
  import opened Records
  import LowDb

  datatype ProfileResponse =
    | Unauthorized                          // 401
    | UserNotFound                          // 404
    | AlreadyCompleted(creditsBalance: int) // 200, nothing granted
    | Completed(creditsBalance: int)        // 200, bonus granted

  /** `POST /api/complete-profile`. `sessionEmail` is the session's email.
      Without one, or for an unknown email, nothing changes. An already
      completed profile is reported with its balance and left alone.
      Otherwise the first user with the found user's id is completed, and
      the response carries that user's new balance, or the found user's own
      balance when the new one is zero. When the id is not shared with an
      earlier user (ids are unique in practice) this is the found user, who
      ends completed with two more credits. */
  method Post(db: LowDb.Db, sessionEmail: Option<string>) returns (resp: ProfileResponse)
    modifies db`users
    ensures sessionEmail.None? || sessionEmail.value == "" ==> resp == Unauthorized && db.users == old(db.users)
    ensures sessionEmail.Some? && sessionEmail.value != "" ==>
      var found := IndexByEmail(old(db.users), sessionEmail.value);
      && (found.None? ==> resp == UserNotFound && db.users == old(db.users))
      && (found.Some? && old(db.users)[found.value].profileCompleted ==>
            resp == AlreadyCompleted(old(db.users)[found.value].creditsBalance) && db.users == old(db.users))
      && (found.Some? && !old(db.users)[found.value].profileCompleted ==>
            && db.users == LowDb.CompletedProfile(old(db.users), old(db.users)[found.value].id)
            && IndexById(old(db.users), old(db.users)[found.value].id).Some?
            && (var j := IndexById(old(db.users), old(db.users)[found.value].id).value;
                resp == Completed(if db.users[j].creditsBalance != 0 then db.users[j].creditsBalance
                                  else db.users[found.value].creditsBalance))
            && (IndexById(old(db.users), old(db.users)[found.value].id) == found ==>
                  && db.users[found.value].profileCompleted
                  && resp == Completed(old(db.users)[found.value].creditsBalance + LowDb.ProfileBonus)
                  && db.users[found.value].creditsBalance == old(db.users)[found.value].creditsBalance + LowDb.ProfileBonus))
    ensures old(db.Valid()) ==> db.Valid()
  {
    if sessionEmail.None? || sessionEmail.value == "" {
      return Unauthorized;
    }
    var found := IndexByEmail(db.users, sessionEmail.value);
    if found.None? {
      return UserNotFound;
    }
    var i := found.value;
    var user := db.users[i];
    if user.profileCompleted {
      return AlreadyCompleted(user.creditsBalance);
    }
    var updated := db.CompleteUserProfile(user.id);
    // `updatedUser?.creditsBalance || user.creditsBalance`: a zero balance
    // falls back to the user object found by email, which is read afresh.
    var balance := if updated.Some? && updated.value.creditsBalance != 0 then updated.value.creditsBalance
                   else db.users[i].creditsBalance;
    resp := Completed(balance);
  }
}
