/** The local (lowdb) branch of lib/db-simple.ts: a second store over the same
    user and generation records, used by the development login and the
    profile endpoint. Its signup bonus is 5 credits, where lib/db.ts grants 3. */
module SimpleDb {
  import opened Seqs
  import opened Records
  import History

  const SignupBonus := 5

  datatype LocalSchema = LocalSchema(users: seq<User>, generations: seq<Generation>)

  class LocalDb {
    var users: seq<User>
    var generations: seq<Generation>

    ghost predicate Valid()
      reads this
    {
      EmailsUnique(users)
    }

    /** `getLocalDb`: the file's two lists, or empty ones without a file. */
    constructor Open(file: Option<LocalSchema>)
      ensures file.None? ==> users == [] && generations == [] && Valid()
      ensures file.Some? ==> users == file.value.users && generations == file.value.generations
    {
      if file.Some? {
        users := file.value.users;
        generations := file.value.generations;
      } else {
        users := [];
        generations := [];
      }
    }

    /** `getOrCreateUser`: the user with this email, created with 5 credits
        and an incomplete profile if there is none; emails stay unique. */
    method GetOrCreateUser(email: string, name: string, image: Option<string>, clientIp: Option<string>,
                           newId: string, now: int) returns (user: User)
      modifies this`users
      ensures IndexByEmail(old(users), email).Some? ==>
        users == old(users) && user == users[IndexByEmail(old(users), email).value]
      ensures IndexByEmail(old(users), email).None? ==>
        && user == User(newId, email, name, image, SignupBonus, false, clientIp, now)
        && users == old(users) + [user]
      ensures user.email == email
      ensures old(Valid()) ==> GetUserByEmail(email) == Some(user)
      ensures old(Valid()) ==> Valid()
    {
      var found := IndexByEmail(users, email);
      if found.Some? {
        user := users[found.value];
      } else {
        user := User(newId, email, name, image, SignupBonus, false, clientIp, now);
        if EmailsUnique(users) {
          AppendNewEmail(users, user);
        }
        ghost var before := users;
        users := users + [user];
        assert forall k :: 0 <= k < |before| ==> users[k] == before[k];
        assert users[|before|] == user;
      }
    }

    /** `updateUserCredits`: the first user with this email gets balance
        `newBalance`; an unknown email changes nothing. */
    method UpdateUserCredits(email: string, newBalance: int)
      modifies this`users
      ensures |users| == |old(users)|
      ensures IndexByEmail(old(users), email).None? ==> users == old(users)
      ensures forall k :: 0 <= k < |users| && Some(k) != IndexByEmail(old(users), email) ==> users[k] == old(users)[k]
      ensures forall k :: 0 <= k < |users| && Some(k) == IndexByEmail(old(users), email) ==>
        users[k] == old(users)[k].(creditsBalance := newBalance)
      ensures old(Valid()) ==> Valid()
    {
      var found := IndexByEmail(users, email);
      if found.Some? {
        users := users[found.value := users[found.value].(creditsBalance := newBalance)];
      }
    }

    /** `getUserByEmail`: the first user with this email, or None. */
    function GetUserByEmail(email: string): (r: Option<User>)
      reads this
      ensures r.None? <==> forall u :: u in users ==> u.email != email
      ensures r.Some? ==> r.value in users && r.value.email == email
      ensures r.Some? ==> exists i :: 0 <= i < |users| && users[i] == r.value && forall k :: 0 <= k < i ==> users[k].email != email
    ensures EmailsUnique(users) ==> forall k :: 0 <= k < |users| && users[k].email == email ==> r == Some(users[k])
    {
      UserByEmail(users, email)
    }

    /** `recordGeneration`: the record goes at the end of the list. */
    method RecordGeneration(generation: Generation)
      modifies this`generations
      ensures generations == old(generations) + [generation]
    {
      generations := generations + [generation];
    }

    /** `getUserGenerations`: the user's records, newest first, at most 50
        and all of them when there are no more, each at most as often as
        stored, none left out that is newer than one listed. */
    function GetUserGenerations(userId: string): (r: seq<Generation>)
      reads this
      ensures |r| == History.Min(History.ListLimit, |History.OwnedBy(generations, userId)|)
      ensures multiset(r) <= multiset(History.OwnedBy(generations, userId))
      ensures forall g :: g in r ==> g.userId == userId && g in generations
      ensures History.NewestFirst(r)
      ensures forall g, h :: g in generations && g.userId == userId && g !in r && h in r ==> h.createdAt >= g.createdAt
      ensures |History.OwnedBy(generations, userId)| <= History.ListLimit ==>
        forall g :: g in generations && g.userId == userId ==> g in r
    {
      History.UserGenerations(generations, userId)
    }
  }
}
