/** The records both stores keep (DbUser, DbGeneration and the image
    references a generation carries), and the lookups and balance update
    that the handlers perform on the user list. */
module Records {
  import opened Seqs

  datatype User = User(
    id: string,
    email: string,
    name: string,
    image: Option<string>,
    creditsBalance: int,
    profileCompleted: bool,
    registrationIp: Option<string>,
    createdAt: int)

  datatype Image = Image(url: string, width: int, height: int)

  datatype GenerationStatus = Succeeded | Failed

  datatype Generation = Generation(
    id: string,
    userId: string,
    prompt: string,
    width: int,
    height: int,
    numOutputs: int,
    images: seq<Image>,
    costCredits: int,
    status: GenerationStatus,
    createdAt: int)

  predicate EmailsUnique(users: seq<User>)
  {
    forall i, j :: 0 <= i < j < |users| ==> users[i].email != users[j].email
  }

  predicate IdsUnique(users: seq<User>)
  {
    forall i, j :: 0 <= i < j < |users| ==> users[i].id != users[j].id
  }

  predicate BalancesNonNegative(users: seq<User>)
  {
    forall k :: 0 <= k < |users| ==> users[k].creditsBalance >= 0
  }

  /** `users.find(u => u.email === email)`, as a position. */
  function IndexByEmail(users: seq<User>, email: string): (r: Option<nat>)
    ensures r.None? <==> forall k :: 0 <= k < |users| ==> users[k].email != email
    ensures r.Some? ==> r.value < |users| && users[r.value].email == email
    ensures r.Some? ==> forall k :: 0 <= k < r.value ==> users[k].email != email
  {
    Find(users, (u: User) => u.email == email)
  }

  /** `users.find(u => u.id === id)`, as a position. */
  function IndexById(users: seq<User>, id: string): (r: Option<nat>)
    ensures r.None? <==> forall k :: 0 <= k < |users| ==> users[k].id != id
    ensures r.Some? ==> r.value < |users| && users[r.value].id == id
    ensures r.Some? ==> forall k :: 0 <= k < r.value ==> users[k].id != id
  {
    Find(users, (u: User) => u.id == id)
  }

  /** The first user with this email, or None; with unique emails it is the
      one user that has it. */
  function UserByEmail(users: seq<User>, email: string): (r: Option<User>)
    ensures r.None? <==> forall u :: u in users ==> u.email != email
    ensures r.Some? ==> r.value in users && r.value.email == email
    ensures r.Some? ==> exists i :: 0 <= i < |users| && users[i] == r.value && forall k :: 0 <= k < i ==> users[k].email != email
    ensures EmailsUnique(users) ==> forall k :: 0 <= k < |users| && users[k].email == email ==> r == Some(users[k])
  {
    match IndexByEmail(users, email)
    case None => None
    case Some(i) => Some(users[i])
  }

  /** The user list after `user.creditsBalance += amount` on the user at `i`. */
  function AddCredits(users: seq<User>, i: nat, amount: int): (r: seq<User>)
    requires i < |users|
    ensures |r| == |users|
    ensures r[i] == users[i].(creditsBalance := users[i].creditsBalance + amount)
    ensures forall k :: 0 <= k < |users| && k != i ==> r[k] == users[k]
  {
    users[i := users[i].(creditsBalance := users[i].creditsBalance + amount)]
  }

  /** A refund of exactly the debited amount restores the user list. */
  lemma DebitThenRefund(users: seq<User>, i: nat, cost: int)
    requires i < |users|
    ensures AddCredits(AddCredits(users, i, -cost), i, cost) == users
  {
    var r := AddCredits(AddCredits(users, i, -cost), i, cost);
    assert forall k :: 0 <= k < |users| ==> r[k] == users[k];
  }

  /** Two credits of `a` and then `b` add up; nothing collapses repeated grants. */
  lemma AddCreditsTwice(users: seq<User>, i: nat, a: int, b: int)
    requires i < |users|
    ensures AddCredits(AddCredits(users, i, a), i, b) == AddCredits(users, i, a + b)
  {
    var r := AddCredits(AddCredits(users, i, a), i, b);
    assert forall k :: 0 <= k < |users| ==> r[k] == AddCredits(users, i, a + b)[k];
  }

  /** A balance update touches no email or id, so lookups and uniqueness survive it. */
  lemma AddCreditsKeepsKeys(users: seq<User>, i: nat, amount: int)
    requires i < |users|
    ensures forall e :: IndexByEmail(AddCredits(users, i, amount), e) == IndexByEmail(users, e)
    ensures forall id :: IndexById(AddCredits(users, i, amount), id) == IndexById(users, id)
    ensures EmailsUnique(users) ==> EmailsUnique(AddCredits(users, i, amount))
    ensures IdsUnique(users) ==> IdsUnique(AddCredits(users, i, amount))
  {
    var r := AddCredits(users, i, amount);
    forall e ensures IndexByEmail(r, e) == IndexByEmail(users, e) {
      SameEmailsSameIndex(users, r, e);
    }
    forall id ensures IndexById(r, id) == IndexById(users, id) {
      SameIdsSameIndex(users, r, id);
    }
  }

  lemma SameEmailsSameIndex(a: seq<User>, b: seq<User>, e: string)
    requires |a| == |b|
    requires forall k :: 0 <= k < |a| ==> a[k].email == b[k].email
    ensures IndexByEmail(a, e) == IndexByEmail(b, e)
  {
    var ra, rb := IndexByEmail(a, e), IndexByEmail(b, e);
    if ra.Some? && rb.Some? {
      assert !(ra.value < rb.value) && !(rb.value < ra.value);
    }
  }

  lemma SameIdsSameIndex(a: seq<User>, b: seq<User>, id: string)
    requires |a| == |b|
    requires forall k :: 0 <= k < |a| ==> a[k].id == b[k].id
    ensures IndexById(a, id) == IndexById(b, id)
  {
    var ra, rb := IndexById(a, id), IndexById(b, id);
    if ra.Some? && rb.Some? {
      assert !(ra.value < rb.value) && !(rb.value < ra.value);
    }
  }

  /** Appending a user whose email is not yet present keeps emails unique. */
  lemma AppendNewEmail(users: seq<User>, u: User)
    requires EmailsUnique(users)
    requires IndexByEmail(users, u.email).None?
    ensures EmailsUnique(users + [u])
    ensures IndexByEmail(users + [u], u.email) == Some(|users|)
  {
    var r := users + [u];
    assert forall k :: 0 <= k < |users| ==> r[k] == users[k];
    assert r[|users|].email == u.email;
    var found := IndexByEmail(r, u.email);
    assert found.Some?;
    assert !(found.value < |users|);
  }
}
