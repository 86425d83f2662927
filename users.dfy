/** The user collection: stored users keyed by e-mail address (the key the
    registration rule makes unique), lookups by `_id` and by e-mail, the
    principal the middleware derives from a user, and the name-sorted user
    listings. */
module Users {
  import opened Common
  import opened ObjectIds
  import opened Ordering

  type Email = string

  /** A stored user document; `password` is whatever the User model stores. */
  datatype User = User(id: ObjectId, name: string, email: Email, password: string)

  /** `req.user`: the non-sensitive fields of a user. There is no password field. */
  datatype Principal = Principal(id: ObjectId, email: string, name: string)

  /** A user document under `.select("name email")`: `_id`, name and e-mail. */
  datatype UserSummary = UserSummary(id: ObjectId, name: string, email: string)

  /** Keys are the users' e-mail addresses and no two users share an `_id`. */
  predicate WellFormed(users: map<Email, User>) {
    && (forall e :: e in users ==> users[e].email == e)
    && (forall e1, e2 :: e1 in users && e2 in users && users[e1].id == users[e2].id ==> e1 == e2)
  }

  predicate IdInUse(users: map<Email, User>, id: ObjectId) {
    exists e :: e in users && users[e].id == id
  }

  /** `User.findById(id)`: the user with that `_id`, if any. */
  function LookupById(users: map<Email, User>, id: ObjectId): (r: Option<User>)
    requires WellFormed(users)
    ensures r.Some? <==> IdInUse(users, id)
    ensures r.Some? ==> r.value.email in users && users[r.value.email] == r.value && r.value.id == id
  {
    if exists e :: e in users && users[e].id == id then
      var e :| e in users && users[e].id == id;
      Some(users[e])
    else
      None
  }

  /** The projection into `req.user`. */
  function ToPrincipal(u: User): Principal {
    Principal(u.id, u.email, u.name)
  }

  function Summary(u: User): UserSummary {
    UserSummary(u.id, u.name, u.email)
  }

  /** `.sort({ name: 1 })` on user summaries. */
  predicate NameNotAfter(a: UserSummary, b: UserSummary) {
    TextLe(a.name, b.name)
  }

  lemma NameOrderIsTotalPreorder(xs: set<UserSummary>)
    ensures TotalPreorderOn(xs, NameNotAfter)
  {
    forall a, b | a in xs && b in xs
      ensures NameNotAfter(a, b) || NameNotAfter(b, a)
    {
      TextLeTotal(a.name, b.name);
    }
    forall a, b, c | a in xs && b in xs && c in xs && NameNotAfter(a, b) && NameNotAfter(b, c)
      ensures NameNotAfter(a, c)
    {
      TextLeTransitive(a.name, b.name, c.name);
    }
  }

  /** `User.find(filter).select("name email").sort({ name: 1 })`, where the filter
      excludes the `_id` given in `excluding` (no filter when it is None). */
  ghost function ListUsers(users: map<Email, User>, excluding: Option<ObjectId>): (r: seq<UserSummary>)
    ensures forall s :: s in r <==> exists u :: u in users.Values && Summary(u) == s && excluding != Some(u.id)
    ensures forall i, j :: 0 <= i < j < |r| ==> r[i] != r[j]
    ensures forall i, j :: 0 <= i < j < |r| ==> TextLe(r[i].name, r[j].name)
  {
    var selected := set u | u in users.Values && excluding != Some(u.id) :: Summary(u);
    NameOrderIsTotalPreorder(selected);
    SortedBy(selected, NameNotAfter)
  }

  /** Two listed users out of name order have the same name: ties in the sort are exactly equal names. */
  lemma ListedNamesTieOnlyWhenEqual(users: map<Email, User>, excluding: Option<ObjectId>, i: nat, j: nat)
    requires i < j < |ListUsers(users, excluding)|
    requires TextLe(ListUsers(users, excluding)[j].name, ListUsers(users, excluding)[i].name)
    ensures ListUsers(users, excluding)[i].name == ListUsers(users, excluding)[j].name
  {
    var r := ListUsers(users, excluding);
    TextLeAntisymmetric(r[i].name, r[j].name);
  }

  /** The user collection. */
  class UserStore {
    var users: map<Email, User>

    ghost predicate Valid()
      reads this
    {
      WellFormed(users)
    }

    constructor ()
      ensures Valid() && users == map[]
    {
      users := map[];
    }

    /** `User.findOne({ email })`. */
    function FindOne(email: Email): (r: Option<User>)
      reads this
      requires Valid()
      ensures r.Some? <==> email in users
      ensures r.Some? ==> r.value == users[email] && r.value.email == email
    {
      if email in users then Some(users[email]) else None
    }

    /** `user.save()` for a new user: stores it under its e-mail address. */
    method Insert(u: User)
      requires Valid()
      requires u.email !in users && !IdInUse(users, u.id)
      modifies this
      ensures Valid()
      ensures users == old(users)[u.email := u]
    {
      users := users[u.email := u];
    }
  }
}
