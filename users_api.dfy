/** Users kept in step with the identity provider (convex/users.ts):
    upsert and delete, both keyed by the provider's user id. */
module UsersApi {
  import opened Common
  import opened Text
  import opened Tables
  import opened Schema

  /** The part of the provider's user event that the upsert reads. A
      name part that is not a string is `None`. */
  datatype ClerkUser = ClerkUser(
    id: string,
    firstName: Option<string>,
    lastName: Option<string>,
    emailAddresses: seq<string>,
    createdAt: int,
    updatedAt: int)

  /** Why a sync fails: the event has no email address (reading the
      first one throws), or more than one user holds the provider id
      (`.unique()` throws). */
  datatype SyncError = NoEmailAddress | DuplicateClerkId

  /** The stored name: first and last name joined by one space and
      trimmed, a missing part counting as empty. */
  function FullName(firstName: Option<string>, lastName: Option<string>): string
  {
    Trim(firstName.GetOr("") + " " + lastName.GetOr(""))
  }

  /** A name part that is non-empty and has no whitespace at either
      end. */
  predicate Clean(s: string)
  {
    s != [] && !IsWhitespace(s[0]) && !IsWhitespace(s[|s| - 1])
  }

  /** With two clean parts the name is exactly `first + " " + last`. */
  lemma FullNameBoth(first: string, last: string)
    requires Clean(first) && Clean(last)
    ensures FullName(Some(first), Some(last)) == first + " " + last
  {
    var both := first + " " + last;
    assert both[0] == first[0] && both[|both| - 1] == last[|last| - 1];
    TrimKeepsTrimmed(both);
  }

  /** With one clean part the name is that part alone, without the
      joining space. */
  lemma FullNameOne(part: string)
    requires Clean(part)
    ensures FullName(Some(part), None) == part
    ensures FullName(None, Some(part)) == part
  {
    assert part + " " + "" == part + " ";
    TrimTrailingSpace(part);
    assert "" + " " + part == " " + part;
    TrimLeadingSpace(part);
  }

  /** With no name part the name is empty. */
  lemma FullNameNone()
    ensures FullName(None, None) == ""
  {
    var f := "" + " " + "";
    assert f == " " && f[1..] == "";
    assert TrimStart(f) == TrimStart("") == "";
  }

  /** What `.filter(idClerk == id).unique()` finds: nothing, the one
      match, or several (which makes `.unique()` throw). */
  datatype Lookup = NoMatch | One(id: UserId) | Many

  /** The users whose provider id is `idClerk`, in creation order. */
  function Matches(t: Table<UserId, User>, idClerk: string): (r: seq<UserId>)
    ensures forall u :: u in r <==> u in t.order && u in t.rows && t.rows[u].idClerk == idClerk
  {
    Filter(t.order, (u: UserId) => u in t.rows && t.rows[u].idClerk == idClerk)
  }

  /** The lookup by provider id. */
  function FindByClerkId(t: Table<UserId, User>, idClerk: string): (r: Lookup)
    requires t.WellFormed()
    ensures r.NoMatch? <==> forall u :: u in t.rows ==> t.rows[u].idClerk != idClerk
    ensures r.One? ==> r.id in t.rows && t.rows[r.id].idClerk == idClerk
    ensures r.One? ==> forall u :: u in t.rows && t.rows[u].idClerk == idClerk ==> u == r.id
    ensures r.Many? <==> exists u, v :: (u in t.rows && v in t.rows && u != v &&
                                         t.rows[u].idClerk == idClerk && t.rows[v].idClerk == idClerk)
  {
    var ms := Matches(t, idClerk);
    FilterDistinct(t.order, (u: UserId) => u in t.rows && t.rows[u].idClerk == idClerk);
    if |ms| == 0 then
      assert forall u :: u in t.rows ==> t.rows[u].idClerk != idClerk by {
        forall u | u in t.rows ensures t.rows[u].idClerk != idClerk {
          assert u in t.order;
        }
      }
      NoMatch
    else if |ms| == 1 then
      assert ms[0] in ms;
      assert forall u :: u in t.rows && t.rows[u].idClerk == idClerk ==> u == ms[0] by {
        forall u | u in t.rows && t.rows[u].idClerk == idClerk ensures u == ms[0] {
          assert u in ms;
        }
      }
      One(ms[0])
    else
      assert ms[0] in ms && ms[1] in ms && ms[0] != ms[1];
      Many
  }

  /** The user `upsertFromClerk` writes for a provider id it has not
      seen. */
  function NewUser(ev: ClerkUser): (u: User)
    requires ev.emailAddresses != []
    ensures u.idClerk == ev.id && u.correo == ev.emailAddresses[0]
    ensures u.nombre == FullName(ev.firstName, ev.lastName)
    ensures u.createdAt == ev.createdAt && u.updatedAt == ev.updatedAt
  {
    User(FullName(ev.firstName, ev.lastName), ev.emailAddresses[0], ev.id, ev.createdAt, ev.updatedAt)
  }

  /** The user `upsertFromClerk` writes over an existing one: name,
      email and `updatedAt` replaced; provider id and `createdAt`
      kept. */
  function Resynced(u: User, ev: ClerkUser): (r: User)
    requires ev.emailAddresses != []
    ensures r.idClerk == u.idClerk && r.createdAt == u.createdAt
    ensures r.nombre == FullName(ev.firstName, ev.lastName) && r.correo == ev.emailAddresses[0]
    ensures r.updatedAt == ev.updatedAt
  {
    u.(nombre := FullName(ev.firstName, ev.lastName), correo := ev.emailAddresses[0], updatedAt := ev.updatedAt)
  }

  /** Rewriting a user without touching its provider id keeps a unique
      lookup unique. */
  lemma {:induction false} UpdateKeepsLookup(t: Table<UserId, User>, id: UserId, u: User)
    requires t.WellFormed() && FindByClerkId(t, u.idClerk) == One(id)
    ensures t.Update(id, u).WellFormed()
    ensures FindByClerkId(t.Update(id, u), u.idClerk) == One(id)
  {
    var t' := t.Update(id, u);
    assert t'.rows[id].idClerk == u.idClerk;
    forall x | x in t'.rows && x != id ensures t'.rows[x].idClerk != u.idClerk {
      assert t'.rows[x] == t.rows[x];
    }
  }

  /** Inserting a user under a fresh id when nobody holds its provider
      id makes it the one match. */
  lemma {:induction false} InsertMakesLookup(t: Table<UserId, User>, id: UserId, u: User)
    requires t.WellFormed() && id !in t.rows && FindByClerkId(t, u.idClerk) == NoMatch
    ensures t.Insert(id, u).WellFormed()
    ensures FindByClerkId(t.Insert(id, u), u.idClerk) == One(id)
  {
    var t' := t.Insert(id, u);
    assert t'.rows[id].idClerk == u.idClerk;
    forall x | x in t'.rows && x != id ensures t'.rows[x].idClerk != u.idClerk {
      assert x in t.rows && t'.rows[x] == t.rows[x];
    }
  }

  /** `upsertFromClerk`. The email is read before the lookup, so an
      event without one fails first; a duplicated provider id fails;
      otherwise the matching user is resynced, or a new one inserted.
      Either way the provider id then names exactly one user. */
  method UpsertFromClerk(db: Database, ev: ClerkUser) returns (r: Result<UserId, SyncError>)
    requires db.Valid()
    modifies db`users, db`nextId
    ensures db.Valid()
    ensures ev.emailAddresses == [] ==> r == Err(NoEmailAddress)
    ensures ev.emailAddresses != [] && FindByClerkId(old(db.users), ev.id).Many? ==> r == Err(DuplicateClerkId)
    ensures r.Err? ==> db.users == old(db.users)
    ensures ev.emailAddresses != [] && FindByClerkId(old(db.users), ev.id).One? ==>
      r == Ok(FindByClerkId(old(db.users), ev.id).id)
      && db.users == old(db.users).Update(r.value, Resynced(old(db.users.rows[r.value]), ev))
    ensures ev.emailAddresses != [] && FindByClerkId(old(db.users), ev.id).NoMatch? ==>
      r.Ok? && r.value !in old(db.users.rows) && db.users == old(db.users).Insert(r.value, NewUser(ev))
    ensures r.Ok? ==> FindByClerkId(db.users, ev.id) == One(r.value)
  {
    if ev.emailAddresses == [] {
      return Err(NoEmailAddress);
    }
    var existing := FindByClerkId(db.users, ev.id);
    match existing {
      case Many =>
        r := Err(DuplicateClerkId);
      case One(id) =>
        Resync(db, id, ev);
        r := Ok(id);
      case NoMatch =>
        var id := InsertNew(db, ev);
        r := Ok(id);
    }
  }

  /** The update branch of the upsert. */
  method Resync(db: Database, id: UserId, ev: ClerkUser)
    requires db.Valid() && ev.emailAddresses != [] && FindByClerkId(db.users, ev.id) == One(id)
    modifies db`users
    ensures db.Valid()
    ensures db.users == old(db.users).Update(id, Resynced(old(db.users.rows[id]), ev))
    ensures FindByClerkId(db.users, ev.id) == One(id)
  {
    var u := Resynced(db.users.rows[id], ev);
    UpdateKeepsLookup(db.users, id, u);
    db.UpdateUser(id, u);
  }

  /** The insert branch of the upsert. */
  method InsertNew(db: Database, ev: ClerkUser) returns (id: UserId)
    requires db.Valid() && ev.emailAddresses != [] && FindByClerkId(db.users, ev.id) == NoMatch
    modifies db`users, db`nextId
    ensures db.Valid()
    ensures id !in old(db.users.rows) && db.users == old(db.users).Insert(id, NewUser(ev))
    ensures FindByClerkId(db.users, ev.id) == One(id)
  {
    id := db.InsertUser(NewUser(ev));
    InsertMakesLookup(old(db.users), id, NewUser(ev));
  }

  /** Deleting a user leaves no user with that provider id when it was
      the only one. */
  lemma {:induction false} DeleteClearsLookup(t: Table<UserId, User>, idClerk: string, id: UserId)
    requires t.WellFormed() && FindByClerkId(t, idClerk) == One(id)
    ensures t.Delete(id).WellFormed()
    ensures FindByClerkId(t.Delete(id), idClerk) == NoMatch
  {
    var t' := t.Delete(id);
    forall x | x in t'.rows ensures t'.rows[x].idClerk != idClerk {
      assert x != id && t'.rows[x] == t.rows[x];
    }
  }

  /** `deleteFromClerk`: removes the user with that provider id; does
      nothing when there is none; fails on a duplicated id. Afterwards
      no user holds the id. */
  method DeleteFromClerk(db: Database, clerkUserId: string) returns (r: Outcome<SyncError>)
    requires db.Valid()
    modifies db`users
    ensures db.Valid()
    ensures r.Fail? <==> FindByClerkId(old(db.users), clerkUserId).Many?
    ensures FindByClerkId(old(db.users), clerkUserId).One? ==>
      db.users == old(db.users).Delete(FindByClerkId(old(db.users), clerkUserId).id)
    ensures !FindByClerkId(old(db.users), clerkUserId).One? ==> db.users == old(db.users)
    ensures r.Pass? ==> FindByClerkId(db.users, clerkUserId) == NoMatch
  {
    var user := FindByClerkId(db.users, clerkUserId);
    match user {
      case Many =>
        r := Fail(DuplicateClerkId);
      case NoMatch =>
        r := Pass;
      case One(id) =>
        DeleteClearsLookup(db.users, clerkUserId, id);
        db.DeleteUser(id);
        r := Pass;
    }
  }
}
