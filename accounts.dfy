/**
 * Accounts of people who signed in with Google (server.js). An account is
 * looked up by its Google id and created on the first sign-in.
 */
module Accounts {
  import opened Wrappers

  /** A stored account (the `User` schema): `googleId` is required and unique. */
  datatype User = User(googleId: string, displayName: string, email: string, photo: string)

  /** The part of the Google profile the sign-in callback reads. */
  datatype Profile = Profile(id: string, displayName: string, emails: seq<string>, photos: seq<string>)

  /** What the callback hands to `done`: the signed-in account, or an error. */
  datatype SignIn = SignedIn(user: User) | SignInError

  /** Every Google id occurs at most once among the stored accounts. */
  predicate UniqueGoogleIds(users: seq<User>)
  {
    forall i, j :: 0 <= i < j < |users| ==> users[i].googleId != users[j].googleId
  }

  /** `User.findOne({ googleId })`: the first stored account with this Google id, if any. */
  function FindByGoogleId(users: seq<User>, googleId: string): (r: Option<User>)
    ensures r.Some? ==> r.value in users && r.value.googleId == googleId
    ensures r.None? <==> forall u :: u in users ==> u.googleId != googleId
  {
    if users == [] then None
    else if users[0].googleId == googleId then Some(users[0])
    else FindByGoogleId(users[1..], googleId)
  }

  /** The account the callback creates for a profile it has not seen; `None` when the profile has no e-mail or no photo (`emails[0]` or `photos[0]` throws). */
  function NewUser(p: Profile): (r: Option<User>)
    ensures r.Some? <==> |p.emails| > 0 && |p.photos| > 0
    ensures r.Some? ==> r.value.googleId == p.id && r.value.displayName == p.displayName
                        && r.value.email == p.emails[0] && r.value.photo == p.photos[0]
  {
    if |p.emails| > 0 && |p.photos| > 0 then Some(User(p.id, p.displayName, p.emails[0], p.photos[0])) else None
  }

  /** The schema's `required` validator on `googleId`: `save` rejects an account whose Google id is the empty string. */
  predicate SaveAccepts(u: User)
  {
    u.googleId != ""
  }

  /**
   * The Google strategy's verify callback: returns the stored account for
   * `p.id` unchanged, or inserts exactly one new account for it. Building the
   * account fails without an e-mail or a photo, and `save` fails on an empty
   * Google id; both end in `done(err)` with nothing stored.
   */
  function FindOrCreateUser(users: seq<User>, p: Profile): (r: (SignIn, seq<User>))
    ensures FindByGoogleId(users, p.id).Some? ==> r == (SignedIn(FindByGoogleId(users, p.id).value), users)
    ensures FindByGoogleId(users, p.id).None? && NewUser(p).Some? && p.id != "" ==>
              r.0 == SignedIn(NewUser(p).value) && r.1 == users + [NewUser(p).value] && r.0.user.googleId == p.id
    ensures FindByGoogleId(users, p.id).None? && (NewUser(p).None? || p.id == "") ==> r == (SignInError, users)
    ensures r.0.SignedIn? ==> r.0.user.googleId == p.id && r.0.user in r.1
  {
    match FindByGoogleId(users, p.id)
    case Some(u) => (SignedIn(u), users)
    case None =>
      match NewUser(p)
      case Some(u) => if SaveAccepts(u) then (SignedIn(u), users + [u]) else (SignInError, users)
      case None => (SignInError, users)
  }

  /** Appending an account whose Google id is absent makes it the one found for that id. */
  lemma {:induction false} FindAfterAppend(users: seq<User>, u: User)
    requires FindByGoogleId(users, u.googleId).None?
    ensures FindByGoogleId(users + [u], u.googleId) == Some(u)
  {
    if users != [] {
      assert (users + [u])[1..] == users[1..] + [u];
      FindAfterAppend(users[1..], u);
    }
  }

  /** Signing in keeps Google ids unique. */
  lemma FindOrCreateKeepsUnique(users: seq<User>, p: Profile)
    requires UniqueGoogleIds(users)
    ensures UniqueGoogleIds(FindOrCreateUser(users, p).1)
  {
  }

  /** Signing in twice with the same profile: the second call returns the same account and inserts nothing. */
  lemma FindOrCreateIdempotent(users: seq<User>, p: Profile)
    ensures var (r1, after) := FindOrCreateUser(users, p);
            FindOrCreateUser(after, p) == (r1, after)
  {
    if FindByGoogleId(users, p.id).None? && NewUser(p).Some? && p.id != "" {
      FindAfterAppend(users, NewUser(p).value);
    }
  }

  /** The User collection. */
  class UserStore {
    var users: seq<User>

    ghost predicate Valid()
      reads this
    {
      UniqueGoogleIds(users)
    }

    constructor ()
      ensures Valid() && users == []
    {
      users := [];
    }

    /** Runs the sign-in callback against the collection (server.js, the `GoogleStrategy` verify function). */
    method FindOrCreate(p: Profile) returns (r: SignIn)
      requires Valid()
      modifies this
      ensures Valid()
      ensures (r, users) == FindOrCreateUser(old(users), p)
    {
      var found := FindByGoogleId(users, p.id);
      if found.Some? {
        r := SignedIn(found.value);
      } else {
        var created := NewUser(p);
        if created.Some? && SaveAccepts(created.value) {
          users := users + [created.value];
          r := SignedIn(created.value);
        } else {
          r := SignInError;
        }
      }
      FindOrCreateKeepsUnique(old(users), p);
    }
  }
}
