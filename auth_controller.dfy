/**
 * The authentication controller over the `Users` collection, whose `name` and `email` are
 * unique indexes. `Register` checks the fields and the e-mail before creating a user;
 * `Login` looks the e-mail up and compares the stored password. Responses carry the user
 * without its password.
 */
module AuthController {
  import opened Wrappers
  import opened JsText

  /** A user document, with the fields the controller reads or writes. */
  datatype User = User(name: string, email: string, password: string)

  /** The user as a response shows it: every field but the password. */
  datatype PublicUser = PublicUser(name: string, email: string)

  function Public(u: User): PublicUser {
    PublicUser(u.name, u.email)
  }

  /** The fields read from the request body. */
  datatype Credentials = Credentials(name: Option<string>, email: Option<string>, password: Option<string>)

  predicate HasEmail(users: seq<User>, email: string) {
    exists i :: 0 <= i < |users| && users[i].email == email
  }

  predicate HasName(users: seq<User>, name: string) {
    exists i :: 0 <= i < |users| && users[i].name == name
  }

  /** The two unique indexes. */
  predicate UniqueUsers(users: seq<User>) {
    forall i, j :: 0 <= i < j < |users| ==> users[i].email != users[j].email && users[i].name != users[j].name
  }

  /** `findOne({ email })`: the first user with the e-mail. */
  function FindByEmail(users: seq<User>, email: string): (r: Option<nat>)
    ensures r.Some? ==> r.value < |users| && users[r.value].email == email
    ensures r.None? <==> !HasEmail(users, email)
  {
    if users == [] then None
    else if users[0].email == email then Some(0)
    else match FindByEmail(users[1..], email)
      case None =>
        assert forall i :: 1 <= i < |users| ==> users[i] == users[1..][i - 1];
        None
      case Some(i) => Some(i + 1)
  }

  /** The status, the new collection and the response user of `Register`: 400 for a
      missing field and for a registered e-mail, 500 when `User.create` breaks the unique
      name index, otherwise 201 and one new user. */
  function Registered(users: seq<User>, body: Credentials): (r: (int, seq<User>, Option<PublicUser>))
    ensures r.0 in {201, 400, 500}
    ensures r.0 != 201 ==> r.1 == users && r.2.None?
    ensures r.0 == 201 ==> |r.1| == |users| + 1 && r.1[..|users|] == users && r.2 == Some(Public(r.1[|users|]))
  {
    if !Truthy(body.name) || !Truthy(body.email) || !Truthy(body.password) then (400, users, None)
    else if HasEmail(users, body.email.value) then (400, users, None)
    else if HasName(users, body.name.value) then (500, users, None)
    else
      var u := User(body.name.value, body.email.value, body.password.value);
      (201, users + [u], Some(Public(u)))
  }

  /** Registration succeeds exactly for three non-empty fields whose e-mail and name are
      both new; duplicates are found by e-mail first. */
  lemma {:induction false} RegisteredOutcome(users: seq<User>, body: Credentials)
    ensures var status := Registered(users, body).0;
      (status == 201 <==> Truthy(body.name) && Truthy(body.email) && Truthy(body.password) &&
                          !HasEmail(users, body.email.value) && !HasName(users, body.name.value)) &&
      (status == 500 <==> Truthy(body.name) && Truthy(body.email) && Truthy(body.password) &&
                          !HasEmail(users, body.email.value) && HasName(users, body.name.value))
  {
  }

  lemma {:induction false} RegisteredKeepsUnique(users: seq<User>, body: Credentials)
    requires UniqueUsers(users)
    ensures UniqueUsers(Registered(users, body).1)
  {
    var r := Registered(users, body);
    if r.0 == 201 {
      forall i, j | 0 <= i < j < |r.1|
        ensures r.1[i].email != r.1[j].email && r.1[i].name != r.1[j].name
      {
        if j == |users| {
          assert r.1[i] == users[i];
        }
      }
    }
  }

  /** `Login`: 400 for a missing field; 401, with one message, for an unknown e-mail and
      for a wrong password alike; 200 and the user without its password otherwise. */
  function Login(users: seq<User>, email: Option<string>, password: Option<string>): (r: (int, Option<PublicUser>))
    ensures r.0 in {200, 400, 401}
    ensures r.0 == 200 <==> r.1.Some?
    ensures r.0 == 400 <==> !Truthy(email) || !Truthy(password)
    ensures r.1.Some? ==> exists i :: 0 <= i < |users| && users[i].email == email.value &&
                                      users[i].password == password.value && Public(users[i]) == r.1.value
  {
    if !Truthy(email) || !Truthy(password) then (400, None)
    else match FindByEmail(users, email.value)
      case None => (401, None)
      case Some(k) =>
        if users[k].password != password.value then (401, None)
        else (200, Some(Public(users[k])))
  }

  /** With unique e-mails, a login succeeds exactly when some user has that e-mail and
      exactly that password. */
  lemma {:induction false} LoginIff(users: seq<User>, email: string, password: string)
    requires UniqueUsers(users) && email != "" && password != ""
    ensures Login(users, Some(email), Some(password)).0 == 200 <==>
      exists i :: 0 <= i < |users| && users[i].email == email && users[i].password == password
  {
    if exists i :: 0 <= i < |users| && users[i].email == email && users[i].password == password {
      var i :| 0 <= i < |users| && users[i].email == email && users[i].password == password;
      var k := FindByEmail(users, email).value;
      assert users[k].email == users[i].email;
    }
  }

  /** A user who has just registered can log in with the same e-mail and password, and
      gets back the name and e-mail they registered. */
  lemma {:induction false} RegisterThenLogin(users: seq<User>, body: Credentials)
    requires UniqueUsers(users)
    requires Registered(users, body).0 == 201
    ensures Login(Registered(users, body).1, body.email, body.password) ==
      (200, Some(PublicUser(body.name.value, body.email.value)))
  {
    var after := Registered(users, body).1;
    RegisteredKeepsUnique(users, body);
    assert after[|users|].email == body.email.value && after[|users|].password == body.password.value;
    LoginIff(after, body.email.value, body.password.value);
    assert !HasEmail(users, body.email.value);
  }

  /** The `Users` collection. */
  class UserStore {
    var users: seq<User>

    predicate Valid()
      reads this
    {
      UniqueUsers(users)
    }

    constructor ()
      ensures Valid() && users == []
    {
      users := [];
    }

    /** `Register`: `findOne` by e-mail, then `User.create`. */
    method Register(body: Credentials) returns (status: int, user: Option<PublicUser>)
      requires Valid()
      modifies this
      ensures Valid()
      ensures (status, users, user) == Registered(old(users), body)
    {
      RegisteredKeepsUnique(users, body);
      if !Truthy(body.name) || !Truthy(body.email) || !Truthy(body.password) {
        return 400, None;
      }
      var email := body.email.value;
      var name := body.name.value;
      var i := 0;
      var nameTaken := false;
      while i < |users|
        invariant 0 <= i <= |users|
        invariant forall k :: 0 <= k < i ==> users[k].email != email
        invariant nameTaken <==> exists k :: 0 <= k < i && users[k].name == name
      {
        if users[i].email == email {
          return 400, None;
        }
        nameTaken := nameTaken || users[i].name == name;
        i := i + 1;
      }
      if nameTaken {
        return 500, None;
      }
      var u := User(name, email, body.password.value);
      users := users + [u];
      status, user := 201, Some(Public(u));
    }
  }
}
