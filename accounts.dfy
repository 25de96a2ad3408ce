/**
  The user router: registration, login, the per-account session list, profile updates and
  the avatar. An `Account` object stands for the stored user document (`req.user` as the
  store keeps it). Whether the store accepts `save()` is not visible here and is passed in as
  `saved`; a handler's changes take effect only when it does, since the in-memory copy of a
  refused save is dropped with the request.
 */
module Accounts {
  import opened Http
  import Upload

  /** A signed bearer token, kept opaque. */
  type Token = string

  /** The fields `PATCH /users/me` may change. */
  const AllowedUpdates: seq<string> := ["name", "email", "password", "age"]

  /** What the user router sends as a document. */
  datatype UserData =
    | Profile(user: Account)
    | Session(user: Account, token: Token)
    | Image(contentType: string, bytes: seq<byte>)

  /** `tokens.filter(({ token }) => token !== current)` */
  function Without(tokens: seq<Token>, current: Token): (rest: seq<Token>)
    ensures forall t :: t in rest <==> t in tokens && t != current
    ensures |rest| <= |tokens|
  {
    if tokens == [] then []
    else (if tokens[0] == current then [] else [tokens[0]]) + Without(tokens[1..], current)
  }

  /** Filtering distributes over concatenation: the surviving tokens keep their relative order. */
  lemma {:induction false} WithoutConcat(a: seq<Token>, b: seq<Token>, current: Token)
    ensures Without(a + b, current) == Without(a, current) + Without(b, current)
  {
    if a == [] {
      assert a + b == b;
    } else {
      assert (a + b)[1..] == a[1..] + b;
      WithoutConcat(a[1..], b, current);
    }
  }

  /** Exactly the occurrences of the current token are removed; every other token keeps its count. */
  lemma {:induction false} WithoutCounts(tokens: seq<Token>, current: Token)
    ensures multiset(Without(tokens, current)) == multiset(tokens)[current := 0]
  {
    if tokens != [] {
      WithoutCounts(tokens[1..], current);
      assert tokens == [tokens[0]] + tokens[1..];
    }
  }

  /** A token that is not in the list leaves the list as it was. */
  lemma {:induction false} WithoutAbsent(tokens: seq<Token>, current: Token)
    requires current !in tokens
    ensures Without(tokens, current) == tokens
  {
    if tokens != [] {
      WithoutAbsent(tokens[1..], current);
    }
  }

  /** Logging out twice with the same token is the same as logging out once. */
  lemma WithoutIdempotent(tokens: seq<Token>, current: Token)
    ensures Without(Without(tokens, current), current) == Without(tokens, current)
  {
    WithoutAbsent(Without(tokens, current), current);
  }

  class Account {
    const id: ObjectId
    var name: Value
    var email: Value
    var password: Value
    var age: Value
    var tokens: seq<Token>
    var avatar: Option<seq<byte>>

    /** `new User(req.body)`: the profile fields come from the body; no session, no avatar. */
    constructor (id: ObjectId, body: Body)
      ensures this.id == id
      ensures name == LookupOr(body, "name", Null) && email == LookupOr(body, "email", Null)
      ensures password == LookupOr(body, "password", Null) && age == LookupOr(body, "age", Null)
      ensures tokens == [] && avatar == None
    {
      this.id := id;
      name := LookupOr(body, "name", Null);
      email := LookupOr(body, "email", Null);
      password := LookupOr(body, "password", Null);
      age := LookupOr(body, "age", Null);
      tokens := [];
      avatar := None;
    }

    /** A request bearing `token` is let through only while the token is in the session list. */
    predicate HasSession(token: Token)
      reads this
    {
      token in tokens
    }

    /** `generateAuthToken`: a new session token is appended to the list. */
    method GenerateAuthToken(token: Token)
      modifies this`tokens
      ensures tokens == old(tokens) + [token]
      ensures HasSession(token)
    {
      tokens := tokens + [token];
    }

    /**
      `POST /users/logout`: the session of the current request ends, every other one survives.
      When the save fails the stored list is as it was, so the token still authenticates.
     */
    method Logout(current: Token, saved: bool) returns (reply: Reply<UserData>)
      modifies this`tokens
      ensures saved ==> tokens == Without(old(tokens), current) && !HasSession(current)
      ensures !saved ==> tokens == old(tokens)
      ensures forall t :: t != current ==> (HasSession(t) <==> old(HasSession(t)))
      ensures reply == Reply(if saved then 204 else 500, Empty)
    {
      if saved {
        tokens := Without(tokens, current);
      }
      reply := Reply(if saved then 204 else 500, Empty);
    }

    /** `POST /users/logout-all`: every session of the account ends, once the save succeeds. */
    method LogoutAll(saved: bool) returns (reply: Reply<UserData>)
      modifies this`tokens
      ensures saved ==> tokens == [] && forall t :: !HasSession(t)
      ensures !saved ==> tokens == old(tokens)
      ensures reply == Reply(if saved then 204 else 500, Empty)
    {
      if saved {
        tokens := [];
      }
      reply := Reply(if saved then 204 else 500, Empty);
    }

    /**
      `PATCH /users/me`: all or nothing. A body naming any field outside the allow-list is
      refused before anything changes; otherwise each supplied field takes the supplied value,
      and a refused save leaves the stored profile as it was.
     */
    method UpdateProfile(body: Body, saved: bool) returns (reply: Reply<UserData>)
      modifies this`name, this`email, this`password, this`age
      ensures !AllAllowed(Keys(body), AllowedUpdates) ==>
                reply == Reply(400, Error(InvalidUpdate)) && unchanged(this)
      ensures AllAllowed(Keys(body), AllowedUpdates) && saved ==>
                && name == LookupOr(body, "name", old(name))
                && email == LookupOr(body, "email", old(email))
                && password == LookupOr(body, "password", old(password))
                && age == LookupOr(body, "age", old(age))
                && reply == Reply(200, Data(Profile(this)))
      ensures AllAllowed(Keys(body), AllowedUpdates) && !saved ==>
                reply == Reply(400, StoreError) && unchanged(this)
    {
      var updates := Keys(body);
      if !AllAllowed(updates, AllowedUpdates) {
        return Reply(400, Error(InvalidUpdate));
      }
      // The handler's copy of the document, written field by field before the save.
      var newName, newEmail, newPassword, newAge := name, email, password, age;
      for i := 0 to |updates|
        invariant unchanged(this)
        invariant newName == Assigned(body, updates[..i], "name", name)
        invariant newEmail == Assigned(body, updates[..i], "email", email)
        invariant newPassword == Assigned(body, updates[..i], "password", password)
        invariant newAge == Assigned(body, updates[..i], "age", age)
      {
        var update := updates[i];
        AssignedStep(body, updates, i, name, "name");
        AssignedStep(body, updates, i, email, "email");
        AssignedStep(body, updates, i, password, "password");
        AssignedStep(body, updates, i, age, "age");
        var value := LookupOr(body, update, Null);
        if update == "name" {
          newName := value;
        } else if update == "email" {
          newEmail := value;
        } else if update == "password" {
          newPassword := value;
        } else {
          assert update == "age";
          newAge := value;
        }
      }
      if !saved {
        return Reply(400, StoreError);
      }
      AssignedAll(body, name, "name");
      AssignedAll(body, email, "email");
      AssignedAll(body, password, "password");
      AssignedAll(body, age, "age");
      name, email, password, age := newName, newEmail, newPassword, newAge;
      reply := Reply(200, Data(Profile(this)));
    }

    /**
      `POST /users/me/avatar`: a file the upload filter refuses yields 400 with the filter's
      message and leaves the avatar alone; otherwise the resized image becomes the avatar.
     */
    method UploadAvatar(originalName: string, resized: seq<byte>) returns (reply: Reply<UserData>)
      modifies this`avatar
      ensures Upload.FileFilter(originalName).Rejected? ==>
                reply == Reply(400, Error(Upload.RejectMessage)) && avatar == old(avatar)
      ensures Upload.FileFilter(originalName).Accepted? ==>
                reply == Reply(200, Empty) && avatar == Some(resized)
    {
      match Upload.FileFilter(originalName)
      case Rejected(message) =>
        reply := Reply(400, Error(message));
      case Accepted(_) =>
        avatar := Some(resized);
        reply := Reply(200, Empty);
    }

    /** `DELETE /users/me/avatar`: the avatar is gone afterwards. */
    method DeleteAvatar() returns (reply: Reply<UserData>)
      modifies this`avatar
      ensures avatar == None
      ensures AvatarReply(this).status == 404
      ensures reply == Reply(200, Empty)
    {
      avatar := None;
      reply := Reply(200, Empty);
    }
  }

  /**
    `GET /users/:id/avatar`, given what `User.findById` produced (`null` for no user, and for
    every lookup that throws): 404 unless the user exists and has an avatar, whose bytes are sent.
   */
  function AvatarReply(user: Account?): (reply: Reply<UserData>)
    reads user
    ensures reply.status == 404 <==> user == null || user.avatar.None?
    ensures reply.status == 404 ==> reply.payload == Empty
    ensures reply.status != 404 ==>
              user != null && user.avatar.Some? &&
              reply == Reply(200, Data(Image("image/png", user.avatar.value)))
  {
    if user == null || user.avatar.None? then Reply(404, Empty)
    else Reply(200, Data(Image("image/png", user.avatar.value)))
  }

  /**
    `POST /users`: the new account is saved, then given its first session. Any failure of
    either save yields 400 with the error; success yields 201 with the user and the token.
    When only the second save fails, the account is stored without a session.
   */
  method Register(id: ObjectId, body: Body, saved: bool, token: Token, tokenSaved: bool)
    returns (user: Account, reply: Reply<UserData>)
    ensures fresh(user) && user.id == id
    ensures user.name == LookupOr(body, "name", Null) && user.email == LookupOr(body, "email", Null)
    ensures user.password == LookupOr(body, "password", Null) && user.age == LookupOr(body, "age", Null)
    ensures user.avatar == None
    ensures !saved ==> user.tokens == [] && reply == Reply(400, StoreError)
    ensures saved ==> user.tokens == if tokenSaved then [token] else []
    ensures saved && tokenSaved ==> reply == Reply(201, Data(Session(user, token)))
    ensures saved && !tokenSaved ==> reply == Reply(400, StoreError)
  {
    user := new Account(id, body);
    if !saved {
      return user, Reply(400, StoreError);
    }
    if tokenSaved {
      user.GenerateAuthToken(token);
    }
    reply := if tokenSaved then Reply(201, Data(Session(user, token))) else Reply(400, StoreError);
  }

  /**
    `POST /users/login`, given what `User.findByCredentials` produced (`null` for every kind
    of failure). Any failure yields 400 with an empty body; a session is stored only when
    `generateAuthToken` manages to save it (`saved`).
   */
  method Login(found: Account?, token: Token, saved: bool) returns (reply: Reply<UserData>)
    modifies found
    ensures found == null ==> reply == Reply(400, Empty)
    ensures found != null ==>
              && found.tokens == old(found.tokens) + (if saved then [token] else [])
              && found.name == old(found.name) && found.email == old(found.email)
              && found.password == old(found.password) && found.age == old(found.age)
              && found.avatar == old(found.avatar)
              && reply == if saved then Reply(200, Data(Session(found, token))) else Reply(400, Empty)
  {
    if found == null {
      return Reply(400, Empty);
    }
    if saved {
      found.GenerateAuthToken(token);
    }
    reply := if saved then Reply(200, Data(Session(found, token))) else Reply(400, Empty);
  }

  /** PATCH with a field outside the allow-list, whatever else it holds, never changes the profile. */
  lemma ForeignFieldRefused(body: Body, key: string)
    requires Lookup(body, key).Some? && key !in AllowedUpdates
    ensures !AllAllowed(Keys(body), AllowedUpdates)
  {
  }

  /**
    A session list seen through a whole visit: log in on two devices, log out the first, fail
    to log out the second (it keeps its session), then log out everywhere.
   */
  method SessionScenario(user: Account, first: Token, second: Token)
    requires first != second
    modifies user
    ensures user.tokens == []
  {
    var old0 := user.tokens;
    var r := Login(user, first, true);
    r := Login(user, second, true);
    r := user.Logout(first, true);
    assert r.status == 204;
    assert !user.HasSession(first) && user.HasSession(second);
    WithoutConcat(old0, [first, second], first);
    r := user.Logout(first, true);
    assert user.HasSession(second);
    r := user.Logout(second, false);
    assert r.status == 500 && user.HasSession(second);
    r := user.LogoutAll(true);
    assert !user.HasSession(second);
  }
}
