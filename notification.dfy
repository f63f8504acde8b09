/** Push-notification token bookkeeping: saving a device token on a user and
    deciding, per user, which tokens a notification goes to. Delivery itself
    (Firebase) is outside the model; `Send` yields the dispatch plan. */
module Notification {
  import opened Wrappers

  type UserId = nat

  /** `user.notification`: for each platform type (`web`, `android`, `ios`) its
      `token` list. */
  type Tokens = map<string, seq<string>>

  datatype UserDoc = UserDoc(id: UserId, notification: Option<Tokens>)

  /** The request body `{type, value}` of `saveUserToken`. */
  datatype Token = Token(kind: Option<string>, value: Option<string>)

  datatype NotifyError =
    | Thrown(message: string)  // an `Error` thrown with this message
    | TypeError                // a property read on `undefined` / `null`

  const MsgMissingArguments := "Notification.send: missing user(s) and/or payload"
  const MsgMissingBody := "Missing body = {type, value} - Body object must be {type: string, value: string}"
  const MsgNoTokens := "Provided users have not tokens"

  predicate NoDuplicates(s: seq<string>) {
    forall i, j :: 0 <= i < j < |s| ==> s[i] != s[j]
  }

  // ------------------------------------------------------------------
  // Saving a token
  // ------------------------------------------------------------------

  /** The user record `saveUserToken` stores for `token`, or its error. `user`
      is what the lookup by id found. A token already on that platform leaves
      the record as it is. */
  function WithToken(user: Option<UserDoc>, token: Token): (r: Result<UserDoc, NotifyError>)
    ensures r.Success? ==> user.Some? && r.value.id == user.value.id
    ensures r == Failure(Thrown(MsgMissingBody)) <==> !Truthy(token.kind) || !Truthy(token.value)
    ensures r == Failure(TypeError) <==>
              Truthy(token.kind) && Truthy(token.value) &&
              (user.None? || (user.value.notification.Some? && token.kind.value !in user.value.notification.value))
  {
    if !Truthy(token.kind) || !Truthy(token.value) then Failure(Thrown(MsgMissingBody))
    else if user.None? then Failure(TypeError)
    else
      var u, kind, value := user.value, token.kind.value, token.value.value;
      match u.notification
      case None => Success(u.(notification := Some(map[kind := [value]])))
      case Some(n) =>
        if kind !in n then Failure(TypeError)
        else if value in n[kind] then Success(u)
        else Success(u.(notification := Some(n[kind := n[kind] + [value]])))
  }

  /** A body without a truthy `type` or `value` is refused before anything else. */
  lemma MissingBodyRefused(user: Option<UserDoc>, token: Token)
    requires !Truthy(token.kind) || !Truthy(token.value)
    ensures WithToken(user, token) == Failure(Thrown(MsgMissingBody))
  {
  }

  /** A successful save puts the token on its platform: appended when new, the
      record unchanged when already there, and every other platform untouched.
      A user without notification data gets one holding only that platform. */
  lemma SaveTokenEffect(u: UserDoc, token: Token)
    requires WithToken(Some(u), token).Success?
    ensures var r := WithToken(Some(u), token).value;
      var kind, value := token.kind.value, token.value.value;
      && r.notification.Some?
      && kind in r.notification.value
      && value in r.notification.value[kind]
      && (u.notification.None? ==> r.notification.value == map[kind := [value]])
      && (u.notification.Some? ==>
            && kind in u.notification.value
            && r.notification.value.Keys == u.notification.value.Keys
            && r.notification.value[kind]
               == (if value in u.notification.value[kind] then u.notification.value[kind]
                   else u.notification.value[kind] + [value])
            && (forall p :: p in u.notification.value && p != kind ==>
                  r.notification.value[p] == u.notification.value[p]))
  {
  }

  /** Saving the same token twice changes nothing the second time. */
  lemma SaveTokenIdempotent(u: UserDoc, token: Token)
    requires WithToken(Some(u), token).Success?
    ensures var r := WithToken(Some(u), token).value;
      WithToken(Some(r), token) == Success(r)
  {
    SaveTokenEffect(u, token);
  }

  /** Saving is set insertion: a token list without duplicates keeps none. */
  lemma SaveTokenKeepsListsDuplicateFree(u: UserDoc, token: Token)
    requires WithToken(Some(u), token).Success?
    requires u.notification.Some? ==> forall p :: p in u.notification.value ==> NoDuplicates(u.notification.value[p])
    ensures var r := WithToken(Some(u), token).value;
      forall p :: p in r.notification.value ==> NoDuplicates(r.notification.value[p])
  {
    SaveTokenEffect(u, token);
    var r := WithToken(Some(u), token).value;
    var kind, value := token.kind.value, token.value.value;
    if u.notification.Some? && value !in u.notification.value[kind] {
      var old_ := u.notification.value[kind];
      assert r.notification.value[kind] == old_ + [value];
      assert forall i :: 0 <= i < |old_| ==> old_[i] != value;
    }
  }

  /** The users collection `saveUserToken` reads and writes. */
  class UserCollection {
    var users: map<UserId, UserDoc>

    ghost predicate Valid()
      reads this
    {
      forall id :: id in users ==> users[id].id == id
    }

    constructor (initial: map<UserId, UserDoc>)
      requires forall id :: id in initial ==> initial[id].id == id
      ensures Valid() && users == initial
    {
      users := initial;
    }

    /** `saveUserToken(user, token)`: find the user, add the token, store the
        record; on an error nothing is stored. */
    method SaveUserToken(id: UserId, token: Token) returns (r: Result<UserDoc, NotifyError>)
      requires Valid()
      modifies this
      ensures Valid()
      ensures r == WithToken(if id in old(users) then Some(old(users)[id]) else None, token)
      ensures users == if r.Success? then old(users)[id := r.value] else old(users)
    {
      var found: Option<UserDoc> := if id in users then Some(users[id]) else None;
      if !Truthy(token.kind) || !Truthy(token.value) {
        return Failure(Thrown(MsgMissingBody));
      }
      if found.None? {
        return Failure(TypeError);
      }
      var user := found.value;
      var kind, value := token.kind.value, token.value.value;
      if user.notification.Some? {
        var n := user.notification.value;
        if kind !in n {
          return Failure(TypeError);
        }
        if value in n[kind] {
          return Success(user);
        }
        user := user.(notification := Some(n[kind := n[kind] + [value]]));
      } else {
        user := user.(notification := Some(map[kind := [value]]));
      }
      users := users[id := user];
      r := Success(user);
    }
  }

  // ------------------------------------------------------------------
  // Sending
  // ------------------------------------------------------------------

  /** The `users` argument of `send`: absent, one user, or an array. */
  datatype Users = NoUsers | One(user: UserDoc) | Many(list: seq<UserDoc>)

  datatype Payload = Payload(title: string, body: string)

  /** What `send` does for one user: hand the tokens to the push service, or
      record the failure when there are none. */
  datatype Dispatch =
    | Deliver(user: UserId, tokens: seq<string>)
    | NoTokens(user: UserId, errorMessage: string)

  /** A single user is treated as a one-element list. */
  function AsList(users: Users): seq<UserDoc>
    requires !users.NoUsers?
  {
    match users
    case One(u) => [u]
    case Many(us) => us
  }

  function PlatformTokens(n: Tokens, platform: string): seq<string> {
    if platform in n then n[platform] else []
  }

  /** A user's tokens: web, then android, then ios; absent platforms add nothing. */
  function TokenList(n: Tokens): seq<string> {
    PlatformTokens(n, "web") + PlatformTokens(n, "android") + PlatformTokens(n, "ios")
  }

  function DispatchFor(u: UserDoc): Dispatch
    requires u.notification.Some?
  {
    var tokens := TokenList(u.notification.value);
    if |tokens| > 0 then Deliver(u.id, tokens) else NoTokens(u.id, MsgNoTokens)
  }

  /** Exactly the users with no token on any of the three platforms get the
      failure record; the others get every one of their tokens. */
  lemma DispatchChoice(u: UserDoc)
    requires u.notification.Some?
    ensures var n := u.notification.value;
      && (DispatchFor(u).NoTokens? <==>
            PlatformTokens(n, "web") == [] && PlatformTokens(n, "android") == [] && PlatformTokens(n, "ios") == [])
      && (DispatchFor(u).Deliver? ==>
            forall p, t :: p in ["web", "android", "ios"] && t in PlatformTokens(n, p) ==> t in DispatchFor(u).tokens)
  {
  }

  /** A token saved for one of the three platforms is among the tokens the next
      notification is delivered to. */
  lemma SavedTokenIsDelivered(u: UserDoc, token: Token)
    requires WithToken(Some(u), token).Success?
    requires token.kind.value in ["web", "android", "ios"]
    ensures var r := WithToken(Some(u), token).value;
      r.notification.Some? && DispatchFor(r).Deliver? && token.value.value in DispatchFor(r).tokens
  {
    SaveTokenEffect(u, token);
    var r := WithToken(Some(u), token).value;
    var n := r.notification.value;
    var kind, value := token.kind.value, token.value.value;
    assert value in PlatformTokens(n, kind);
    assert value in TokenList(n);
  }

  /** The argument checks and per-user token collection of `send(users,
      payload)`. Reading the tokens of a user without notification data
      throws, which ends the loop: the users before it have been handled. */
  method Send(users: Users, payload: Option<Payload>) returns (plan: seq<Dispatch>, err: Option<NotifyError>)
    ensures users.NoUsers? || payload.None? ==> plan == [] && err == Some(Thrown(MsgMissingArguments))
    ensures !users.NoUsers? && payload.Some? ==>
      var list := AsList(users);
      && |plan| <= |list|
      && (forall i :: 0 <= i < |plan| ==> list[i].notification.Some? && plan[i] == DispatchFor(list[i]))
      && (err.None? ==> |plan| == |list|)
      && (err.Some? ==> err == Some(TypeError) && |plan| < |list| && list[|plan|].notification.None?)
  {
    if users.NoUsers? || payload.None? {
      return [], Some(Thrown(MsgMissingArguments));
    }
    var list := if users.One? then [users.user] else users.list;
    assert list == AsList(users);
    plan, err := [], None;
    var i := 0;
    while i < |list|
      invariant 0 <= i <= |list|
      invariant |plan| == i
      invariant forall k :: 0 <= k < i ==> list[k].notification.Some? && plan[k] == DispatchFor(list[k])
    {
      var user := list[i];
      if user.notification.None? {
        return plan, Some(TypeError);
      }
      var n := user.notification.value;
      var tokens: seq<string> := [];
      if "web" in n { tokens := tokens + n["web"]; }
      if "android" in n { tokens := tokens + n["android"]; }
      if "ios" in n { tokens := tokens + n["ios"]; }
      assert tokens == TokenList(n);
      if |tokens| > 0 {
        assert Deliver(user.id, tokens) == DispatchFor(user);
        plan := plan + [Deliver(user.id, tokens)];
      } else {
        assert NoTokens(user.id, MsgNoTokens) == DispatchFor(user);
        plan := plan + [NoTokens(user.id, MsgNoTokens)];
      }
      i := i + 1;
    }
  }
}
