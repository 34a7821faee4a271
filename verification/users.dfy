/**
 * The user handlers of server/src/routes/users.rs over in-memory tables:
 * `create_user` (idempotent by public key), `get_user_by_pubkey`, and
 * `manage_subscription`, which rewrites a user's subscription document.
 * `get_usage` is in module Usage.
 */
module Users {
  import opened Wrappers
  import opened Json
  import opened Tables
  import opened Subscriptions
  import Usage

  /** The JSON body `{method, keys}` of a subscription request; `keys` may be absent. */
  datatype SubscriptionPayload = SubscriptionPayload(methodName: string, keys: Option<seq<string>>)

  /** A user row with the API key of its credits row. */
  datatype UserWithApiKey = UserWithApiKey(id: int, pubkey: string, subscriptions: Value, apiKey: Option<string>)

  /** A successful `(StatusCode, String)` answer. */
  datatype Reply = Reply(status: StatusCode, body: string)

  const UpdatedPrefix: string := "Subscriptions updated for user: "

  /** What `create_user` answers, and the users table and id sequence it leaves behind. */
  datatype Creation = Creation(status: StatusCode, user: User, users: seq<User>, nextId: int)

  /**
   * `create_user`: an existing row for the public key is returned as is with
   * 200 and nothing is inserted; otherwise exactly one row with a fresh id and
   * a JSON null document is inserted and returned with 201. Either way the public
   * key then resolves to the returned row.
   */
  function CreateUserSpec(users: seq<User>, nextId: int, pubkey: string): (r: Creation)
    ensures r.status == OK || r.status == Created
    ensures r.status == OK <==> Lookup(users, pubkey).Some?
    ensures r.user.pubkey == pubkey
    ensures Lookup(r.users, pubkey).Some? && r.users[Lookup(r.users, pubkey).value] == r.user
    ensures r.status == OK ==> r.users == users && r.nextId == nextId
    ensures r.status == Created ==>
      && r.users == users + [r.user]
      && r.user.subscriptions == Null
      && r.nextId > nextId
    ensures UsersValid(users, nextId) && r.status == Created ==>
      forall i :: 0 <= i < |users| ==> users[i].id != r.user.id
    ensures UsersValid(users, nextId) ==> UsersValid(r.users, r.nextId)
  {
    match Lookup(users, pubkey)
    case Some(i) => Creation(OK, users[i], users, nextId)
    case None =>
      var user := User(nextId, pubkey, Null);
      var users' := users + [user];
      assert users'[|users|] == user;
      assert Lookup(users', pubkey) == Some(|users|);
      Creation(Created, user, users', nextId + 1)
  }

  /** Creating the same public key twice returns the same row, with 200 the second time, and inserts once. */
  lemma CreateUserIdempotent(users: seq<User>, nextId: int, pubkey: string)
    requires UsersValid(users, nextId)
    ensures var first := CreateUserSpec(users, nextId, pubkey);
      var second := CreateUserSpec(first.users, first.nextId, pubkey);
      && second.status == OK
      && second.user == first.user
      && second.users == first.users
      && |second.users| <= |users| + 1
  {
  }

  /**
   * `SELECT api_key FROM credits WHERE user_id = $1` read as a `String` with
   * `fetch_optional`: no row gives None, and a row whose api_key is NULL
   * cannot be read as a String, which is a server error.
   */
  function ApiKeyOf(credits: seq<CreditRow>, userId: int): (r: Result<Option<string>, HttpError>)
    ensures r.Err? <==> CreditRowOf(credits, userId).Some? && credits[CreditRowOf(credits, userId).value].apiKey.None?
    ensures r.Err? ==> r.error.status == InternalServerError
    ensures r.Ok? ==> (r.value.None? <==> CreditRowOf(credits, userId).None?)
    ensures r.Ok? && r.value.Some? ==> r.value == credits[CreditRowOf(credits, userId).value].apiKey
  {
    match CreditRowOf(credits, userId)
    case None => Ok(None)
    case Some(i) =>
      if credits[i].apiKey.Some? then Ok(credits[i].apiKey)
      else Err(HttpError(InternalServerError, "Failed to query user API-key"))
  }

  /** The `get_user_by_pubkey` handler. */
  function GetUserByPubkey(users: seq<User>, credits: seq<CreditRow>, pubkey: string): (r: Result<UserWithApiKey, HttpError>)
    ensures Lookup(users, pubkey).None? <==> r == Err(UserNotFound)
    ensures r.Ok? ==>
      var u := users[Lookup(users, pubkey).value];
      && r.value.id == u.id && r.value.pubkey == pubkey && r.value.subscriptions == u.subscriptions
      && ApiKeyOf(credits, u.id).Ok? && r.value.apiKey == ApiKeyOf(credits, u.id).value
    ensures Lookup(users, pubkey).Some? ==>
      (r.Err? <==> ApiKeyOf(credits, users[Lookup(users, pubkey).value].id).Err?)
    ensures Lookup(users, pubkey).Some? && r.Err? ==>
      r.error == ApiKeyOf(credits, users[Lookup(users, pubkey).value].id).error
  {
    match Lookup(users, pubkey)
    case None => Err(UserNotFound)
    case Some(i) =>
      var user := users[i];
      match ApiKeyOf(credits, user.id)
      case Err(e) => Err(e)
      case Ok(apiKey) => Ok(UserWithApiKey(user.id, user.pubkey, user.subscriptions, apiKey))
  }

  /**
   * The tables behind the handlers. `users` and its id sequence are written
   * here; `credits`, `transactions` and `packages` are only read here (by
   * UserByPubkey and UsageOf) and written by the credit handlers, which are
   * not part of this model.
   */
  class Database {
    var users: seq<User>
    var nextUserId: int
    var credits: seq<CreditRow>
    var transactions: seq<TxRow>
    var packages: seq<Package>

    ghost predicate Valid()
      reads this
    {
      UsersValid(users, nextUserId)
    }

    constructor (users: seq<User>, nextUserId: int, credits: seq<CreditRow>, transactions: seq<TxRow>, packages: seq<Package>)
      requires UsersValid(users, nextUserId)
      ensures Valid()
      ensures this.users == users && this.nextUserId == nextUserId
      ensures this.credits == credits && this.transactions == transactions && this.packages == packages
    {
      this.users := users;
      this.nextUserId := nextUserId;
      this.credits := credits;
      this.transactions := transactions;
      this.packages := packages;
    }

    /** `create_user`: look the public key up, and insert a row only when it is absent. */
    method CreateUser(pubkey: string) returns (status: StatusCode, user: User)
      requires Valid()
      modifies this`users, this`nextUserId
      ensures Valid()
      ensures Creation(status, user, users, nextUserId) == CreateUserSpec(old(users), old(nextUserId), pubkey)
    {
      var existing := Lookup(users, pubkey);
      if existing.Some? {
        return OK, users[existing.value];
      }
      user := User(nextUserId, pubkey, Null);
      users := users + [user];
      nextUserId := nextUserId + 1;
      status := Created;
    }

    /** `get_user_by_pubkey` on the stored tables; it writes nothing. */
    method UserByPubkey(pubkey: string) returns (r: Result<UserWithApiKey, HttpError>)
      ensures r == GetUserByPubkey(users, credits, pubkey)
    {
      r := GetUserByPubkey(users, credits, pubkey);
    }

    /** `get_usage` on the stored tables; it writes nothing. */
    method UsageOf(pubkey: string) returns (r: Result<Usage.UsageResponse, HttpError>)
      ensures r == Usage.GetUsage(users, credits, transactions, packages, pubkey)
    {
      r := Usage.GetUsage(users, credits, transactions, packages, pubkey);
    }

    /**
     * `manage_subscription`: read the user's document (JSON null as {}), apply the
     * payload and write the whole document back, answering 200 with the
     * confirmation text; an unknown public key answers 404 and writes nothing.
     */
    method ManageSubscription(pubkey: string, payload: SubscriptionPayload) returns (r: Result<Reply, HttpError>)
      requires Valid()
      requires forall i :: 0 <= i < |users| && users[i].pubkey == pubkey ==>
        Applicable(users[i].subscriptions, payload.methodName, payload.keys)
      modifies this`users
      ensures Valid()
      ensures Lookup(old(users), pubkey).None? ==> r == Err(UserNotFound) && users == old(users)
      ensures Lookup(old(users), pubkey).Some? ==>
        var i := Lookup(old(users), pubkey).value;
        var doc := old(users)[i].subscriptions;
        && r == Ok(Reply(OK, UpdatedPrefix + pubkey))
        && users == old(users)[i := old(users)[i].(subscriptions := ApplyPayload(doc, payload.methodName, payload.keys))]
    {
      var found := Lookup(users, pubkey);
      if found.None? {
        return Err(UserNotFound);
      }
      var i := found.value;
      var doc := RewriteDocument(users[i].subscriptions, payload.methodName, payload.keys);
      users := users[i := users[i].(subscriptions := doc)];
      r := Ok(Reply(OK, UpdatedPrefix + users[i].pubkey));
    }
  }

  /**
   * An unknown public key is answered with 404 "User not found" by
   * `get_user_by_pubkey` and `get_usage` alike (and by `manage_subscription`,
   * see Database.ManageSubscription).
   */
  lemma UnknownPubkeyNotFound(
    users: seq<User>, credits: seq<CreditRow>, transactions: seq<TxRow>, packages: seq<Package>, pubkey: string)
    requires forall i :: 0 <= i < |users| ==> users[i].pubkey != pubkey
    ensures GetUserByPubkey(users, credits, pubkey) == Err(UserNotFound)
    ensures Usage.GetUsage(users, credits, transactions, packages, pubkey) == Err(UserNotFound)
  {
  }
}
