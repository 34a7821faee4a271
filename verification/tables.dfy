/**
 * The rows of the four tables the user handlers read and write (users,
 * credits, transactions, packages), the HTTP status codes they answer with,
 * and the "first row WHERE ..." lookups that `fetch_optional` and
 * `fetch_one` perform.
 */
module Tables {
  import opened Wrappers
  import opened Json

  /** Rust's i32 (Postgres INT4) and i64. */
  type int32 = x: int | -0x8000_0000 <= x < 0x8000_0000
  type int64 = x: int | -0x8000_0000_0000_0000 <= x < 0x8000_0000_0000_0000

  /** A row of `users`: the internal id, the public key and the subscription document. */
  datatype User = User(id: int, pubkey: string, subscriptions: Value)

  /** A row of `credits`; both columns may be NULL. */
  datatype CreditRow = CreditRow(userId: int, remainingRequests: Option<int32>, apiKey: Option<string>)

  /** A row of `transactions`: one completed purchase of a package. Timestamps are integers. */
  datatype TxRow = TxRow(id: int32, userId: int, packageId: int32, createdAt: int)

  /** A row of `packages`; `price_usdc` is an exact decimal, modelled as a real. */
  datatype Package = Package(id: int32, priceUsdc: real)

  /** The status codes the handlers answer with: 200, 201, 404 and 500. */
  datatype StatusCode = OK | Created | NotFound | InternalServerError

  /** The `(StatusCode, String)` pair a handler returns as its error. */
  datatype HttpError = HttpError(status: StatusCode, message: string)

  const UserNotFound := HttpError(NotFound, "User not found")

  /** Index of the first element of `s` that satisfies `p`: the row a query returns first. */
  function FirstWhere<T>(s: seq<T>, p: T -> bool): (r: Option<nat>)
    ensures r.Some? ==> r.value < |s| && p(s[r.value]) && forall j :: 0 <= j < r.value ==> !p(s[j])
    ensures r.None? <==> forall j :: 0 <= j < |s| ==> !p(s[j])
  {
    if |s| == 0 then None
    else if p(s[0]) then Some(0)
    else match FirstWhere(s[1..], p)
      case None => None
      case Some(i) => Some(i + 1)
  }

  /** `SELECT ... FROM users WHERE pubkey = $1` with `fetch_optional`. */
  function Lookup(users: seq<User>, pubkey: string): (r: Option<nat>)
    ensures r.Some? ==> r.value < |users| && users[r.value].pubkey == pubkey
    ensures r.Some? ==> forall j :: 0 <= j < r.value ==> users[j].pubkey != pubkey
    ensures r.None? <==> forall j :: 0 <= j < |users| ==> users[j].pubkey != pubkey
  {
    FirstWhere(users, (u: User) => u.pubkey == pubkey)
  }

  /** `... FROM credits WHERE user_id = $1`: the first credits row of a user. */
  function CreditRowOf(credits: seq<CreditRow>, userId: int): (r: Option<nat>)
    ensures r.Some? ==> r.value < |credits| && credits[r.value].userId == userId
    ensures r.Some? ==> forall j :: 0 <= j < r.value ==> credits[j].userId != userId
    ensures r.None? <==> forall j :: 0 <= j < |credits| ==> credits[j].userId != userId
  {
    FirstWhere(credits, (c: CreditRow) => c.userId == userId)
  }

  /**
   * The users table as the handlers keep it: public keys and ids unique, every
   * id below the next one the id sequence hands out.
   */
  predicate UsersValid(users: seq<User>, nextId: int)
  {
    && (forall i, j :: 0 <= i < j < |users| ==> users[i].pubkey != users[j].pubkey)
    && (forall i, j :: 0 <= i < j < |users| ==> users[i].id != users[j].id)
    && (forall i :: 0 <= i < |users| ==> users[i].id < nextId)
  }
}
