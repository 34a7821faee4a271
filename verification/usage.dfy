/**
 * The usage summary of `get_usage` (server/src/routes/users.rs): remaining
 * credits, the latest purchase joined to its package price, and the total
 * spent over all of the user's purchases.
 */
module Usage {
  import opened Wrappers
  import opened Tables

  /** A purchase joined to the price of its package (the `Transaction` response shape). */
  datatype Transaction = Transaction(id: int32, packageId: int32, amountUsdc: real, createdAt: int)

  datatype UsageResponse = UsageResponse(
    remainingCredits: int64,
    lastTransaction: Option<Transaction>,
    totalSpentUsdc: real)

  function JoinRow(t: TxRow, p: Package): Transaction
  {
    Transaction(t.id, t.packageId, p.priceUsdc, t.createdAt)
  }

  /** `t JOIN packages p ON t.package_id = p.id` for one purchase: one row per matching package. */
  function JoinPackages(t: TxRow, packages: seq<Package>): (r: seq<Transaction>)
    ensures forall x :: x in r ==> x.id == t.id && x.packageId == t.packageId && x.createdAt == t.createdAt
    ensures |r| <= |packages|
  {
    if packages == [] then []
    else
      var p := packages[|packages| - 1];
      JoinPackages(t, packages[..|packages| - 1]) + (if p.id == t.packageId then [JoinRow(t, p)] else [])
  }

  /** The rows of `transactions t JOIN packages p ON t.package_id = p.id WHERE t.user_id = $1`. */
  function Joined(transactions: seq<TxRow>, packages: seq<Package>, userId: int): (r: seq<Transaction>)
    ensures (forall i :: 0 <= i < |transactions| ==> transactions[i].userId != userId) ==> r == []
    ensures packages == [] ==> r == []
  {
    if transactions == [] then []
    else
      var t := transactions[|transactions| - 1];
      Joined(transactions[..|transactions| - 1], packages, userId)
        + (if t.userId == userId then JoinPackages(t, packages) else [])
  }

  /**
   * `ORDER BY t.created_at DESC LIMIT 1`: a row with the greatest timestamp, or
   * None when there is no row. SQL leaves the choice among equal timestamps
   * open; this picks the earliest such row.
   */
  function Latest(rows: seq<Transaction>): (r: Option<Transaction>)
    ensures r.None? <==> rows == []
    ensures r.Some? ==> r.value in rows && forall x :: x in rows ==> x.createdAt <= r.value.createdAt
  {
    if rows == [] then None
    else
      var init, last := rows[..|rows| - 1], rows[|rows| - 1];
      assert rows == init + [last];
      match Latest(init)
      case None => Some(last)
      case Some(best) => if last.createdAt > best.createdAt then Some(last) else Some(best)
  }

  /**
   * `COALESCE(SUM(p.price_usdc), 0)` over the joined rows: the sum of no rows
   * is exactly 0, and a sum of amounts none of which is negative is not negative.
   */
  function TotalAmount(rows: seq<Transaction>): (r: real)
    ensures rows == [] ==> r == 0.0
    ensures (forall x :: x in rows ==> x.amountUsdc >= 0.0) ==> r >= 0.0
  {
    if rows == [] then 0.0 else TotalAmount(rows[..|rows| - 1]) + rows[|rows| - 1].amountUsdc
  }

  /**
   * `SELECT COALESCE(remaining_requests, 0) FROM credits WHERE user_id = $1`
   * with `fetch_one`, widened to i64: a NULL balance reads as 0, and a user
   * without a credits row is a server error, not a zero balance.
   */
  function RemainingCredits(credits: seq<CreditRow>, userId: int): (r: Result<int64, HttpError>)
    ensures CreditRowOf(credits, userId).None? <==> r.Err?
    ensures r.Err? ==> r.error.status == InternalServerError
    ensures r.Ok? ==> var c := credits[CreditRowOf(credits, userId).value];
      r.value == if c.remainingRequests.Some? then c.remainingRequests.value else 0
  {
    match CreditRowOf(credits, userId)
    case None => Err(HttpError(InternalServerError, "Error querying remaining credits"))
    case Some(i) =>
      var remaining := credits[i].remainingRequests;
      Ok(if remaining.Some? then remaining.value as int64 else 0)
  }

  /** The `get_usage` handler. */
  function GetUsage(
    users: seq<User>, credits: seq<CreditRow>, transactions: seq<TxRow>, packages: seq<Package>,
    pubkey: string): (r: Result<UsageResponse, HttpError>)
    ensures Lookup(users, pubkey).None? ==> r == Err(UserNotFound)
    ensures Lookup(users, pubkey).Some? ==>
      var userId := users[Lookup(users, pubkey).value].id;
      var rows := Joined(transactions, packages, userId);
      && (r.Ok? <==> CreditRowOf(credits, userId).Some?)
      && (r.Err? ==> r.error.status == InternalServerError)
      && (r.Ok? ==> r.value.remainingCredits == RemainingCredits(credits, userId).value)
      && (r.Ok? ==> (r.value.lastTransaction.None? <==> rows == []))
      && (r.Ok? && r.value.lastTransaction.Some? ==>
            r.value.lastTransaction.value in rows &&
            forall x :: x in rows ==> x.createdAt <= r.value.lastTransaction.value.createdAt)
      && (r.Ok? ==> r.value.totalSpentUsdc == TotalAmount(rows))
      && (r.Ok? && rows == [] ==> r.value.totalSpentUsdc == 0.0)
  {
    match Lookup(users, pubkey)
    case None => Err(UserNotFound)
    case Some(i) =>
      var userId := users[i].id;
      match RemainingCredits(credits, userId)
      case Err(e) => Err(e)
      case Ok(remaining) =>
        var rows := Joined(transactions, packages, userId);
        Ok(UsageResponse(remaining, Latest(rows), TotalAmount(rows)))
  }

  /** The rows of one purchase's join are exactly its pairings with the packages of the same id. */
  lemma {:induction false} JoinPackagesMembers(t: TxRow, packages: seq<Package>)
    ensures forall row :: row in JoinPackages(t, packages) ==>
      exists j :: 0 <= j < |packages| && packages[j].id == t.packageId && row == JoinRow(t, packages[j])
    ensures forall j :: 0 <= j < |packages| && packages[j].id == t.packageId ==>
      JoinRow(t, packages[j]) in JoinPackages(t, packages)
  {
    if packages != [] {
      var init := packages[..|packages| - 1];
      JoinPackagesMembers(t, init);
      assert forall j :: 0 <= j < |init| ==> init[j] == packages[j];
    }
  }

  /**
   * The joined rows are exactly the pairings of the user's purchases with the
   * packages they refer to; a purchase whose package is missing contributes nothing.
   */
  lemma {:induction false} JoinedMembers(transactions: seq<TxRow>, packages: seq<Package>, userId: int)
    ensures forall row :: row in Joined(transactions, packages, userId) ==>
      exists i, j :: 0 <= i < |transactions| && 0 <= j < |packages| && transactions[i].userId == userId
        && packages[j].id == transactions[i].packageId && row == JoinRow(transactions[i], packages[j])
    ensures forall i, j ::
      (0 <= i < |transactions| && 0 <= j < |packages| && transactions[i].userId == userId
        && packages[j].id == transactions[i].packageId) ==>
      JoinRow(transactions[i], packages[j]) in Joined(transactions, packages, userId)
  {
    if transactions != [] {
      var init, t := transactions[..|transactions| - 1], transactions[|transactions| - 1];
      JoinedMembers(init, packages, userId);
      JoinPackagesMembers(t, packages);
      assert forall i :: 0 <= i < |init| ==> init[i] == transactions[i];
    }
  }

  /** Package ids are unique, as the primary key of `packages` makes them. */
  predicate UniquePackageIds(packages: seq<Package>)
  {
    forall i, j :: 0 <= i < j < |packages| ==> packages[i].id != packages[j].id
  }

  /** With unique package ids a purchase joins to one row when its package exists and to none otherwise. */
  lemma {:induction false} JoinPackagesUnique(t: TxRow, packages: seq<Package>)
    requires UniquePackageIds(packages)
    ensures forall j :: 0 <= j < |packages| && packages[j].id == t.packageId ==>
      JoinPackages(t, packages) == [JoinRow(t, packages[j])]
    ensures (forall j :: 0 <= j < |packages| ==> packages[j].id != t.packageId) ==>
      JoinPackages(t, packages) == []
  {
    if packages != [] {
      var init := packages[..|packages| - 1];
      assert UniquePackageIds(init);
      JoinPackagesUnique(t, init);
      if packages[|packages| - 1].id == t.packageId {
        assert forall j :: 0 <= j < |init| ==> init[j].id != t.packageId;
      }
    }
  }

  lemma {:induction false} TotalAmountConcat(a: seq<Transaction>, b: seq<Transaction>)
    ensures TotalAmount(a + b) == TotalAmount(a) + TotalAmount(b)
  {
    if b == [] {
      assert a + b == a;
    } else {
      var init := b[..|b| - 1];
      TotalAmountConcat(a, init);
      assert (a + b)[..|a + b| - 1] == a + init;
    }
  }

  /**
   * Recording a purchase of an existing package adds exactly its price to the
   * user's total spent, and a purchase later than all earlier ones becomes the
   * last transaction; a purchase by another user changes neither.
   */
  lemma RecordPurchase(transactions: seq<TxRow>, packages: seq<Package>, userId: int, t: TxRow, j: nat)
    requires UniquePackageIds(packages)
    requires j < |packages| && packages[j].id == t.packageId
    ensures var before, after := Joined(transactions, packages, userId), Joined(transactions + [t], packages, userId);
      && (t.userId != userId ==> after == before)
      && (t.userId == userId ==> TotalAmount(after) == TotalAmount(before) + packages[j].priceUsdc)
      && (t.userId == userId && (forall x :: x in before ==> x.createdAt < t.createdAt) ==>
            Latest(after) == Some(JoinRow(t, packages[j])))
  {
    assert (transactions + [t])[..|transactions|] == transactions;
    JoinPackagesUnique(t, packages);
    TotalAmountConcat(Joined(transactions, packages, userId), [JoinRow(t, packages[j])]);
  }

  /** With no negative price, the total spent is never negative. */
  lemma TotalSpentNonNegative(transactions: seq<TxRow>, packages: seq<Package>, userId: int)
    requires forall j :: 0 <= j < |packages| ==> packages[j].priceUsdc >= 0.0
    ensures TotalAmount(Joined(transactions, packages, userId)) >= 0.0
  {
    var rows := Joined(transactions, packages, userId);
    JoinedMembers(transactions, packages, userId);
  }

  /**
   * Purchases of packages priced 10.00 and then 5.00 report 15.00 spent, the
   * later purchase as the last transaction, and the credits row's balance.
   */
  lemma TwoPurchasesExample()
    ensures var users := [User(7, "pk", Json.Null)];
      var credits := [CreditRow(7, Some(42), None)];
      var packages := [Package(1, 10.00), Package(2, 5.00)];
      var transactions := [TxRow(100, 7, 1, 1000), TxRow(101, 7, 2, 2000)];
      GetUsage(users, credits, transactions, packages, "pk")
        == Ok(UsageResponse(42, Some(Transaction(101, 2, 5.00, 2000)), 15.00))
  {
    var packages := [Package(1, 10.00), Package(2, 5.00)];
    var transactions := [TxRow(100, 7, 1, 1000), TxRow(101, 7, 2, 2000)];
    assert transactions[..1] == [TxRow(100, 7, 1, 1000)];
    assert packages[..1] == [Package(1, 10.00)];
    assert packages[..1][..0] == [];
    assert transactions[..1][..0] == [];
    assert JoinPackages(transactions[0], packages) == [Transaction(100, 1, 10.00, 1000)];
    assert JoinPackages(transactions[1], packages) == [Transaction(101, 2, 5.00, 2000)];
    var rows := [Transaction(100, 1, 10.00, 1000), Transaction(101, 2, 5.00, 2000)];
    assert Joined(transactions, packages, 7) == rows;
    assert rows[..1] == [Transaction(100, 1, 10.00, 1000)];
    assert rows[..1][..0] == [];
    assert Latest(rows) == Some(rows[1]);
    assert TotalAmount(rows) == 15.00;
    assert Lookup([User(7, "pk", Json.Null)], "pk") == Some(0);
    assert CreditRowOf([CreditRow(7, Some(42), None)], 7) == Some(0);
  }

  /** A user without purchases reports no last transaction and exactly 0 spent. */
  lemma NoPurchasesExample(users: seq<User>, credits: seq<CreditRow>, packages: seq<Package>, pubkey: string)
    requires Lookup(users, pubkey).Some?
    requires CreditRowOf(credits, users[Lookup(users, pubkey).value].id).Some?
    ensures GetUsage(users, credits, [], packages, pubkey).Ok?
    ensures GetUsage(users, credits, [], packages, pubkey).value.lastTransaction == None
    ensures GetUsage(users, credits, [], packages, pubkey).value.totalSpentUsdc == 0.0
  {
  }
}
