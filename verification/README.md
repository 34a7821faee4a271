# swquery user handlers: a Dafny model

This project models the user-account handlers of the swquery server
(`server/src/routes/users.rs`). The database tables become sequences of rows
held by a `Database` class, and the JSON subscription document becomes a small
JSON datatype. The model covers:

- **`create_user`**: idempotent creation by public key. An existing row is
  returned with 200 OK. Otherwise exactly one row with a fresh id is inserted
  and returned with 201 Created.
- **`get_user_by_pubkey`**: lookup by public key, joined with the API key
  from the user's `credits` row. An unknown key answers 404 "User not found".
- **`manage_subscription`**: the read-modify-write of a user's subscription
  document. `subscribe<Name>` appends the keys not yet listed under `<Name>`,
  in input order (set union). `unsubscribe<Name>` keeps only the entries that
  are not among the keys (set difference). Any other method, or a missing
  `keys`, leaves the document unchanged, but it is still written back.
- **`get_usage`**: remaining credits (NULL read as 0), the latest purchase by
  `created_at` joined to its package price, and the total spent, which is the
  sum of the joined prices and exactly 0 when there are none.

Modules:

- `Wrappers`: `Option` and `Result`.
- `Json`: the JSON value.
- `Tables`: the rows, the status codes and the first-matching-row lookups.
- `Subscriptions`: the document mutation, its loops and their lemmas.
- `Usage`: `get_usage`.
- `Users`: `create_user`, `get_user_by_pubkey`, and the `Database` class.

Behaviours a caller might not expect, each modelled as the code has it:

- A method string with neither prefix is silently ignored and the call answers
  200. It is not rejected as invalid input.
- A user without a `credits` row gets a 500 from `get_usage`. The `fetch_one`
  finds no row, and the `COALESCE` only covers a NULL `remaining_requests`. The
  balance does not default to 0.
- A method key whose list becomes empty stays in the document.
- A stored JSON null document is written back as `{}`, even when nothing else
  changes.

Decimal amounts are exact reals. Timestamps are integers. `remaining_requests`
is an `int32` widened to `int64`.

## Model

| member | source | states |
|---|---|---|
| Tables.Lookup | server/src/routes/users.rs:112-126 | The users query returns the first row with the public key. None exactly when no row has it. |
| Tables.CreditRowOf | server/src/routes/users.rs:129-133 | The credits query returns the first row of the user. None exactly when the user has no credits row. |
| Subscriptions.ParseMethod | server/src/routes/users.rs:178-179 | Subscribe exactly when the method starts with "subscribe". Unsubscribe exactly when it does not but starts with "unsubscribe". The method key is the rest of the string. |
| Subscriptions.MethodString | server/src/routes/users.rs:197-198 | Round trip: parsing "subscribe"/"unsubscribe" + key gives back the same action and key. |
| Subscriptions.SubscribeAll | server/src/routes/users.rs:192-196 | The old list is a prefix of the result. At most one entry is added per input key. |
| Subscriptions.AppendAbsent | server/src/routes/users.rs:192-196 | The push-if-absent loop computes SubscribeAll of the list and the keys. |
| Subscriptions.SubscribeMembers | server/src/routes/users.rs:192-196 | Set union: after subscribing, a value is listed exactly when it was listed before or is one of the input keys. |
| Subscriptions.NewKeysMembers | server/src/routes/users.rs:192-195 | The appended entries are exactly the input keys not listed before. |
| Subscriptions.SubscribeAppendsNewKeys | server/src/routes/users.rs:192-196 | The result is the old list followed by the new keys in input order, first occurrence only. |
| Subscriptions.SubscribeKeepsNoDuplicates | server/src/routes/users.rs:192-195 | A list without duplicates has none after subscribing, even when the input repeats a key. |
| Subscriptions.SubscribePresentIsNoop | server/src/routes/users.rs:193 | Subscribing keys that are all listed already leaves the list unchanged. |
| Subscriptions.SubscribeIdempotent | server/src/routes/users.rs:192-196 | Subscribing the same keys a second time changes nothing. |
| Subscriptions.Unsubscribed | server/src/routes/users.rs:203 | Filtering never lengthens the list. |
| Subscriptions.Retain | server/src/routes/users.rs:203 | The `retain` loop computes Unsubscribed of the list and the keys. |
| Subscriptions.UnsubscribedMembers | server/src/routes/users.rs:203 | Set difference: an entry stays exactly when it was listed and its text is not a key. |
| Subscriptions.UnsubscribedDistributes | server/src/routes/users.rs:203 | Filtering works entry by entry over concatenation, so the kept entries keep their order. |
| Subscriptions.UnsubscribeNonString | server/src/routes/users.rs:203 | An entry that is not a JSON string is read as "" by `as_str().unwrap_or_default()`: it survives unsubscribing exactly when "" is not among the keys. |
| Subscriptions.UnsubscribedKeepsNoDuplicates | server/src/routes/users.rs:203 | A list without duplicates has none after unsubscribing. |
| Subscriptions.UnsubscribedAllKeys | server/src/routes/users.rs:203 | Every entry goes when every entry's text is a key. |
| Subscriptions.UnsubscribeUndoesSubscribe | server/src/routes/users.rs:192-205 | Unsubscribing the keys just subscribed leaves the same list as unsubscribing them from the old list. |
| Subscriptions.Normalized | server/src/routes/users.rs:171-175 | A JSON null document is read as {}: the result is never null, is an object exactly when the stored document is null or an object, and answers every key lookup as the stored document does. |
| Subscriptions.Applicable | server/src/routes/users.rs:182-190 | The no-panic condition: only a subscribe with `keys` present can panic; a JSON null document, or an object whose values are all arrays, never does. |
| Subscriptions.ApplyPayload | server/src/routes/users.rs:171-206 | A JSON null document is read as {}. A missing `keys` or an ignored method leaves the document unchanged. No method key is removed. A non-object document is untouched. |
| Subscriptions.RewriteDocument | server/src/routes/users.rs:171-206 | The in-place rewrite computes ApplyPayload: JSON null coalesced to {}, then the key created as [] and the absent keys pushed, or the list retained. |
| Subscriptions.SubscribeDocument | server/src/routes/users.rs:178-196 | Subscribe creates the method key as an empty list if absent and subscribes the keys into it. Every other method key is unchanged. |
| Subscriptions.UnsubscribeDocument | server/src/routes/users.rs:197-205 | Unsubscribe filters the list under the method key. An absent method key, or one whose value is not an array, leaves the document unchanged. Every other method key is unchanged. |
| Subscriptions.SubscribeThenUnsubscribeExample | server/src/routes/users.rs:192-203 | For any three distinct keys A, B, C: subscribing A,B then B,C gives [A,B,C]. Unsubscribing B then gives [A,C]. |
| Users.CreateUserSpec | server/src/routes/users.rs:41-90 | An existing public key returns its row with 200 and inserts nothing. Otherwise one row is inserted with 201, with a fresh id and a JSON null document. The key then resolves to the returned row, and the table invariant is kept. |
| Users.CreateUserIdempotent | server/src/routes/users.rs:51-89 | A second create with the same public key answers 200 with the same row and inserts nothing. |
| Users.Database.CreateUser | server/src/routes/users.rs:41-90 | The lookup-then-insert on the users table produces exactly CreateUserSpec's status, row and new table, and keeps public keys and ids unique. |
| Users.ApiKeyOf | server/src/routes/users.rs:128-139 | No credits row gives no API key. A row's non-NULL key is returned. A NULL key cannot be read as a String, which is a 500. |
| Users.GetUserByPubkey | server/src/routes/users.rs:108-151 | 404 "User not found" exactly when no row has the public key. Otherwise the row's id, public key and document come back with its API key; when the API-key query fails, its 500 error is the answer. |
| Users.Database.UserByPubkey | server/src/routes/users.rs:108-151 | `get_user_by_pubkey` on the stored users and credits tables answers as GetUserByPubkey does, and changes no table. |
| Users.Database.UsageOf | server/src/routes/users.rs:231-308 | `get_usage` on the stored tables answers as Usage.GetUsage does, and changes no table. |
| Users.Database.ManageSubscription | server/src/routes/users.rs:153-229 | An unknown public key answers 404 and writes nothing. Otherwise the user's document becomes ApplyPayload of the stored one, all else unchanged, and the answer is 200 "Subscriptions updated for user: <pubkey>". |
| Users.UnknownPubkeyNotFound | server/src/routes/users.rs:124-126 | An unknown public key gets 404 "User not found" from get_user_by_pubkey and from get_usage. |
| Usage.JoinPackages | server/src/routes/users.rs:268 | Every row joined for a purchase carries that purchase's id, package id and timestamp; at most one row per package. |
| Usage.Joined | server/src/routes/users.rs:267-269 | The joined rows filtered by user: none for a user without purchases, none when there are no packages. |
| Usage.TotalAmount | server/src/routes/users.rs:283-298 | `COALESCE(SUM(price_usdc), 0)`: exactly 0 for no rows, and never negative when no amount is. |
| Usage.Latest | server/src/routes/users.rs:261-271 | None exactly when there are no rows. Otherwise a row with the greatest `created_at`. |
| Usage.RemainingCredits | server/src/routes/users.rs:248-259 | No credits row is a 500. Otherwise `remaining_requests`, with NULL read as 0. |
| Usage.GetUsage | server/src/routes/users.rs:231-308 | Unknown key: 404. No credits row: 500. Otherwise the coalesced balance, a latest joined purchase (None exactly when there is none), and the sum of joined prices (0 when there is none). |
| Usage.JoinPackagesMembers | server/src/routes/users.rs:267-268 | A purchase's joined rows are exactly its pairings with the packages of the same id. |
| Usage.JoinedMembers | server/src/routes/users.rs:283-287 | The user's joined rows are exactly the pairings of the user's purchases with their packages. A purchase of a missing package contributes nothing. |
| Usage.JoinPackagesUnique | server/src/routes/users.rs:268 | With unique package ids, a purchase joins to one row if its package exists and to none otherwise. |
| Usage.TotalAmountConcat | server/src/routes/users.rs:284 | The sum of prices is additive over concatenation. |
| Usage.RecordPurchase | server/src/routes/users.rs:261-298 | A new purchase of an existing package adds exactly its price to the user's total. If it is later than all earlier ones it becomes the last transaction. Another user's purchase changes nothing. |
| Usage.TotalSpentNonNegative | server/src/routes/users.rs:283-298 | With no negative price, the total spent is never negative. |
| Usage.TwoPurchasesExample | server/src/routes/users.rs:231-304 | Purchases at 10.00 then 5.00 report 15.00 spent, the later purchase as last, and the row's balance. |
| Usage.NoPurchasesExample | server/src/routes/users.rs:283-298 | A user with a credits row and no purchases reports no last transaction and exactly 0 spent. |

## Left out

- `get_users` (server/src/routes/users.rs:92-106) returns the users table as it is. There is nothing to state beyond that.
- Database I/O failures are not modelled: failed queries, connection errors, and the `expect` panic in `create_user` when the lookup fails. The only 500s modelled are the ones the tables themselves cause: a missing credits row, and a NULL API key.
- The 500 messages leave out the database's own error text appended to them.
- JSON (de)serialisation of requests and responses, and the SQL text, are not modelled. JSON numbers are integers, and object key order is not kept.
- `Users.Database.ManageSubscription`: the panics of `manage_subscription` are preconditions (`Subscriptions.Applicable`), not modelled behaviour. Subscribing panics on a stored document that is neither JSON null nor an object, and on a method-key value that is not an array (including JSON null).
- The read-modify-write race on the subscription document, and concurrent first creation of a user, are not modelled. Every handler runs alone.
- The credit handlers (buy, refund, debit) and the agent and chatbot handlers are not part of this model. Credits, transactions and packages are only read here.
- The database schema is not part of this model. The model assumes the `subscriptions` column defaults to the JSON value null. An SQL NULL document cannot be decoded into the handlers' JSON value; that case (a 500 from `create_user` after its insert, then the lookup panic) is not modelled. User ids come from a counter that advances by one.
- `Usage.Latest`: among purchases with equal `created_at`, SQL leaves the choice open. The model picks the earliest-listed one, and its contract only promises a row with the greatest timestamp.
- The `::INT4` casts of transaction and package ids are not modelled. The model assumes transaction and package ids fit in 32 bits (`Tables.TxRow` holds `int32` ids). An id out of that range makes the cast fail, a 500 from `get_usage`; that case is not modelled.
- Decimal's 28-digit precision limit is not modelled. Prices and sums are exact reals.
