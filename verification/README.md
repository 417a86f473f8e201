# exoneum-core: a Dafny model of the ledger service's state transitions

This project models the deterministic core of the `exoneum_core` service, a
plug-in for an Exonum blockchain node. The service keeps one authenticated
table, `exoneum_core.users`, that maps a 32-byte public key to a `User`
record `{public_key, name, balance: u64, user_address}`. It has one
transaction, `CreateUser`, which registers a key with an initial balance of
100. It has two balance helpers that replace a user record wholesale. Its
execution errors carry stable one-byte codes. It contributes one hash, the
users table's Merkle root, to the ledger's state hash. A small HTTP API reads
committed snapshots and forwards transactions to the node.

Everything is a pure function over immutable values. A storage view (snapshot
or fork) is `Schema.View`: a map from table name to table contents, plus the
value the time oracle currently holds. An operation that writes returns the
new view.

Modules, one per source file or concern:

- `Wrappers`: `Option`, `Result`, `Outcome`.
- `DataLayout` (`data_layout.rs`): the `User` record and the fixed-width integer types.
- `KeyOrder`: byte-wise lexicographic order on keys, the order in which the table enumerates its values.
- `Schema` (`schema.rs`): views, proof-map indexes with `Get`/`Put`/`Values`, the schema accessors and `state_hash`.
- `Errors` (`transactions.rs` error part): `ErrorKind`, `as_code`, the derived code decoder, the conversion to `ExecutionError`. `Errors.FromDescription` turns a display text back into a kind. The source has no such decoder; the function exists only to prove that no two kinds share a display text.
- `Transactions` (`transactions.rs`): `CreateUser` verify/execute, the two balance helpers.
- `Constants`, `Service` (`lib.rs`): constants, service identity, state-hash delegation, the commit hook.
- `Api` (`api.rs`): snapshot queries, submission, and the outcome of each HTTP handler.

Host primitives are function-typed parameters, so their internals stay
abstract:

- the Merkle root of a table (`root: Table -> Hash`);
- the state-hash aggregator root that `execute` reads;
- the transaction hash;
- the signature check;
- the channel's send.

Panics in the source become preconditions:

- `expect` on a missing user;
- unchecked `+` and `-` on the balance;
- `unwrap` on a missing oracle time.

Notes on the code as written:

- `User` has four fields, but every `User::new` call in `transactions.rs`
  passes three (lines 54, 81-85 and 94-98), so those lines do not compile
  against `data_layout.rs`. The model gives a new user the unspecified address
  `0.0.0.0`. The balance helpers carry the stored address over unchanged.
- The balance helpers write the new record under the key stored inside the
  record (`user.public_key()`), not under the `user_id` they were given. The
  two agree whenever every entry is stored under its own key
  (`Transactions.WellFormed`). CreateUser and both helpers preserve that
  property, and the round-trip lemmas assume it.
- `CORE_SERVICE_NAME` is `"exoneumcore"`, but `service_name()` returns
  `"exoneum_core"`, the prefix of the table name. The constant is never used
  (`Service.ServiceNameIsNotNameConstant`).
- The balance helpers are meant to report a missing user
  (`UserIsNotRegistered`, code 7; the enum has no `UserNotFound`) and
  `InsufficientFunds` (code 3), and a missing oracle time should not abort
  execution. The code reports none of them. `expect` on a missing user and
  `unwrap` on a missing time always panic. The unchecked `+` and `-` on the
  balance panic only in builds with overflow checks. In a release build they
  wrap modulo 2^64, so a decrease by more than the balance leaves
  2^64 - (amount - balance). The model makes each of these cases a
  precondition.

## Model

| member | source | states |
|---|---|---|
| `DataLayout.UserAccessors` | exoneum-core/src/data_layout.rs:7-19 | each accessor of a constructed `User` returns the field it was built with |
| `DataLayout.UserIsItsFields` | exoneum-core/src/data_layout.rs:9-18 | a record equals the record rebuilt from its four fields, so any change means a new record; the balance is always within 0..2^64-1 |
| `Schema.New` | exoneum-core/src/schema.rs:18-20 | the schema only wraps the view it is given |
| `Schema.Users` | exoneum-core/src/schema.rs:23-25 | the users index is the table named `exoneum_core.users` over the schema's own view |
| `Schema.UsersMut` | exoneum-core/src/schema.rs:37-39 | the mutable users index names the table `exoneum_core.users` and is the same index (same name, same view) as the read-only one |
| `Schema.Get` | exoneum-core/src/api.rs:67 | lookup returns a value exactly when the key is in the table, and then the stored record |
| `Schema.Put` | exoneum-core/src/transactions.rs:55 | after a put the key maps to the new record, every other key keeps its presence and value, and no other table or the oracle time changes |
| `Schema.Values` | exoneum-core/src/api.rs:74-75 | enumeration yields as many values as there are keys, every stored record appears and nothing else does; paired with its keys, the list is in strictly increasing key order and each value is the record stored under its key |
| `Schema.StateHash` | exoneum-core/src/schema.rs:27-32 | the state hash is a one-element list whose element is the root of the users table |
| `Schema.PutVisibleThroughUsers` | exoneum-core/src/schema.rs:23-39 | a put through `users_mut` is seen by a later `users().get` for that key, every other key reads as before, nothing outside the users table moves |
| `Schema.PutsOnDistinctKeysCommute` | exoneum-core/src/transactions.rs:55 | two puts under different keys give the same view in either order |
| `Schema.PutAllUsers` | exoneum-core/src/transactions.rs:55 | after a run of puts with distinct keys, the key set is the old keys plus the written ones, each written key holds its value, other keys are untouched |
| `Schema.PutAllOrderIndependent` | exoneum-core/src/transactions.rs:55 | the same pairs with distinct keys, put in any two orders, leave the same users table |
| `Schema.StateHashOrderIndependent` | exoneum-core/src/schema.rs:27-31 | the same pairs with distinct keys, put in any two orders, give the same state hash |
| `Errors.AsCode` | exoneum-core/src/transactions.rs:157-161 | every error kind has a code in 1..15 |
| `Errors.FromCode` | exoneum-core/src/transactions.rs:109-155 | a raw code names an error kind exactly when it lies in 1..15 |
| `Errors.FromCodeAsCode` | exoneum-core/src/transactions.rs:109-161 | decoding the code of any kind gives that kind back |
| `Errors.AsCodeFromCode` | exoneum-core/src/transactions.rs:109-161 | every code in 1..15 is the code of the kind it decodes to |
| `Errors.AsCodeInjective` | exoneum-core/src/transactions.rs:110-161 | two kinds share a code only if they are the same kind |
| `Errors.CoreErrorCodes` | exoneum-core/src/transactions.rs:117-130 | `InsufficientFunds` is 3, `UserAlreadyRegistered` is 6, `UserIsNotRegistered` is 7 |
| `Errors.Description` | exoneum-core/src/transactions.rs:110-155 | every kind has a non-empty display text; the texts are those of the `display` attributes |
| `Errors.FromDescriptionDescription` | exoneum-core/src/transactions.rs:110-155 | decoding the display text of any kind gives that kind back |
| `Errors.DescriptionInjective` | exoneum-core/src/transactions.rs:110-155 | two kinds share a display text only if they are the same kind, so a receipt's description also identifies its kind |
| `Errors.ToExecutionError` | exoneum-core/src/transactions.rs:164-168 | the receipt error carries the kind's code, that code decodes back to the kind, and the description is the kind's display text |
| `Transactions.Verify` | exoneum-core/src/transactions.rs:34-36 | a transaction is admitted exactly when its signature checks against its own declared public key |
| `Transactions.CurrentTime` | exoneum-core/src/transactions.rs:104-107 | the time read is present exactly when the oracle's value is present in the view, and then equals it |
| `Transactions.IssuedUser` | exoneum-core/src/transactions.rs:54 | the record CreateUser stores has the transaction's key and name, balance `ISSUE_AMOUNT` = 100 and the unspecified address |
| `Transactions.Execute` | exoneum-core/src/transactions.rs:38-58 | needs the oracle time; succeeds exactly when the key is absent; on success the key set grows by exactly that key and the new record is (key, name, 100, unspecified address); on a present key it fails with `UserAlreadyRegistered` and returns the fork unchanged; no existing entry and nothing outside the users table changes |
| `Transactions.ExecuteIgnoresTimeAndAggregate` | exoneum-core/src/transactions.rs:39-44 | the time value read and the aggregator root read do not influence the outcome or the tables written |
| `Transactions.ExecuteFreshKey` | exoneum-core/src/transactions.rs:54-55 | for an absent key the resulting fork is exactly one put of the issued record |
| `Transactions.ExecuteTakenKey` | exoneum-core/src/transactions.rs:49-52 | for a present key the resulting fork is the fork it was given |
| `Transactions.CreateUserTwice` | exoneum-core/src/transactions.rs:49-52 | running the same CreateUser a second time fails with code 6 and leaves the fork as the first run left it |
| `Transactions.ExecuteCommutes` | exoneum-core/src/transactions.rs:46-57 | two CreateUser transactions for different keys leave the same fork in either order |
| `Transactions.ExecuteTakenOneSide` | exoneum-core/src/transactions.rs:46-57 | the order does not matter when one of two keys is already registered and the other is not |
| `Transactions.ExecuteFreshPair` | exoneum-core/src/transactions.rs:46-57 | the order does not matter when both keys are new |
| `Transactions.ExecutePreservesWellFormed` | exoneum-core/src/transactions.rs:54-55 | CreateUser keeps every entry stored under its own public key |
| `Transactions.IncreaseUserBalance` | exoneum-core/src/transactions.rs:72-87 | needs the user present and the sum within u64; the record under the stored key keeps key, name and address and gains `amount`; every other entry and everything outside the users table is unchanged |
| `Transactions.DecreaseUserBalance` | exoneum-core/src/transactions.rs:89-100 | needs the user present and `amount` at most the balance; the record under the stored key keeps key, name and address and loses `amount`; every other entry and everything outside the users table is unchanged |
| `Transactions.BalanceHelpersOnWellFormed` | exoneum-core/src/transactions.rs:73-100 | on a well-formed table each helper rewrites exactly the entry of `user_id`, keeps the key set and keeps the table well-formed |
| `Transactions.IncreaseThenDecreaseRestores` | exoneum-core/src/transactions.rs:84-97 | increasing by `d` and then decreasing by `d` returns the original fork |
| `Transactions.DecreaseThenIncreaseRestores` | exoneum-core/src/transactions.rs:84-97 | decreasing by `d` and then increasing by `d` returns the original fork |
| `Service.ServiceName` | exoneum-core/src/lib.rs:71-73 | the service name followed by `.users` is the users table's name |
| `Service.ServiceNameIsNotNameConstant` | exoneum-core/src/lib.rs:49-50 | the declared name constant differs from the name the service registers under |
| `Service.ServiceId` | exoneum-core/src/lib.rs:75-77 | the service id is 9999, the id the transaction set is tagged with |
| `Service.StateHash` | exoneum-core/src/lib.rs:85-89 | the service's state hash is the schema's state hash on the same snapshot, the one-element list of the users root |
| `Service.HandleCommit` | exoneum-core/src/lib.rs:91-100 | the commit hook leaves the state exactly as it was, with or without an oracle time |
| `Api.GetUser` | exoneum-core/src/api.rs:63-68 | returns a user exactly when the key is in the snapshot's users table, and then the stored record |
| `Api.GetUsers` | exoneum-core/src/api.rs:70-77 | returns one user per stored key, in strictly increasing key order, each equal to the record stored under its key; every stored record appears and nothing else does; on a well-formed table the users' own keys increase strictly |
| `Api.PostTransaction` | exoneum-core/src/api.rs:79-84 | returns the transaction's hash exactly when the channel accepts it, and the channel's input/output error otherwise |
| `Api.HandleGetUser` | exoneum-core/src/api.rs:26-33 | a bad key fragment passes its error on; a stored key answers 200 with the record; an absent key answers 404 with "User not found" |
| `Api.HandleGetUsers` | exoneum-core/src/api.rs:36-39 | always answers 200 with every committed user, one per key, in key order |
| `Api.HandlePostTransaction` | exoneum-core/src/api.rs:42-51 | an empty body is `BadRequest("Empty request body")`; a parse failure is `BadRequest` with the parser's text; it succeeds exactly when a transaction was parsed and sent, with `{"tx_hash": h}` for its hash `h`; a send failure is returned as the error |
| `Api.CreatedUserIsServed` | exoneum-core/src/api.rs:26-51 | a CreateUser for a new key is accepted under its hash; before execution the user handler answers not-found; after it, the handler serves (key, name, 100) |

## Left out

- Signature cryptography (`transactions.rs:34-36`): `Transactions.Verify` takes the host's signature check as a parameter.
- Merkle-tree internals, inclusion and exclusion proofs, and transaction hashing: the users root and the transaction hash are parameters. Nothing is proved about collision resistance. So "any content change changes the root" is shown only as a change of table contents (`Transactions.Execute`), not of the hash.
- The time oracle (`transactions.rs:104-107`): its value is the `oracleTime` field of a view.
- Transactions.Execute: a missing oracle time panics in the source (`unwrap`, `transactions.rs:39`), so it is a precondition here rather than an error result.
- Transactions.IncreaseUserBalance: a missing user (`expect`, line 78) panics in the source. A sum above 2^64-1 (unchecked `+`, line 84) panics with overflow checks and wraps modulo 2^64 in a release build. Both are preconditions, and the wrapped value is not modelled.
- Transactions.DecreaseUserBalance: a missing user (`expect`, line 91) panics in the source. `amount` above the balance (unchecked `-`, line 97) panics with overflow checks and wraps to 2^64 - (amount - balance) in a release build. Both are preconditions, and neither the wrapped value nor an `InsufficientFunds` result is modelled, because the source produces no such error.
- Raw transaction decoding `tx_from_raw` (`lib.rs:80-83`): generated wire codec, not visible.
- The JSON encoding of responses, routing, `url_fragment` key parsing and the body parser: handlers take the parse results as inputs, and a response is its kind plus the value it serialises.
- The exact error that the node channel's `send` returns: it is modelled as the text of an input/output error.
- `public_api_handler` (`lib.rs:103-111`), the service factory, and `main.rs`: process bootstrap and registration.
- Snapshot isolation and concurrency: each query is given the committed view as a value.
- `ISSUE_TIMEOUT` and the unused `rand`, `byteorder`, `pnet` and `chrono` imports. The owl and auction error kinds appear only as enum values with their codes.
