/**
 * The service's one transaction, CreateUser, with its verify and execute
 * phases, and the two balance helpers over a fork.
 */
module Transactions {
  import opened Wrappers
  import opened DataLayout
  import opened Schema
  import opened Errors
  import opened Constants

  /** Service identifier every transaction of the set is tagged with. */
  const SERVICE_ID: u16 := CORE_SERVICE_ID

  /** Register `publicKey` under `name`; signed by the holder of `publicKey`. */
  datatype CreateUser = CreateUser(publicKey: PublicKey, name: string)

  /** The service's transaction set; CreateUser is its only member. */
  datatype Transactions = CreateUserTx(createUser: CreateUser)

  /**
   * Stateless admission check. `signatureValid(tx, k)` is the host's signature
   * check of the message against key `k`.
   */
  function Verify(tx: CreateUser, signatureValid: (CreateUser, PublicKey) -> bool): (ok: bool)
    ensures ok <==> signatureValid(tx, tx.publicKey)
  {
    signatureValid(tx, tx.publicKey)
  }

  /** The time oracle's current value in a view. */
  function CurrentTime(snapshot: View): (t: Option<Time>)
    ensures t.Some? <==> snapshot.oracleTime.Some?
    ensures t.Some? ==> t.value == snapshot.oracleTime.value
  {
    snapshot.oracleTime
  }

  /** Every entry of the users table is stored under its own public key. */
  ghost predicate WellFormed(users: Table)
  {
    forall k :: k in users ==> users[k].publicKey == k
  }

  /** The record CreateUser stores. */
  function IssuedUser(tx: CreateUser): (u: User)
    ensures u.publicKey == tx.publicKey && u.name == tx.name
    ensures u.balance == ISSUE_AMOUNT == 100
    ensures u.userAddress == UNSPECIFIED_ADDRESS
  {
    User(tx.publicKey, tx.name, ISSUE_AMOUNT, UNSPECIFIED_ADDRESS)
  }

  /**
   * Executes CreateUser against a fork; returns the outcome and the fork after it.
   * `aggregateRoot` is the host's state-hash aggregator root, which execution reads.
   */
  function Execute(tx: CreateUser, fork: View, aggregateRoot: View -> Hash): (out: (Outcome<ExecutionError>, View))
    requires CurrentTime(fork).Some?
    ensures out.0.Pass? <==> tx.publicKey !in UsersOf(fork)
    ensures out.0.Fail? ==> out.0.error == ToExecutionError(UserAlreadyRegistered) && out.1 == fork
    ensures out.0.Pass? ==>
              && UsersOf(out.1).Keys == UsersOf(fork).Keys + {tx.publicKey}
              && |UsersOf(out.1)| == |UsersOf(fork)| + 1
              && UsersOf(out.1)[tx.publicKey].publicKey == tx.publicKey
              && UsersOf(out.1)[tx.publicKey].name == tx.name
              && UsersOf(out.1)[tx.publicKey].balance == ISSUE_AMOUNT
              && UsersOf(out.1)[tx.publicKey].userAddress == UNSPECIFIED_ADDRESS
    ensures forall k :: k in UsersOf(fork) ==> k in UsersOf(out.1) && UsersOf(out.1)[k] == UsersOf(fork)[k]
    ensures OnlyTableChanged(fork, out.1, USERS_TABLE)
  {
    var ts := CurrentTime(fork).value;
    var stateHash := aggregateRoot(fork);
    var key := tx.publicKey;
    var schema := New(fork);
    if Get(Users(schema), key).Some? then
      (Fail(ToExecutionError(UserAlreadyRegistered)), fork)
    else
      (Pass, Put(UsersMut(schema), key, IssuedUser(tx)))
  }

  /** Neither the aggregator root nor the time value itself changes what execution does. */
  lemma ExecuteIgnoresTimeAndAggregate(tx: CreateUser, fork: View, t1: Time, t2: Time, a1: View -> Hash, a2: View -> Hash)
    ensures Execute(tx, fork.(oracleTime := Some(t1)), a1).0 == Execute(tx, fork.(oracleTime := Some(t2)), a2).0
    ensures Execute(tx, fork.(oracleTime := Some(t1)), a1).1.tables == Execute(tx, fork.(oracleTime := Some(t2)), a2).1.tables
  {
  }

  /** A second CreateUser for the same key is rejected with code 6 and leaves the fork as it was. */
  lemma CreateUserTwice(tx: CreateUser, fork: View, aggregateRoot: View -> Hash)
    requires CurrentTime(fork).Some?
    ensures var after := Execute(tx, fork, aggregateRoot).1;
            && Execute(tx, after, aggregateRoot) == (Fail(ToExecutionError(UserAlreadyRegistered)), after)
            && Execute(tx, after, aggregateRoot).0.error.code == 6
  {
  }

  /** The fork after a successful CreateUser: only the users table gains the issued record. */
  lemma ExecuteFreshKey(tx: CreateUser, fork: View, aggregateRoot: View -> Hash)
    requires CurrentTime(fork).Some?
    requires tx.publicKey !in UsersOf(fork)
    ensures Execute(tx, fork, aggregateRoot).1 == Put(UsersMut(New(fork)), tx.publicKey, IssuedUser(tx))
  {
  }

  /** CreateUser on a key already present returns the fork untouched. */
  lemma ExecuteTakenKey(tx: CreateUser, fork: View, aggregateRoot: View -> Hash)
    requires CurrentTime(fork).Some?
    requires tx.publicKey in UsersOf(fork)
    ensures Execute(tx, fork, aggregateRoot).1 == fork
  {
  }

  /** CreateUser transactions for different keys commute. */
  lemma ExecuteCommutes(t1: CreateUser, t2: CreateUser, fork: View, aggregateRoot: View -> Hash)
    requires CurrentTime(fork).Some?
    requires t1.publicKey != t2.publicKey
    ensures Execute(t2, Execute(t1, fork, aggregateRoot).1, aggregateRoot).1
         == Execute(t1, Execute(t2, fork, aggregateRoot).1, aggregateRoot).1
  {
    var m: Table := UsersOf(fork);
    var k1: PublicKey, k2: PublicKey := t1.publicKey, t2.publicKey;
    if k1 !in m && k2 !in m {
      ExecuteFreshPair(t1, t2, fork, aggregateRoot);
    } else if k1 in m && k2 in m {
      ExecuteTakenKey(t1, fork, aggregateRoot);
      ExecuteTakenKey(t2, fork, aggregateRoot);
    } else if k1 in m {
      ExecuteTakenOneSide(t1, t2, fork, aggregateRoot);
    } else {
      ExecuteTakenOneSide(t2, t1, fork, aggregateRoot);
    }
  }

  lemma ExecuteTakenOneSide(taken: CreateUser, newcomer: CreateUser, fork: View, aggregateRoot: View -> Hash)
    requires CurrentTime(fork).Some?
    requires taken.publicKey in UsersOf(fork) && newcomer.publicKey !in UsersOf(fork)
    ensures Execute(newcomer, Execute(taken, fork, aggregateRoot).1, aggregateRoot).1
         == Execute(taken, Execute(newcomer, fork, aggregateRoot).1, aggregateRoot).1
  {
    var g := Execute(newcomer, fork, aggregateRoot).1;
    ExecuteTakenKey(taken, fork, aggregateRoot);
    assert CurrentTime(g).Some? && taken.publicKey in UsersOf(g);
    ExecuteTakenKey(taken, g, aggregateRoot);
  }

  lemma ExecuteFreshPair(t1: CreateUser, t2: CreateUser, fork: View, aggregateRoot: View -> Hash)
    requires CurrentTime(fork).Some?
    requires t1.publicKey != t2.publicKey
    requires t1.publicKey !in UsersOf(fork) && t2.publicKey !in UsersOf(fork)
    ensures Execute(t2, Execute(t1, fork, aggregateRoot).1, aggregateRoot).1
         == Execute(t1, Execute(t2, fork, aggregateRoot).1, aggregateRoot).1
  {
    var g1 := Execute(t1, fork, aggregateRoot).1;
    var g2 := Execute(t2, fork, aggregateRoot).1;
    ExecuteFreshKey(t1, fork, aggregateRoot);
    ExecuteFreshKey(t2, fork, aggregateRoot);
    ExecuteFreshKey(t2, g1, aggregateRoot);
    ExecuteFreshKey(t1, g2, aggregateRoot);
    PutsOnDistinctKeysCommute(fork, t1.publicKey, IssuedUser(t1), t2.publicKey, IssuedUser(t2));
  }

  /** CreateUser keeps every entry stored under its own key. */
  lemma ExecutePreservesWellFormed(tx: CreateUser, fork: View, aggregateRoot: View -> Hash)
    requires CurrentTime(fork).Some?
    requires WellFormed(UsersOf(fork))
    ensures WellFormed(UsersOf(Execute(tx, fork, aggregateRoot).1))
  {
  }

  /**
   * Adds `amount` to a user's balance by writing a new record under the key
   * the stored record carries. The caller must guarantee that the user exists
   * and that the sum fits in 64 bits.
   */
  function IncreaseUserBalance(fork: View, userId: PublicKey, amount: u64): (r: View)
    requires userId in UsersOf(fork)
    requires UsersOf(fork)[userId].balance + amount <= U64_MAX
    ensures var u := UsersOf(fork)[userId];
            && u.publicKey in UsersOf(r)
            && UsersOf(r)[u.publicKey].publicKey == u.publicKey
            && UsersOf(r)[u.publicKey].name == u.name
            && UsersOf(r)[u.publicKey].balance == u.balance + amount
            && UsersOf(r)[u.publicKey].userAddress == u.userAddress
    ensures forall k :: k != UsersOf(fork)[userId].publicKey ==>
              (k in UsersOf(r) <==> k in UsersOf(fork))
              && (k in UsersOf(fork) ==> UsersOf(r)[k] == UsersOf(fork)[k])
    ensures OnlyTableChanged(fork, r, USERS_TABLE)
  {
    var schema := New(fork);
    var user := Get(Users(schema), userId).value;
    Put(UsersMut(schema), user.publicKey,
        User(user.publicKey, user.name, user.balance + amount, user.userAddress))
  }

  /**
   * Subtracts `amount` from a user's balance by writing a new record under the
   * key the stored record carries. The caller must guarantee that the user
   * exists and holds at least `amount`.
   */
  function DecreaseUserBalance(fork: View, userId: PublicKey, amount: u64): (r: View)
    requires userId in UsersOf(fork)
    requires amount <= UsersOf(fork)[userId].balance
    ensures var u := UsersOf(fork)[userId];
            && u.publicKey in UsersOf(r)
            && UsersOf(r)[u.publicKey].publicKey == u.publicKey
            && UsersOf(r)[u.publicKey].name == u.name
            && UsersOf(r)[u.publicKey].balance == u.balance - amount
            && UsersOf(r)[u.publicKey].userAddress == u.userAddress
    ensures forall k :: k != UsersOf(fork)[userId].publicKey ==>
              (k in UsersOf(r) <==> k in UsersOf(fork))
              && (k in UsersOf(fork) ==> UsersOf(r)[k] == UsersOf(fork)[k])
    ensures OnlyTableChanged(fork, r, USERS_TABLE)
  {
    var schema := New(fork);
    var user := Get(Users(schema), userId).value;
    Put(UsersMut(schema), user.publicKey,
        User(user.publicKey, user.name, user.balance - amount, user.userAddress))
  }

  /**
   * On a well-formed table the helpers rewrite exactly the entry of `userId`:
   * the key set stays the same and the table stays well-formed.
   */
  lemma BalanceHelpersOnWellFormed(fork: View, userId: PublicKey, amount: u64)
    requires WellFormed(UsersOf(fork))
    requires userId in UsersOf(fork)
    ensures UsersOf(fork)[userId].balance + amount <= U64_MAX ==>
              var r := IncreaseUserBalance(fork, userId, amount);
              && UsersOf(r).Keys == UsersOf(fork).Keys
              && UsersOf(r)[userId].balance == UsersOf(fork)[userId].balance + amount
              && WellFormed(UsersOf(r))
    ensures amount <= UsersOf(fork)[userId].balance ==>
              var r := DecreaseUserBalance(fork, userId, amount);
              && UsersOf(r).Keys == UsersOf(fork).Keys
              && UsersOf(r)[userId].balance == UsersOf(fork)[userId].balance - amount
              && WellFormed(UsersOf(r))
  {
  }

  /** Increasing and then decreasing by the same amount gives back the original fork. */
  lemma IncreaseThenDecreaseRestores(fork: View, userId: PublicKey, amount: u64)
    requires WellFormed(UsersOf(fork))
    requires userId in UsersOf(fork)
    requires UsersOf(fork)[userId].balance + amount <= U64_MAX
    ensures var up := IncreaseUserBalance(fork, userId, amount);
            && userId in UsersOf(up)
            && amount <= UsersOf(up)[userId].balance
            && DecreaseUserBalance(up, userId, amount) == fork
  {
    var up := IncreaseUserBalance(fork, userId, amount);
    var down := DecreaseUserBalance(up, userId, amount);
    assert UsersOf(down) == UsersOf(fork);
    assert down.tables == fork.tables;
  }

  /** Decreasing and then increasing by the same amount gives back the original fork. */
  lemma DecreaseThenIncreaseRestores(fork: View, userId: PublicKey, amount: u64)
    requires WellFormed(UsersOf(fork))
    requires userId in UsersOf(fork)
    requires amount <= UsersOf(fork)[userId].balance
    ensures var down := DecreaseUserBalance(fork, userId, amount);
            && userId in UsersOf(down)
            && UsersOf(down)[userId].balance + amount <= U64_MAX
            && IncreaseUserBalance(down, userId, amount) == fork
  {
    var down := DecreaseUserBalance(fork, userId, amount);
    var up := IncreaseUserBalance(down, userId, amount);
    assert UsersOf(up) == UsersOf(fork);
    assert up.tables == fork.tables;
  }
}
