/**
 * The public API: snapshot queries, transaction submission, and what each of
 * the three HTTP handlers answers. JSON encoding and routing are not modelled;
 * a response is its kind and the value it serialises.
 */
module Api {
  import opened Wrappers
  import opened DataLayout
  import opened KeyOrder
  import opened Schema
  import opened Transactions
  import opened Constants

  /** The API errors the handlers produce or pass on. */
  datatype ApiError =
    | BadRequest(message: string)
    | Io(message: string)

  /** The value a response serialises to JSON. */
  datatype Json =
    | UserJson(user: User)
    | UsersJson(users: seq<User>)
    | TextJson(text: string)
    | TxHashJson(txHash: Hash)

  /** A successful response: 200 with a JSON body, or 404 with a JSON body. */
  datatype Response = OkResponse(body: Json) | NotFoundResponse(body: Json)

  const USER_NOT_FOUND: string := "User not found"
  const EMPTY_REQUEST_BODY: string := "Empty request body"

  /** Looks a user up in the latest committed snapshot. */
  function GetUser(snapshot: View, publicKey: PublicKey): (r: Option<User>)
    ensures r.Some? <==> publicKey in UsersOf(snapshot)
    ensures r.Some? ==> r.value == UsersOf(snapshot)[publicKey]
  {
    var schema := New(snapshot);
    Get(Users(schema), publicKey)
  }

  /**
   * All users of the latest committed snapshot, in increasing key order;
   * `keys` lists the key each returned user is stored under.
   */
  method GetUsers(snapshot: View) returns (users: seq<User>, ghost keys: seq<PublicKey>)
    ensures |users| == |UsersOf(snapshot)|
    ensures forall i :: 0 <= i < |users| ==> users[i] in UsersOf(snapshot).Values
    ensures forall k :: k in UsersOf(snapshot) ==> UsersOf(snapshot)[k] in users
    ensures WellFormed(UsersOf(snapshot)) ==>
              forall i, j :: 0 <= i < j < |users| ==> Less(users[i].publicKey, users[j].publicKey)
    ensures |keys| == |users|
    ensures StrictlyIncreasing(keys)
    ensures forall k :: k in UsersOf(snapshot) <==> k in keys
    ensures forall i :: 0 <= i < |users| ==> users[i] == UsersOf(snapshot)[keys[i]]
  {
    var schema := New(snapshot);
    var idx := Users(schema);
    users, keys := Values(idx);
  }

  /**
   * Hands a transaction to the node's channel. `txHash` is the host's
   * transaction hash; `send` is the channel's answer, failing with the text of
   * its input/output error.
   */
  function PostTransaction(transaction: Transactions, txHash: Transactions -> Hash,
                           send: Transactions -> Outcome<string>): (r: Result<Hash, ApiError>)
    ensures r.Success? <==> send(transaction).Pass?
    ensures r.Success? ==> r.value == txHash(transaction)
    ensures r.Failure? ==> r.error == Io(send(transaction).error)
  {
    var h := txHash(transaction);
    match send(transaction)
    case Fail(e) => Failure(Io(e))
    case Pass => Success(h)
  }

  /**
   * GET /v1/user/:public_key. `fragment` is the outcome of parsing the key
   * out of the URL; its error is passed on unchanged.
   */
  function HandleGetUser(snapshot: View, fragment: Result<PublicKey, ApiError>): (r: Result<Response, ApiError>)
    ensures fragment.Failure? ==> r == Failure(fragment.error)
    ensures fragment.Success? && fragment.value in UsersOf(snapshot) ==>
              r == Success(OkResponse(UserJson(UsersOf(snapshot)[fragment.value])))
    ensures fragment.Success? && fragment.value !in UsersOf(snapshot) ==>
              r == Success(NotFoundResponse(TextJson(USER_NOT_FOUND)))
  {
    match fragment
    case Failure(e) => Failure(e)
    case Success(publicKey) =>
      match GetUser(snapshot, publicKey)
      case Some(user) => Success(OkResponse(UserJson(user)))
      case None => Success(NotFoundResponse(TextJson(USER_NOT_FOUND)))
  }

  /** GET /v1/users: always 200 with every committed user, in key order. */
  method HandleGetUsers(snapshot: View) returns (r: Result<Response, ApiError>, ghost keys: seq<PublicKey>)
    ensures r.Success? && r.value.OkResponse? && r.value.body.UsersJson?
    ensures |r.value.body.users| == |keys| == |UsersOf(snapshot)|
    ensures StrictlyIncreasing(keys)
    ensures forall k :: k in UsersOf(snapshot) <==> k in keys
    ensures forall i :: 0 <= i < |keys| ==> r.value.body.users[i] == UsersOf(snapshot)[keys[i]]
  {
    var users;
    users, keys := GetUsers(snapshot);
    r := Success(OkResponse(UsersJson(users)));
  }

  /**
   * POST /v1/transaction. `body` is the body parser's answer: a transaction,
   * no body at all, or the text of its parse error.
   */
  function HandlePostTransaction(body: Result<Option<Transactions>, string>, txHash: Transactions -> Hash,
                                 send: Transactions -> Outcome<string>): (r: Result<Response, ApiError>)
    ensures body == Success(None) ==> r == Failure(BadRequest(EMPTY_REQUEST_BODY))
    ensures body.Failure? ==> r == Failure(BadRequest(body.error))
    ensures r.Success? <==> body.Success? && body.value.Some? && send(body.value.value).Pass?
    ensures r.Success? ==> r.value == OkResponse(TxHashJson(txHash(body.value.value)))
    ensures body.Success? && body.value.Some? && send(body.value.value).Fail? ==>
              r == Failure(Io(send(body.value.value).error))
  {
    match body
    case Success(Some(transaction)) =>
      (match PostTransaction(transaction, txHash, send)
       case Failure(e) => Failure(e)
       case Success(h) => Success(OkResponse(TxHashJson(h))))
    case Success(None) => Failure(BadRequest(EMPTY_REQUEST_BODY))
    case Failure(e) => Failure(BadRequest(e))
  }

  /**
   * End to end: a CreateUser for a fresh key is accepted by the channel under
   * its hash, and once executed and committed the user handler serves the new
   * record; before that the handler answered not-found.
   */
  lemma CreatedUserIsServed(tx: CreateUser, committed: View, aggregateRoot: View -> Hash,
                            txHash: Transactions -> Hash, send: Transactions -> Outcome<string>)
    requires CurrentTime(committed).Some?
    requires tx.publicKey !in UsersOf(committed)
    requires send(CreateUserTx(tx)).Pass?
    ensures HandlePostTransaction(Success(Some(CreateUserTx(tx))), txHash, send)
         == Success(OkResponse(TxHashJson(txHash(CreateUserTx(tx)))))
    ensures HandleGetUser(committed, Success(tx.publicKey)) == Success(NotFoundResponse(TextJson(USER_NOT_FOUND)))
    ensures HandleGetUser(Execute(tx, committed, aggregateRoot).1, Success(tx.publicKey))
         == Success(OkResponse(UserJson(User(tx.publicKey, tx.name, 100, UNSPECIFIED_ADDRESS))))
  {
    var after := Execute(tx, committed, aggregateRoot).1;
    assert UsersOf(after)[tx.publicKey] == User(tx.publicKey, tx.name, 100, UNSPECIFIED_ADDRESS);
  }
}
