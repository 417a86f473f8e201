/** Constants the service declares for itself. */
module Constants {
  import opened DataLayout

  /** Unique service identifier. */
  const CORE_SERVICE_ID: u16 := 9999

  /** Name constant declared for the API and configuration. */
  const CORE_SERVICE_NAME: string := "exoneumcore"

  /** Balance every new user is issued. */
  const ISSUE_AMOUNT: u64 := 100
}

/** The service as the host sees it: identity, state hash and commit hook. */
module Service {
  import opened Wrappers
  import opened DataLayout
  import opened Schema
  import opened Constants
  import Transactions

  /** The name the host registers the service under; its tables are prefixed by it. */
  function ServiceName(): (name: string)
    ensures name + ".users" == USERS_TABLE
  {
    "exoneum_core"
  }

  /** The name the service registers under is not the name constant it declares. */
  lemma ServiceNameIsNotNameConstant()
    ensures ServiceName() != CORE_SERVICE_NAME
  {
  }

  function ServiceId(): (id: u16)
    ensures id == 9999
    ensures id == Transactions.SERVICE_ID
  {
    CORE_SERVICE_ID
  }

  /** The service's state hash is the schema's, on the same snapshot. */
  function StateHash(snapshot: View, root: Table -> Hash): (r: seq<Hash>)
    ensures r == Schema.StateHash(New(snapshot), root)
    ensures r == [root(UsersOf(snapshot))]
  {
    var schema := New(snapshot);
    Schema.StateHash(schema, root)
  }

  /** The commit hook reads the oracle time and returns without writing anything. */
  function HandleCommit(snapshot: View): (after: View)
    ensures after == snapshot
  {
    match Transactions.CurrentTime(snapshot)
    case None => snapshot
    case Some(_) => snapshot
  }
}
