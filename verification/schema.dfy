/**
 * The service's database schema: a view of named proof-map tables, the users
 * table inside it, and the list of root hashes the service contributes to the
 * ledger-wide state hash.
 */
module Schema {
  import opened Wrappers
  import opened DataLayout
  import opened KeyOrder

  /** Contents of one proof-map table: public key to user record. */
  type Table = map<PublicKey, User>

  const HASH_LENGTH: nat := 32
  type Hash = h: seq<u8> | |h| == HASH_LENGTH witness seq(HASH_LENGTH, _ => 0)

  /** A timestamp of the time oracle; only its presence matters to this service. */
  type Time = int

  /**
   * A storage view (a snapshot or a fork): the proof-map tables by name, and the
   * value the time oracle's table currently holds.
   */
  datatype View = View(tables: map<string, Table>, oracleTime: Option<Time>)

  /** The one table the service owns. */
  const USERS_TABLE: string := "exoneum_core.users"

  /** A proof-map index: a table name resolved against a view. */
  datatype MapIndex = MapIndex(name: string, view: View)

  /** The entries of an index; a table never written to is empty. */
  function Entries(ix: MapIndex): Table
  {
    if ix.name in ix.view.tables then ix.view.tables[ix.name] else map[]
  }

  /** Point lookup in an index. */
  function Get(ix: MapIndex, k: PublicKey): (r: Option<User>)
    ensures r.Some? <==> k in Entries(ix)
    ensures r.Some? ==> r.value == Entries(ix)[k]
  {
    if k in Entries(ix) then Some(Entries(ix)[k]) else None
  }

  /** The view differs from `before` at most in table `name`. */
  ghost predicate OnlyTableChanged(before: View, after: View, name: string)
  {
    && after.oracleTime == before.oracleTime
    && forall n :: n != name ==>
         (n in after.tables <==> n in before.tables)
         && (n in after.tables ==> after.tables[n] == before.tables[n])
  }

  /** Insert or wholesale-replace one entry; returns the updated view. */
  function Put(ix: MapIndex, k: PublicKey, u: User): (v: View)
    ensures k in Entries(MapIndex(ix.name, v)) && Entries(MapIndex(ix.name, v))[k] == u
    ensures forall j :: j != k ==>
              (j in Entries(MapIndex(ix.name, v)) <==> j in Entries(ix))
              && (j in Entries(ix) ==> Entries(MapIndex(ix.name, v))[j] == Entries(ix)[j])
    ensures OnlyTableChanged(ix.view, v, ix.name)
  {
    ix.view.(tables := ix.view.tables[ix.name := Entries(ix)[k := u]])
  }

  /** Enumerates the values of an index in increasing key order. */
  method Values(ix: MapIndex) returns (vs: seq<User>, ghost ks: seq<PublicKey>)
    ensures |vs| == |Entries(ix)|
    ensures forall i :: 0 <= i < |vs| ==> vs[i] in Entries(ix).Values
    ensures forall k :: k in Entries(ix) ==> Entries(ix)[k] in vs
    ensures |ks| == |vs|
    ensures StrictlyIncreasing(ks)
    ensures forall k :: k in Entries(ix) <==> k in ks
    ensures forall i :: 0 <= i < |ks| ==> ks[i] in Entries(ix) && vs[i] == Entries(ix)[ks[i]]
  {
    var entries := Entries(ix);
    var remaining := entries.Keys;
    vs := [];
    ks := [];
    while remaining != {}
      invariant remaining <= entries.Keys
      invariant |vs| == |ks|
      invariant |ks| + |remaining| == |entries|
      invariant StrictlyIncreasing(ks)
      invariant forall k :: k in entries ==> (k in ks <==> k !in remaining)
      invariant forall i :: 0 <= i < |ks| ==> ks[i] in entries && vs[i] == entries[ks[i]]
      invariant forall i, k :: 0 <= i < |ks| && k in remaining ==> Less(ks[i], k)
      decreases remaining
    {
      MinimumExists(remaining);
      var k :| IsMinimum(k, remaining);
      vs := vs + [entries[k]];
      ks := ks + [k];
      remaining := remaining - {k};
    }
  }

  /** The schema object: nothing but a wrapper around a view. */
  datatype CoreSchema = CoreSchema(view: View)

  function New(view: View): (s: CoreSchema)
    ensures s.view == view
  {
    CoreSchema(view)
  }

  /** Read accessor of the users table. */
  function Users(s: CoreSchema): (ix: MapIndex)
    ensures ix.name == USERS_TABLE
    ensures ix.view == s.view
  {
    MapIndex(USERS_TABLE, s.view)
  }

  /** Write accessor of the users table; it names the same table as `Users`. */
  function UsersMut(s: CoreSchema): (ix: MapIndex)
    ensures ix.name == USERS_TABLE
    ensures ix == Users(s)
  {
    MapIndex(USERS_TABLE, s.view)
  }

  /** The users table of a view. */
  function UsersOf(v: View): Table
  {
    Entries(Users(New(v)))
  }

  /** The hashes the service contributes to the ledger's state hash; `root` is the proof map's Merkle root. */
  function StateHash(s: CoreSchema, root: Table -> Hash): (r: seq<Hash>)
    ensures |r| == 1
    ensures r[0] == root(UsersOf(s.view))
  {
    [root(Entries(Users(s)))]
  }

  /** A write through `UsersMut` is what a later read through `Users` sees, and nothing else moves. */
  lemma PutVisibleThroughUsers(s: CoreSchema, k: PublicKey, u: User)
    ensures Get(Users(New(Put(UsersMut(s), k, u))), k) == Some(u)
    ensures forall j :: j != k ==> Get(Users(New(Put(UsersMut(s), k, u))), j) == Get(Users(s), j)
    ensures OnlyTableChanged(s.view, Put(UsersMut(s), k, u), USERS_TABLE)
  {
  }

  /** Two puts to the users table under different keys commute. */
  lemma PutsOnDistinctKeysCommute(v: View, k1: PublicKey, u1: User, k2: PublicKey, u2: User)
    requires k1 != k2
    ensures Put(UsersMut(New(Put(UsersMut(New(v)), k1, u1))), k2, u2)
         == Put(UsersMut(New(Put(UsersMut(New(v)), k2, u2))), k1, u1)
  {
    var m: Table := UsersOf(v);
    var m1: Table := m[k1 := u1];
    var m2: Table := m[k2 := u2];
    assert m1[k2 := u2] == m2[k1 := u1];
  }

  /** The keys that a sequence of puts writes. */
  function KeysOf(puts: seq<(PublicKey, User)>): set<PublicKey>
  {
    set p | p in puts :: p.0
  }

  predicate DistinctKeys(puts: seq<(PublicKey, User)>)
  {
    forall i, j :: 0 <= i < j < |puts| ==> puts[i].0 != puts[j].0
  }

  /** Applies puts to the users table one after another, first to last. */
  function PutAll(v: View, puts: seq<(PublicKey, User)>): View
    decreases |puts|
  {
    if |puts| == 0 then v
    else PutAll(Put(UsersMut(New(v)), puts[0].0, puts[0].1), puts[1..])
  }

  /** With distinct keys, the users table after a run of puts is determined by the set of pairs. */
  lemma {:induction false} PutAllUsers(v: View, puts: seq<(PublicKey, User)>)
    requires DistinctKeys(puts)
    ensures UsersOf(PutAll(v, puts)).Keys == UsersOf(v).Keys + KeysOf(puts)
    ensures forall p :: p in puts ==> UsersOf(PutAll(v, puts))[p.0] == p.1
    ensures forall k :: k in UsersOf(v) && k !in KeysOf(puts) ==> UsersOf(PutAll(v, puts))[k] == UsersOf(v)[k]
    decreases |puts|
  {
    if |puts| > 0 {
      var v' := Put(UsersMut(New(v)), puts[0].0, puts[0].1);
      var rest := puts[1..];
      assert puts == [puts[0]] + rest;
      assert DistinctKeys(rest) by {
        forall i, j | 0 <= i < j < |rest|
          ensures rest[i].0 != rest[j].0
        {
          assert rest[i] == puts[i + 1] && rest[j] == puts[j + 1];
        }
      }
      assert puts[0].0 !in KeysOf(rest) by {
        forall p | p in rest
          ensures p.0 != puts[0].0
        {
          var j :| 0 <= j < |rest| && rest[j] == p;
          assert puts[j + 1] == p;
        }
      }
      assert KeysOf(puts) == {puts[0].0} + KeysOf(rest);
      PutAllUsers(v', rest);
    }
  }

  /** Two runs of puts with distinct keys and the same pairs, in any order, leave the same users table. */
  lemma PutAllOrderIndependent(v: View, ps: seq<(PublicKey, User)>, qs: seq<(PublicKey, User)>)
    requires DistinctKeys(ps) && DistinctKeys(qs)
    requires forall p :: p in ps <==> p in qs
    ensures UsersOf(PutAll(v, ps)) == UsersOf(PutAll(v, qs))
  {
    PutAllUsers(v, ps);
    PutAllUsers(v, qs);
    assert KeysOf(ps) == KeysOf(qs);
    var a, b := UsersOf(PutAll(v, ps)), UsersOf(PutAll(v, qs));
    forall k | k in a
      ensures a[k] == b[k]
    {
      if k in KeysOf(ps) {
        var p :| p in ps && p.0 == k;
        assert p in qs;
      }
    }
  }

  /**
   * The state hash depends only on the final contents of the users table, not
   * on the order in which they were written.
   */
  lemma StateHashOrderIndependent(v: View, ps: seq<(PublicKey, User)>, qs: seq<(PublicKey, User)>, root: Table -> Hash)
    requires DistinctKeys(ps) && DistinctKeys(qs)
    requires forall p :: p in ps <==> p in qs
    ensures StateHash(New(PutAll(v, ps)), root) == StateHash(New(PutAll(v, qs)), root)
  {
    PutAllOrderIndependent(v, ps, qs);
  }
}
