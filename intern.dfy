/** The string interning pool of src/intern.rs: every distinct string is
    stored once, in `flatPool` by id and in `mapPool` by text. The process-
    wide static, its `Once` initialiser and its `RwLock` are one object here;
    `initialised` records whether `intern` has run (`ONCE.is_completed()`). */
module Intern {
  import opened Bytes

  /** `PoolId`: an index into the flat pool. */
  datatype PoolId = PoolId(id: nat)

  datatype PoolError =
    | Uninitialised  // `get_str` before any `intern`: the assertion fails
    | OutOfRange     // an id the pool never issued: the index panics

  class StringPool {
    var initialised: bool
    var flatPool: seq<Text>
    var mapPool: map<Text, nat>

    /** The two tables are inverses: the flat pool holds each string once,
        and the map sends each string to its index. */
    ghost predicate Valid()
      reads this
    {
      && (forall i :: 0 <= i < |flatPool| ==> flatPool[i] in mapPool && mapPool[flatPool[i]] == i)
      && (forall s :: s in mapPool ==> mapPool[s] < |flatPool| && flatPool[mapPool[s]] == s)
      && (!initialised ==> flatPool == [])
    }

    /** The pool before `ONCE.call_once` has run. */
    constructor ()
      ensures Valid() && !initialised && flatPool == [] && mapPool == map[]
    {
      initialised := false;
      flatPool := [];
      mapPool := map[];
    }

    /** `intern`: the id already stored for `s`, or, for a new string, the
        old pool length, with `s` appended to the flat pool and entered into
        the map. Issued ids keep their strings. */
    method Intern(s: Text) returns (id: PoolId)
      requires Valid()
      modifies this
      ensures Valid() && initialised
      ensures s in old(mapPool) ==>
        id.id == old(mapPool[s]) && flatPool == old(flatPool) && mapPool == old(mapPool)
      ensures s !in old(mapPool) ==>
        id.id == old(|flatPool|) && flatPool == old(flatPool) + [s] && mapPool == old(mapPool)[s := id.id]
      ensures GetStr(id) == Ok(s)
      ensures forall j :: 0 <= j < old(|flatPool|) ==> GetStr(PoolId(j)) == old(GetStr(PoolId(j)))
    {
      initialised := true;
      if s in mapPool {
        return PoolId(mapPool[s]);
      }
      id := PoolId(|flatPool|);
      flatPool := flatPool + [s];
      mapPool := mapPool[s := id.id];
    }

    /** `get_str`: the string an id stands for; the two panics of the
        source are the two errors. */
    function GetStr(p: PoolId): (r: Result<Text, PoolError>)
      reads this
      ensures r.Ok? <==> initialised && p.id < |flatPool|
      ensures r.Ok? ==> r.value == flatPool[p.id]
      ensures !initialised ==> r == Err(Uninitialised)
    {
      if !initialised then Err(Uninitialised)
      else if p.id < |flatPool| then Ok(flatPool[p.id])
      else Err(OutOfRange)
    }
  }

  /** Distinct strings in a valid pool have distinct ids. */
  lemma DistinctIds(pool: StringPool, s: Text, t: Text)
    requires pool.Valid()
    requires s in pool.mapPool && t in pool.mapPool && s != t
    ensures pool.mapPool[s] != pool.mapPool[t]
  {
    assert pool.flatPool[pool.mapPool[s]] == s;
  }

  /** The flat pool of a valid pool holds no string twice. */
  lemma NoDuplicates(pool: StringPool, i: nat, j: nat)
    requires pool.Valid()
    requires i < j < |pool.flatPool|
    ensures pool.flatPool[i] != pool.flatPool[j]
  {
    assert pool.mapPool[pool.flatPool[i]] == i;
  }
}
