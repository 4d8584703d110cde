/** The contract both caches share: a map with expiry that may lose entries but
    never returns anything except the latest accepted write. */
module ExpiringMap {
  import opened Lex

  datatype Key = Key(namespace: Bytes, name: Bytes)

  datatype Cell = Cell(value: Bytes, expiresAt: int)

  /** What one completed operation means for the map, whatever the
      implementation. */
  datatype Observation =
    | Wrote(key: Key, cell: Cell)
    | Removed(key: Key)
    | ClearedNamespace(namespace: Bytes)
    | ClearedAll
    | NoChange

  type Ideal = map<Key, Cell>

  /** The map nothing was ever lost from. */
  function Replay(observations: seq<Observation>): Ideal {
    if observations == [] then map[]
    else Observe(Replay(observations[..|observations| - 1]), observations[|observations| - 1])
  }

  function Observe(m: Ideal, o: Observation): Ideal {
    match o
    case Wrote(key, cell) => m[key := cell]
    case Removed(key) => m - {key}
    case ClearedNamespace(namespace) => map k | k in m && k.namespace != namespace :: m[k]
    case ClearedAll => map[]
    case NoChange => m
  }

  /** The observation overwrites or ends what was stored under the key. */
  predicate Supersedes(o: Observation, key: Key) {
    match o
    case Wrote(k, _) => k == key
    case Removed(k) => k == key
    case ClearedNamespace(namespace) => key.namespace == namespace
    case ClearedAll => true
    case NoChange => false
  }

  /** Observation `i` is the latest write of the key, and nothing ended it since. */
  predicate LatestWrite(observations: seq<Observation>, i: nat, key: Key, cell: Cell) {
    && i < |observations| && observations[i] == Wrote(key, cell)
    && forall j :: i < j < |observations| ==> !Supersedes(observations[j], key)
  }

  /** The lossless map holds exactly the latest writes. */
  lemma {:induction false} ReplayHoldsLatestWrites(observations: seq<Observation>, key: Key, cell: Cell)
    ensures
      var m := Replay(observations);
      (key in m && m[key] == cell) <==> exists i :: LatestWrite(observations, i, key, cell)
    decreases |observations|
  {
    if observations != [] {
      var last := |observations| - 1;
      var earlier := observations[..last];
      ReplayHoldsLatestWrites(earlier, key, cell);
      if observations[last] == Wrote(key, cell) {
        assert LatestWrite(observations, last, key, cell);
      } else if !Supersedes(observations[last], key) {
        if i :| LatestWrite(earlier, i, key, cell) {
          assert LatestWrite(observations, i, key, cell);
        }
        if i :| LatestWrite(observations, i, key, cell) {
          assert LatestWrite(earlier, i, key, cell);
        }
      }
    }
  }

  /** An implementation shows at most what the lossless map holds. */
  predicate Refines(visible: map<Key, Cell>, m: Ideal) {
    forall k :: k in visible ==> k in m && m[k] == visible[k]
  }
}
