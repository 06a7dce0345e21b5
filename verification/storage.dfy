/** The multi-version store: for each key, an ordered map from commit timestamp to tagged value. */
module VersionStore {
  import opened TxTypes

  datatype Version = Version(ts: Timestamp, txid: TxID, value: Value)

  /** An ordered map, listed by increasing timestamp. */
  type History = h: seq<Version> | Sorted(h)

  predicate Sorted(h: seq<Version>) {
    forall i, j :: 0 <= i < j < |h| ==> h[i].ts < h[j].ts
  }

  /** `get_last` asserts that a key which is present has at least one version. */
  type Data = data: map<Key, History> | forall k :: k in data ==> data[k] != []

  function HistoryOf(data: Data, k: Key): History {
    if k in data then data[k] else []
  }

  /** The number of versions not newer than `ts`. */
  function UpperBound(h: History, ts: Timestamp): (i: nat)
    ensures i <= |h|
    ensures forall j :: 0 <= j < i ==> h[j].ts <= ts
    ensures forall j :: i <= j < |h| ==> ts < h[j].ts
  {
    if h == [] then 0
    else if h[|h| - 1].ts <= ts then |h|
    else UpperBound(h[..|h| - 1], ts)
  }

  /** Ordered-map insertion: an existing timestamp keeps its value. */
  function Insert(h: History, v: Version): (r: History)
    ensures r != []
  {
    var i := UpperBound(h, v.ts);
    if i > 0 && h[i - 1].ts == v.ts then h else h[..i] + [v] + h[i..]
  }

  /** Insertion adds the version exactly when its timestamp is new, and never changes another one. */
  lemma InsertKeepsExisting(h: History, v: Version, w: Version)
    ensures w in Insert(h, v) <==> w in h || (w == v && forall u :: u in h ==> u.ts != v.ts)
  {}

  function GetLast(data: Data, k: Key): Option<Version> {
    if k !in data then None else Some(data[k][|data[k]| - 1])
  }

  /** `v` is the newest version of `k`. */
  ghost predicate Newest(data: Data, k: Key, v: Version) {
    v in HistoryOf(data, k) && forall u :: u in HistoryOf(data, k) ==> u.ts <= v.ts
  }

  function Apply(data: Data, k: Key, v: Version): Data {
    data[k := Insert(HistoryOf(data, k), v)]
  }

  /** The newest version of a key decides: it bounds the timestamp of every other one. */
  lemma LastIsNewest(data: Data, k: Key, v: Version)
    requires v in HistoryOf(data, k)
    ensures GetLast(data, k).Some? && v.ts <= GetLast(data, k).value.ts
    ensures GetLast(data, k).value in HistoryOf(data, k)
  {}

  class Storage {
    var data: Data

    constructor ()
      ensures data == map[]
    {
      data := map[];
    }

    method GetLastVersion(k: Key) returns (v: Option<Version>)
      ensures v == GetLast(data, k)
      ensures v.None? <==> HistoryOf(data, k) == []
      ensures v.Some? ==> v.value in HistoryOf(data, k)
      ensures v.Some? ==> forall u :: u in HistoryOf(data, k) ==> u.ts <= v.value.ts
    {
      if k !in data {
        return None;
      }
      v := Some(data[k][|data[k]| - 1]);
    }

    method ApplyPut(txid: TxID, commitTs: Timestamp, put: KeyValue)
      modifies this
      ensures data == Apply(old(data), put.key, Version(commitTs, txid, put.value))
    {
      var h: History := if put.key in data then data[put.key] else [];
      data := data[put.key := Insert(h, Version(commitTs, txid, put.value))];
    }
  }
}
