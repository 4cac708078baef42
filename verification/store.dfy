/**
 The per-item download state store of `maniluaManager`: a map from item id to
 a field map. A write merges the given fields into the entry (creating it),
 a read returns the entry or an empty map. The lock around both only provides
 mutual exclusion, so the store is modelled sequentially.
 */
module StateStore {
  import opened Wrappers
  import opened Values

  type Store = map<int, Fields>

  /** `_get_download_state`: a snapshot of the entry, `{}` for an unknown id. */
  function Read(store: Store, id: int): Fields
  {
    if id in store then store[id] else map[]
  }

  /** `_set_download_state`: merge `update` into the entry for `id`. */
  function Write(store: Store, id: int, update: Fields): (r: Store)
    ensures r.Keys == store.Keys + {id}
    ensures r[id].Keys == Read(store, id).Keys + update.Keys
    ensures forall k :: k in update ==> r[id][k] == update[k]
    ensures forall k :: k in Read(store, id) && k !in update ==> r[id][k] == Read(store, id)[k]
    ensures forall other :: other in store && other != id ==> r[other] == store[other]
  {
    store[id := Read(store, id) + update]
  }

  /** `get_download_status`: the snapshot wrapped in a success envelope. */
  function DownloadStatus(store: Store, id: int): (r: Fields)
    ensures Has(r, "success", VBool(true))
    ensures Has(r, "state", VObj(Read(store, id)))
    ensures id in store ==> r["state"] == VObj(store[id])
    ensures id !in store ==> r["state"] == VObj(map[])
  {
    map["success" := VBool(true), "state" := VObj(Read(store, id))]
  }

  /** Fields after merging `updates` into `base` one after the other. */
  function Merged(base: Fields, updates: seq<Fields>): Fields
    decreases |updates|
  {
    if |updates| == 0 then base else Merged(base + updates[0], updates[1..])
  }

  /** The store after writing `updates` to `id` in order. */
  function WriteAll(store: Store, id: int, updates: seq<Fields>): Store
    decreases |updates|
  {
    if |updates| == 0 then store else WriteAll(Write(store, id, updates[0]), id, updates[1..])
  }

  /** The `"status"` string of an update, if it carries one. */
  function StatusOf(u: Fields): Option<string>
  {
    if "status" in u && u["status"].VStr? then Some(u["status"].s) else None
  }

  /** The status an update moves to, as a sequence of zero or one strings. */
  function StatusStep(u: Fields): seq<string>
  {
    match StatusOf(u)
    case Some(s) => [s]
    case None => []
  }

  /** The statuses a sequence of updates moves through, in order. */
  function Statuses(updates: seq<Fields>): seq<string>
    decreases |updates|
  {
    if |updates| == 0 then [] else StatusStep(updates[0]) + Statuses(updates[1..])
  }

  // ---------------------------------------------------------------------------
  // Properties of the store

  /**
   Reading after a write: the written id sees the merge of its old fields and
   the update; every other id reads exactly as before (and an id that was
   never written still reads as `{}`).
   */
  lemma ReadAfterWrite(store: Store, id: int, update: Fields, other: int)
    ensures Read(Write(store, id, update), id) == Read(store, id) + update
    ensures other != id ==> Read(Write(store, id, update), other) == Read(store, other)
  {
  }

  /** A partial write never drops a field recorded earlier. */
  lemma WriteKeepsFields(store: Store, id: int, update: Fields)
    ensures Read(store, id).Keys <= Read(Write(store, id, update), id).Keys
  {
  }

  lemma {:induction false} MergedSnoc(base: Fields, updates: seq<Fields>, u: Fields)
    ensures Merged(base, updates + [u]) == Merged(base, updates) + u
    decreases |updates|
  {
    if |updates| > 0 {
      assert (updates + [u])[1..] == updates[1..] + [u];
      MergedSnoc(base + updates[0], updates[1..], u);
    }
  }

  /** Writing a sequence of updates stores their merge and leaves other ids alone. */
  lemma {:induction false} WriteAllMerges(store: Store, id: int, updates: seq<Fields>)
    requires |updates| > 0
    ensures WriteAll(store, id, updates) == store[id := Merged(Read(store, id), updates)]
    decreases |updates|
  {
    var next := Write(store, id, updates[0]);
    assert next == store[id := Read(store, id) + updates[0]];
    hide Write;
    if |updates| > 1 {
      WriteAllMerges(next, id, updates[1..]);
      assert Read(next, id) == Read(store, id) + updates[0];
    }
  }

  /** The last update decides each field it carries. */
  lemma LastUpdateWins(base: Fields, updates: seq<Fields>, k: string)
    requires |updates| > 0 && k in updates[|updates| - 1]
    ensures k in Merged(base, updates)
    ensures Merged(base, updates)[k] == updates[|updates| - 1][k]
  {
    var n := |updates|;
    assert updates == updates[..n - 1] + [updates[n - 1]];
    MergedSnoc(base, updates[..n - 1], updates[n - 1]);
  }

  /** A field an update does not carry keeps the value it had before that update. */
  lemma UntouchedFieldKept(base: Fields, updates: seq<Fields>, u: Fields, k: string)
    requires k !in u && k in Merged(base, updates)
    ensures k in Merged(base, updates + [u])
    ensures Merged(base, updates + [u])[k] == Merged(base, updates)[k]
  {
    MergedSnoc(base, updates, u);
  }

  lemma {:induction false} StatusesConcat(a: seq<Fields>, b: seq<Fields>)
    ensures Statuses(a + b) == Statuses(a) + Statuses(b)
    decreases |a|
  {
    if |a| > 0 {
      assert (a + b)[1..] == a[1..] + b;
      assert (a + b)[0] == a[0];
      StatusesConcat(a[1..], b);
    } else {
      assert a + b == b;
    }
  }
}
