/**
 * The client's root records provider: the saved playlist records by playlist id, with the
 * operations that add one record and remove one. Each builds a fresh map and installs it;
 * the map it replaces is a value and is not changed.
 */
module RootRecords {
  import opened Wrappers
  import opened JsObject
  import opened FiorModel
  import opened Seqs

  class RecordsProvider {
    /** The `records` state, playlist id to record, in enumeration order. */
    var records: Rec<string, PlaylistRecord>

    ghost predicate Valid()
      reads this
    {
      DistinctKeys(records)
    }

    /** `useState(readLocalRecords())`, with the stored records given. */
    constructor (stored: Rec<string, PlaylistRecord>)
      requires DistinctKeys(stored)
      ensures Valid() && records == stored
    {
      records := stored;
    }

    /**
     * `addRecord`: `{ ...records, [record.playlist_id]: record }` installed as the new state;
     * the record lands at its playlist id, over any previous one, and every other id keeps its record.
     */
    method AddRecord(record: PlaylistRecord)
      requires Valid()
      modifies this
      ensures Valid()
      ensures records == Put(old(records), record.playlistId, record)
      ensures Get(records, record.playlistId) == Some(record)
      ensures forall id :: id != record.playlistId ==> Get(records, id) == Get(old(records), id)
    {
      records := Put(records, record.playlistId, record);
    }

    /**
     * `removeRecord(id)`: a fresh object filled, in enumeration order, with every entry whose
     * key is not `id`, installed as the new state.
     */
    method RemoveRecord(id: string)
      requires Valid()
      modifies this
      ensures Valid()
      ensures records == Remove(old(records), id)
      ensures Get(records, id) == None
      ensures forall k :: k != id ==> Get(records, k) == Get(old(records), k)
      ensures id !in Keys(old(records)) ==> records == old(records)
    {
      var rs := records;
      var newRecords: Rec<string, PlaylistRecord> := [];
      for i := 0 to |rs|
        invariant newRecords == Remove(rs[..i], id)
      {
        var key := rs[i].0;
        CopyStep(rs, i, id);
        if key != id {
          newRecords := Put(newRecords, key, rs[i].1);
        }
      }
      assert rs[..|rs|] == rs;
      records := newRecords;
    }
  }

  /** One step of the `for...in` copy: the entry at `i` is copied, at the end, unless its key is `id`. */
  lemma CopyStep<V>(rs: Rec<string, V>, i: nat, id: string)
    requires DistinctKeys(rs) && i < |rs|
    ensures Remove(rs[..i + 1], id) ==
      if rs[i].0 == id then Remove(rs[..i], id) else Put(Remove(rs[..i], id), rs[i].0, rs[i].1)
  {
    var pre, e := rs[..i], rs[i];
    TakeSnoc(rs, i);
    RemoveSnoc(pre, e, id);
    if e.0 != id {
      KeyNotYetCopied(rs, i, id);
      PutAbsent(Remove(pre, id), e.0, e.1);
    }
  }

  /** With distinct keys, the key at `i` is not among the entries copied from before `i`. */
  lemma KeyNotYetCopied<V>(rs: Rec<string, V>, i: nat, id: string)
    requires DistinctKeys(rs) && i < |rs|
    ensures rs[i].0 !in Keys(Remove(rs[..i], id))
  {
    var key := rs[i].0;
    forall j | 0 <= j < i ensures Keys(rs[..i])[j] != key {
      assert rs[..i][j] == rs[j];
    }
    assert Get(rs[..i], key) == None;
  }
}
