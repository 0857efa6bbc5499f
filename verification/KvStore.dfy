/**
 The versioned key/value map that every server of the repository executes: the
 single-server `kvsrv`, the Raft-replicated `kvraft` and, shard by shard, the shard groups.
 */
module KvStore {

  /** `version` is the number of times the key has been written, so it is 1 at creation. */
  datatype Item = Item(value: string, version: nat)

  type Store = map<string, Item>

  datatype Err = OK | ErrNoKey | ErrVersion | ErrMaybe | ErrWrongLeader | ErrWrongGroup | ErrStale | ErrUnreachable

  datatype Request =
    | Get(key: string)
    | Put(key: string, value: string, version: nat)

  datatype Reply =
    | GetReply(value: string, version: nat, err: Err)
    | PutReply(err: Err)

  /** What a conditional Put answers; only `OK` changes the map. */
  function PutErr(m: Store, key: string, version: nat): Err {
    if key !in m then
      if version != 0 then ErrNoKey else OK
    else
      if version != m[key].version then ErrVersion else OK
  }

  /** One committed operation: the new map and the answer. */
  function DoOp(m: Store, op: Request): (Store, Reply) {
    match op
    case Get(k) =>
      (m, if k in m then GetReply(m[k].value, m[k].version, OK) else GetReply("", 0, ErrNoKey))
    case Put(k, v, ver) =>
      var e := PutErr(m, k, ver);
      (if e == OK then m[k := Item(v, ver + 1)] else m, PutReply(e))
  }

  /** Reading and then writing with the version that was read: in the same map the Put is accepted, for a
      key that is there and for one that is not, and the next Get gives its value one version on. */
  lemma ReadThenWrite(m: Store, key: string, value: string)
    ensures var got := DoOp(m, Get(key)).1;
            && got.GetReply?
            && var (m', put) := DoOp(m, Put(key, value, got.version));
            && put == PutReply(OK)
            && DoOp(m', Get(key)).1 == GetReply(value, got.version + 1, OK)
            && forall k :: k != key ==> DoOp(m', Get(k)).1 == DoOp(m, Get(k)).1
  {
  }

  /** With any other version it is refused, and nothing changes. */
  lemma OtherVersionsRefused(m: Store, key: string, value: string, version: nat)
    ensures var got := DoOp(m, Get(key)).1;
            && got.GetReply?
            && (version != got.version ==>
                  DoOp(m, Put(key, value, version)) == (m, PutReply(if got.err == OK then ErrVersion else ErrNoKey)))
  {
  }
}
