/** The single versioned key/value server, and the same map under `kvraft`. */
module KvServer {
  import opened KvStore

  class KVServer {
    var m: Store

    constructor ()
      ensures m == map[]
    {
      m := map[];
    }

    method Get(key: string) returns (reply: Reply)
      ensures (m, reply) == DoOp(m, Request.Get(key))
    {
      if key !in m {
        return GetReply("", 0, ErrNoKey);
      }
      reply := GetReply(m[key].value, m[key].version, OK);
    }

    method Put(key: string, value: string, version: nat) returns (reply: Reply)
      modifies this
      ensures (m, reply) == DoOp(old(m), Request.Put(key, value, version))
    {
      if key !in m {
        if version != 0 {
          return PutReply(ErrNoKey);
        }
        m := m[key := Item(value, 1)];
        return PutReply(OK);
      }
      if version != m[key].version {
        return PutReply(ErrVersion);
      }
      m := m[key := Item(value, m[key].version + 1)];
      reply := PutReply(OK);
    }

    /** The snapshot is the whole map, and restoring it replaces the whole map. */
    method Snapshot() returns (data: Store)
      ensures data == m
    {
      data := m;
    }

    method Restore(data: Store)
      modifies this
      ensures m == data
    {
      m := data;
    }
  }
}
