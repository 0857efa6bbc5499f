/** What a MapReduce job must output, independently of how it is computed. */
module MrOutput {
  import opened MrText

  type Reducer = (Text, seq<Text>) -> Text

  /** The order of the values does not matter to Reduce. */
  ghost predicate Insensitive(f: Reducer) {
    forall k, a, b {:trigger f(k, a), f(k, b)} :: multiset(a) == multiset(b) ==> f(k, a) == f(k, b)
  }

  ghost predicate HasKey(b: multiset<KeyValue>, k: Text) {
    exists v :: KeyValue(k, v) in b
  }

  /** vs holds exactly the values that b has for k, each as often as b has it. */
  ghost predicate AreValues(vs: seq<Text>, b: multiset<KeyValue>, k: Text) {
    forall v :: multiset(vs)[v] == b[KeyValue(k, v)]
  }

  ghost predicate Reduced(kv: KeyValue, b: multiset<KeyValue>, f: Reducer) {
    exists vs :: AreValues(vs, b, kv.key) && kv.value == f(kv.key, vs)
  }

  ghost predicate Emits(out: seq<KeyValue>, k: Text) {
    exists i :: 0 <= i < |out| && out[i].key == k
  }

  /** One record for each key of b, in increasing order, with the reduction of its values. */
  ghost predicate IsOutput(out: seq<KeyValue>, b: multiset<KeyValue>, f: Reducer) {
    && (forall i, j :: 0 <= i < j < |out| ==> Less(out[i].key, out[j].key))
    && (forall k :: Emits(out, k) <==> HasKey(b, k))
    && (forall i :: 0 <= i < |out| ==> Reduced(out[i], b, f))
  }

  lemma NoOutput(f: Reducer)
    ensures IsOutput([], multiset{}, f)
  {
  }

  /** b is c and the records of one more key. */
  ghost predicate AddsGroup(b: multiset<KeyValue>, c: multiset<KeyValue>, k: Text, vs: seq<Text>) {
    forall kv :: b[kv] == c[kv] + if kv.key == k then multiset(vs)[kv.value] else 0
  }

  /** When all values of a key greater than all before have been collected, it can be output. */
  lemma EmitGroup(out: seq<KeyValue>, c: multiset<KeyValue>, b: multiset<KeyValue>, k: Text, vs: seq<Text>, f: Reducer)
    requires IsOutput(out, c, f) && AddsGroup(b, c, k, vs) && vs != []
    requires forall kv :: kv in c ==> Less(kv.key, k)
    ensures IsOutput(out + [KeyValue(k, f(k, vs))], b, f)
  {
    var out' := out + [KeyValue(k, f(k, vs))];
    LessTotal(k, k);
    forall i | 0 <= i < |out| ensures Less(out[i].key, k) {
      assert Emits(out, out[i].key);
      var v :| KeyValue(out[i].key, v) in c;
    }
    forall j ensures Emits(out', j) <==> HasKey(b, j) {
      KeysGrow(out, c, b, k, vs, f, j);
    }
    forall i | 0 <= i < |out'| ensures Reduced(out'[i], b, f) {
      if i < |out| {
        assert Reduced(out[i], c, f);
        var us :| AreValues(us, c, out[i].key) && out[i].value == f(out[i].key, us);
        assert AreValues(us, b, out[i].key) by {
          forall v ensures multiset(us)[v] == b[KeyValue(out[i].key, v)] {}
        }
      } else {
        assert AreValues(vs, b, k) by {
          forall v ensures multiset(vs)[v] == b[KeyValue(k, v)] {
            assert KeyValue(k, v) !in c;
          }
        }
      }
    }
  }

  lemma KeysGrow(out: seq<KeyValue>, c: multiset<KeyValue>, b: multiset<KeyValue>, k: Text, vs: seq<Text>, f: Reducer, j: Text)
    requires IsOutput(out, c, f) && AddsGroup(b, c, k, vs) && vs != []
    ensures Emits(out + [KeyValue(k, f(k, vs))], j) <==> HasKey(b, j)
  {
    var out' := out + [KeyValue(k, f(k, vs))];
    if j == k {
      assert out'[|out|].key == k;
      assert vs[0] in multiset(vs);
      assert KeyValue(k, vs[0]) in b;
    } else {
      assert Emits(out, j) <==> HasKey(c, j);
      if Emits(out, j) {
        var i :| 0 <= i < |out| && out[i].key == j;
        assert out'[i].key == j;
        var v :| KeyValue(j, v) in c;
        assert KeyValue(j, v) in b;
      }
      if HasKey(b, j) {
        var v :| KeyValue(j, v) in b;
        assert KeyValue(j, v) in c;
        var i :| 0 <= i < |out| && out[i].key == j;
        assert out'[i].key == j;
      }
    }
  }

  // ---------- The output is determined ----------

  lemma SameValue(x: KeyValue, y: KeyValue, b: multiset<KeyValue>, c: multiset<KeyValue>, f: Reducer)
    requires Insensitive(f) && Reduced(x, b, f) && Reduced(y, c, f) && x.key == y.key
    requires forall v :: b[KeyValue(x.key, v)] == c[KeyValue(x.key, v)]
    ensures x == y
  {
    var us :| AreValues(us, b, x.key) && x.value == f(x.key, us);
    var vs :| AreValues(vs, c, y.key) && y.value == f(y.key, vs);
    assert multiset(us) == multiset(vs) by {
      forall v ensures multiset(us)[v] == multiset(vs)[v] {}
    }
  }

  /** A record is output at most once. */
  lemma {:induction false} OnceAtMost(out: seq<KeyValue>, kv: KeyValue)
    requires forall i, j :: 0 <= i < j < |out| ==> Less(out[i].key, out[j].key)
    ensures multiset(out)[kv] == if kv in out then 1 else 0
  {
    if out != [] {
      var n := |out| - 1;
      OnceAtMost(out[..n], kv);
      assert out == out[..n] + [out[n]];
      if out[n] == kv && kv in out[..n] {
        var i :| 0 <= i < n && out[..n][i] == kv;
        LessTotal(kv.key, kv.key);
      }
    }
  }

  /** Two jobs whose data agree on a key output the same record for it, or none. */
  lemma SameRecord(o: seq<KeyValue>, b: multiset<KeyValue>, p: seq<KeyValue>, c: multiset<KeyValue>, f: Reducer, kv: KeyValue)
    requires Insensitive(f) && IsOutput(o, b, f) && IsOutput(p, c, f)
    requires forall v :: b[KeyValue(kv.key, v)] == c[KeyValue(kv.key, v)]
    ensures kv in o ==> kv in p
  {
    if kv in o {
      var i :| 0 <= i < |o| && o[i] == kv;
      assert Emits(o, kv.key);
      var v :| KeyValue(kv.key, v) in b;
      assert KeyValue(kv.key, v) in c;
      assert Emits(p, kv.key);
      var j :| 0 <= j < |p| && p[j].key == kv.key;
      assert Reduced(o[i], b, f) && Reduced(p[j], c, f);
      SameValue(o[i], p[j], b, c, f);
    }
  }

  // ---------- Partitions ----------

  function Flat<T>(rs: seq<seq<T>>): seq<T> {
    if rs == [] then [] else Flat(rs[..|rs| - 1]) + rs[|rs| - 1]
  }

  /** The records of partition r. */
  ghost predicate IsPart(part: multiset<KeyValue>, all: multiset<KeyValue>, h: Text -> nat, n: nat, r: nat)
    requires n >= 1
  {
    forall kv :: part[kv] == if h(kv.key) % n == r then all[kv] else 0
  }

  /** A record is in the outputs of all partitions together as often as in that of its own. */
  lemma {:induction false} OnlyOwnPartition(outs: seq<seq<KeyValue>>, kv: KeyValue, r: nat)
    requires r < |outs| && forall i :: 0 <= i < |outs| && i != r ==> kv !in outs[i]
    ensures multiset(Flat(outs))[kv] == multiset(outs[r])[kv]
  {
    var n := |outs| - 1;
    if r == n {
      NotInFlat(outs[..n], kv);
    } else {
      OnlyOwnPartition(outs[..n], kv, r);
      assert kv !in outs[n];
    }
  }

  lemma {:induction false} NotInFlat(outs: seq<seq<KeyValue>>, kv: KeyValue)
    requires forall i :: 0 <= i < |outs| ==> kv !in outs[i]
    ensures multiset(Flat(outs))[kv] == 0
  {
    if outs != [] {
      NotInFlat(outs[..|outs| - 1], kv);
    }
  }

  /** Reducing the partitions of a job one by one outputs the same records as reducing it all. */
  lemma PartitionsAreWhole(outs: seq<seq<KeyValue>>, parts: seq<multiset<KeyValue>>, whole: seq<KeyValue>,
                           all: multiset<KeyValue>, h: Text -> nat, f: Reducer)
    requires Insensitive(f) && |outs| == |parts| >= 1 && IsOutput(whole, all, f)
    requires forall r :: 0 <= r < |parts| ==> IsPart(parts[r], all, h, |parts|, r) && IsOutput(outs[r], parts[r], f)
    ensures multiset(Flat(outs)) == multiset(whole)
  {
    forall kv ensures multiset(Flat(outs))[kv] == multiset(whole)[kv] {
      var r := h(kv.key) % |parts|;
      forall i | 0 <= i < |outs| && i != r ensures kv !in outs[i] {
        OwnPartition(outs[i], parts[i], all, h, |parts|, i, f, kv);
      }
      OnlyOwnPartition(outs, kv, r);
      assert IsPart(parts[r], all, h, |parts|, r) && IsOutput(outs[r], parts[r], f);
      SameRecord(outs[r], parts[r], whole, all, f, kv);
      SameRecord(whole, all, outs[r], parts[r], f, kv);
      OnceAtMost(outs[r], kv);
      OnceAtMost(whole, kv);
    }
  }

  lemma OwnPartition(out: seq<KeyValue>, part: multiset<KeyValue>, all: multiset<KeyValue>, h: Text -> nat, n: nat, r: nat, f: Reducer, kv: KeyValue)
    requires n >= 1 && IsPart(part, all, h, n, r) && IsOutput(out, part, f)
    ensures kv in out ==> h(kv.key) % n == r
  {
    if kv in out {
      var i :| 0 <= i < |out| && out[i] == kv;
      assert Emits(out, kv.key);
      var v :| KeyValue(kv.key, v) in part;
    }
  }
}
