/** Merging sorted runs with a heap, and the whole reduce task. */
module MrMerge {
  import opened MrText
  import opened MrReader
  import opened MrOutput
  import opened MrReduce

  /** The next unread record of a run. */
  datatype Item = Item(kv: KeyValue, seg: nat)

  // ---------- The heap ----------

  /** What `heap.Pop` returns: the position of an item with a smallest key. */
  method Smallest(h: seq<Item>) returns (m: nat)
    requires h != []
    ensures m < |h| && forall j :: 0 <= j < |h| ==> !Less(h[j].kv.key, h[m].kv.key)
  {
    m := 0;
    LessTotal(h[0].kv.key, h[0].kv.key);
    for i := 1 to |h|
      invariant m < i && forall j :: 0 <= j < i ==> !Less(h[j].kv.key, h[m].kv.key)
    {
      if Less(h[i].kv.key, h[m].kv.key) {
        forall j | 0 <= j < i ensures !Less(h[j].kv.key, h[i].kv.key) {
          LessTotal(h[i].kv.key, h[m].kv.key);
          NotLessTransitive(h[i].kv.key, h[m].kv.key, h[j].kv.key);
        }
        LessTotal(h[i].kv.key, h[i].kv.key);
        m := i;
      }
    }
  }

  ghost function Kvs(h: seq<Item>): (r: seq<KeyValue>)
    ensures |r| == |h| && forall i :: 0 <= i < |h| ==> r[i] == h[i].kv
  {
    seq(|h|, i requires 0 <= i < |h| => h[i].kv)
  }

  ghost function Keys(h: seq<Item>): multiset<KeyValue> {
    multiset(Kvs(h))
  }

  lemma KeysWithout(h: seq<Item>, m: nat)
    requires m < |h|
    ensures Keys(h) == Keys(h[..m] + h[m + 1..]) + multiset{h[m].kv}
  {
    var r := Kvs(h);
    assert r == r[..m] + [h[m].kv] + r[m + 1..];
    assert Kvs(h[..m] + h[m + 1..]) == r[..m] + r[m + 1..];
  }

  lemma KeysMore(h: seq<Item>, x: Item)
    ensures Keys(h + [x]) == Keys(h) + multiset{x.kv}
  {
    assert Kvs(h + [x]) == Kvs(h) + [x.kv];
  }

  // ---------- What is left in the runs ----------

  ghost function Left(rem: seq<seq<KeyValue>>): multiset<KeyValue> {
    if rem == [] then multiset{} else Left(rem[..|rem| - 1]) + multiset(rem[|rem| - 1])
  }

  lemma {:induction false} LeftUpdate(rem: seq<seq<KeyValue>>, i: nat)
    requires i < |rem| && rem[i] != []
    ensures Left(rem) == Left(rem[i := rem[i][1..]]) + multiset{rem[i][0]}
  {
    var n := |rem| - 1;
    assert rem[i] == [rem[i][0]] + rem[i][1..];
    if i < n {
      LeftUpdate(rem[..n], i);
      assert rem[i := rem[i][1..]][..n] == rem[..n][i := rem[..n][i][1..]];
    } else {
      assert rem[i := rem[i][1..]][..n] == rem[..n];
    }
  }

  lemma {:induction false} LeftIsFlat(rem: seq<seq<KeyValue>>)
    ensures Left(rem) == multiset(Flat(rem))
  {
    if rem != [] {
      LeftIsFlat(rem[..|rem| - 1]);
    }
  }

  lemma {:induction false} NothingLeft(rem: seq<seq<KeyValue>>)
    requires forall i :: 0 <= i < |rem| ==> rem[i] == []
    ensures Left(rem) == multiset{}
  {
    if rem != [] {
      NothingLeft(rem[..|rem| - 1]);
    }
  }

  // ---------- Invariants of the merge ----------

  /** The heap has an item for every run with unread records, in front of them in order. */
  ghost predicate HeapOk(h: seq<Item>, rem: seq<seq<KeyValue>>) {
    && (forall j :: 0 <= j < |h| ==> h[j].seg < |rem| && Sorted([h[j].kv] + rem[h[j].seg]))
    && (forall i :: 0 <= i < |rem| && rem[i] != [] ==> InHeap(h, i))
  }

  ghost predicate InHeap(h: seq<Item>, i: nat) {
    exists j :: 0 <= j < |h| && h[j].seg == i
  }

  /** No key that is still to come is smaller. */
  ghost predicate Lowest(key: Text, h: seq<Item>) {
    forall j :: 0 <= j < |h| ==> !Less(h[j].kv.key, key)
  }

  /** The state of the output: `done` are all records taken from the heap, of which those of the
      last key are collected in `values`, and the others are reduced. */
  ghost predicate Collected(out: seq<KeyValue>, c: multiset<KeyValue>, done: multiset<KeyValue>,
                            started: bool, key: Text, values: seq<Text>, f: Reducer) {
    && IsOutput(out, c, f)
    && (if started then values != [] && AddsGroup(done, c, key, values) && forall kv :: kv in c ==> Less(kv.key, key)
        else c == done == multiset{})
  }

  lemma CollectedKeys(out: seq<KeyValue>, c: multiset<KeyValue>, done: multiset<KeyValue>, key: Text, values: seq<Text>,
                      f: Reducer, next: Text)
    requires Collected(out, c, done, true, key, values, f) && Less(key, next)
    ensures forall kv :: kv in done ==> Less(kv.key, next)
  {
    forall kv | kv in done ensures Less(kv.key, next) {
      if kv in c {
        LessTransitive(kv.key, key, next);
      }
    }
  }

  /** A record with a greater key closes the group before. */
  lemma NewGroup(out: seq<KeyValue>, c: multiset<KeyValue>, done: multiset<KeyValue>, started: bool, key: Text,
                 values: seq<Text>, f: Reducer, kv: KeyValue)
    requires Collected(out, c, done, started, key, values, f) && (started ==> Less(key, kv.key))
    ensures Collected(if started then out + [KeyValue(key, f(key, values))] else out, done, done + multiset{kv},
                      true, kv.key, [kv.value], f)
  {
    if started {
      EmitGroup(out, c, done, key, values, f);
      CollectedKeys(out, c, done, key, values, f, kv.key);
    }
  }

  /** A record with the same key joins it. */
  lemma SameGroup(out: seq<KeyValue>, c: multiset<KeyValue>, done: multiset<KeyValue>, key: Text, values: seq<Text>,
                  f: Reducer, kv: KeyValue)
    requires Collected(out, c, done, true, key, values, f) && kv.key == key
    ensures Collected(out, c, done + multiset{kv}, true, key, values + [kv.value], f)
  {
    forall x ensures (done + multiset{kv})[x] == c[x] + if x.key == key then multiset(values + [kv.value])[x.value] else 0 {
    }
  }

  /** The smallest item goes; the keys that follow it in its run are not smaller. */
  lemma Popped(h: seq<Item>, rem: seq<seq<KeyValue>>, m: nat, h': seq<Item>)
    requires HeapOk(h, rem) && m < |h| && h' == h[..m] + h[m + 1..]
    requires forall j :: 0 <= j < |h| ==> !Less(h[j].kv.key, h[m].kv.key)
    ensures Lowest(h[m].kv.key, h')
    ensures forall j :: 0 <= j < |h'| ==> h'[j].seg < |rem| && Sorted([h'[j].kv] + rem[h'[j].seg])
    ensures forall i :: 0 <= i < |rem| && rem[i] != [] && i != h[m].seg ==> InHeap(h', i)
  {
    forall i | 0 <= i < |rem| && rem[i] != [] && i != h[m].seg ensures InHeap(h', i) {
      assert InHeap(h, i);
      var j :| 0 <= j < |h| && h[j].seg == i;
      assert if j < m then h'[j].seg == i else h'[j - 1].seg == i;
    }
  }

  /** Refilling the heap from the run of the item that went. */
  lemma Refilled(h': seq<Item>, rem: seq<seq<KeyValue>>, s: nat, kv: KeyValue)
    requires s < |rem| && rem[s] != [] && Sorted([kv] + rem[s]) && Lowest(kv.key, h')
    requires forall j :: 0 <= j < |h'| ==> h'[j].seg < |rem| && Sorted([h'[j].kv] + rem[h'[j].seg])
    requires forall i :: 0 <= i < |rem| && rem[i] != [] && i != s ==> InHeap(h', i)
    ensures var rem', h2 := rem[s := rem[s][1..]], h' + [Item(rem[s][0], s)];
            && HeapOk(h2, rem') && Lowest(kv.key, h2)
  {
    var rem', h2 := rem[s := rem[s][1..]], h' + [Item(rem[s][0], s)];
    assert ([kv] + rem[s])[1] == rem[s][0] && ([kv] + rem[s])[0] == kv;
    forall j | 0 <= j < |h2| ensures Sorted([h2[j].kv] + rem'[h2[j].seg]) {
      if j < |h'| {
        if h'[j].seg == s {
          SortedDrop(h'[j].kv, rem[s]);
        }
      } else {
        assert [rem[s][0]] + rem[s][1..] == ([kv] + rem[s])[1..];
        SortedTail([kv] + rem[s]);
      }
    }
    forall i | 0 <= i < |rem'| && rem'[i] != [] ensures InHeap(h2, i) {
      if i == s {
        assert h2[|h'|].seg == s;
      } else {
        assert InHeap(h', i);
        var j :| 0 <= j < |h'| && h'[j].seg == i;
        assert h2[j].seg == i;
      }
    }
  }

  lemma SortedTail(r: seq<KeyValue>)
    requires Sorted(r) && r != []
    ensures Sorted(r[1..])
  {
  }

  lemma SortedDrop(kv: KeyValue, r: seq<KeyValue>)
    requires Sorted([kv] + r) && r != []
    ensures Sorted([kv] + r[1..])
  {
    var a, b := [kv] + r, [kv] + r[1..];
    forall i, j | 0 <= i < j < |b| ensures !Less(b[j].key, b[i].key) {
      assert b[j] == a[j + 1] && b[i] == a[if i == 0 then 0 else i + 1];
    }
  }

  // ---------- The merge ----------

  ghost predicate ReadersOk(readers: seq<LineReader>, rem: seq<seq<KeyValue>>)
    reads readers
  {
    && |readers| == |rem|
    && (forall i :: 0 <= i < |readers| ==> readers[i].Valid() && Records(readers[i].Rest()) == rem[i])
    && (forall i, j :: 0 <= i < j < |readers| ==> readers[i] != readers[j])
  }

  /** The next record of one run; the other readers do not move. */
  method Advance(readers: seq<LineReader>, s: nat, ghost rem: seq<seq<KeyValue>>) returns (kv: KeyValue, ok: bool)
    requires s < |readers| && ReadersOk(readers, rem)
    modifies readers
    ensures ok == (rem[s] != []) && (ok ==> kv == rem[s][0])
    ensures ReadersOk(readers, if ok then rem[s := rem[s][1..]] else rem)
  {
    hide Records, FirstRecord, AfterLine, Whole;
    EmptyRecords();
    var start;
    assert Records(readers[s].Rest()) == rem[s];
    start, kv, ok := readers[s].Next();
    if !ok {
      assert readers[s].Rest() == [];
    } else {
      assert rem[s] == [kv] + Records(readers[s].Rest());
      assert rem[s][1..] == Records(readers[s].Rest());
    }
  }

  /** Every run's first record goes into the heap. */
  method FillHeap(readers: seq<LineReader>, ghost all: seq<seq<KeyValue>>) returns (h: seq<Item>, ghost rem: seq<seq<KeyValue>>)
    requires ReadersOk(readers, all) && AllSorted(all)
    modifies readers
    ensures ReadersOk(readers, rem) && HeapOk(h, rem) && Keys(h) + Left(rem) == Left(all)
  {
    hide Sorted, Records, ReadersOk, Filling, Keys, Left;
    h, rem := [], all;
    StartFilling(all);
    OneEach(readers, all);
    for i := 0 to |readers|
      invariant ReadersOk(readers, rem) && |rem| == |all| == |readers| && Filling(h, rem, all, i)
    {
      var kv, ok := Advance(readers, i, rem);
      FirstItem(h, rem, all, i);
      if ok {
        h := h + [Item(kv, i)];
        rem := rem[i := rem[i][1..]];
      }
    }
    Filled(h, rem, all);
  }

  /** The first i runs have their first record in the heap. */
  ghost predicate Filling(h: seq<Item>, rem: seq<seq<KeyValue>>, all: seq<seq<KeyValue>>, i: nat) {
    && |rem| == |all| && i <= |all| && Keys(h) + Left(rem) == Left(all)
    && (forall j :: i <= j < |all| ==> rem[j] == all[j])
    && (forall j :: 0 <= j < |h| ==> h[j].seg < i && Sorted([h[j].kv] + rem[h[j].seg]))
    && (forall k :: 0 <= k < i && rem[k] != [] ==> InHeap(h, k))
  }

  lemma OneEach(readers: seq<LineReader>, rem: seq<seq<KeyValue>>)
    requires ReadersOk(readers, rem)
    ensures |readers| == |rem|
  {
  }

  lemma StartFilling(all: seq<seq<KeyValue>>)
    ensures Filling([], all, all, 0)
  {
  }

  lemma Filled(h: seq<Item>, rem: seq<seq<KeyValue>>, all: seq<seq<KeyValue>>)
    requires Filling(h, rem, all, |all|)
    ensures HeapOk(h, rem) && Keys(h) + Left(rem) == Left(all)
  {
    hide Sorted;
  }

  lemma FirstItem(h: seq<Item>, rem: seq<seq<KeyValue>>, all: seq<seq<KeyValue>>, i: nat)
    requires Filling(h, rem, all, i) && i < |all| && AllSorted(all)
    ensures if rem[i] == [] then Filling(h, rem, all, i + 1)
            else Filling(h + [Item(rem[i][0], i)], rem[i := rem[i][1..]], all, i + 1)
  {
    hide Sorted, Keys, Left;
    if rem[i] != [] {
      assert [rem[i][0]] + rem[i][1..] == rem[i];
      LeftUpdate(rem, i);
      KeysMore(h, Item(rem[i][0], i));
      StillInHeap(h, rem, i);
    }
  }

  lemma StillInHeap(h: seq<Item>, rem: seq<seq<KeyValue>>, i: nat)
    requires i < |rem| && rem[i] != [] && forall k :: 0 <= k < i && rem[k] != [] ==> InHeap(h, k)
    ensures forall k :: 0 <= k < i + 1 && rem[i := rem[i][1..]][k] != [] ==> InHeap(h + [Item(rem[i][0], i)], k)
  {
    var h', rem' := h + [Item(rem[i][0], i)], rem[i := rem[i][1..]];
    forall k | 0 <= k < i + 1 && rem'[k] != [] ensures InHeap(h', k) {
      if k == i {
        assert h'[|h|].seg == i;
      } else {
        assert InHeap(h, k);
        var j :| 0 <= j < |h| && h[j].seg == k;
        assert h'[j].seg == k;
      }
    }
  }

  /** Takes the records of all runs in the order of their keys, collects the values of each key, and
      reduces them: whatever the runs and however ties are broken, each key is output once, in
      increasing order, with exactly its values over all runs. */
  method Merge(readers: seq<LineReader>, f: Reducer, ghost all: seq<seq<KeyValue>>) returns (out: seq<KeyValue>)
    requires ReadersOk(readers, all) && AllSorted(all)
    modifies readers
    ensures IsOutput(out, multiset(Flat(all)), f)
  {
    hide Sorted, IsOutput, Records, ReadersOk, HeapOk, Collected, Lowest, Keys, Left, Flat, Refillable;
    out := [];
    var h: seq<Item>;
    ghost var rem: seq<seq<KeyValue>>;
    h, rem := FillHeap(readers, all);
    var lastKey: Text, values: seq<Text>, started := [], [], false;
    ghost var c: multiset<KeyValue>, done: multiset<KeyValue> := multiset{}, multiset{};
    NothingCollected(f);
    LeftIsFlat(all);
    while |h| > 0
      invariant ReadersOk(readers, rem) && HeapOk(h, rem)
      invariant done + (Keys(h) + Left(rem)) == Left(all)
      invariant Collected(out, c, done, started, lastKey, values, f)
      invariant started ==> Lowest(lastKey, h)
      decreases |Keys(h) + Left(rem)|
    {
      var m := Smallest(h);
      var it := h[m];
      ghost var before := Keys(h) + Left(rem);
      PopFacts(h, rem, m, started, lastKey);
      if !started || it.kv.key != lastKey {
        NewGroup(out, c, done, started, lastKey, values, f, it.kv);
        if started {
          out := out + [KeyValue(lastKey, f(lastKey, values))];
        }
        lastKey := it.kv.key;
        values := [it.kv.value];
        started := true;
        c := done;
      } else {
        SameGroup(out, c, done, lastKey, values, f, it.kv);
        values := values + [it.kv.value];
      }
      done := done + multiset{it.kv};
      h := h[..m] + h[m + 1..];
      var kv, ok := TakeNext(readers, it.seg, h, it.kv, rem);
      if ok {
        h := h + [Item(kv, it.seg)];
        rem := rem[it.seg := rem[it.seg][1..]];
      }
      assert Keys(h) + Left(rem) + multiset{it.kv} == before;
    }
    AllTaken(h, rem);
    assert done == multiset(Flat(all));
    if started {
      EmitLast(out, c, done, lastKey, values, f);
      out := out + [KeyValue(lastKey, f(lastKey, values))];
    } else {
      NothingToEmit(out, c, done, lastKey, values, f);
    }
  }

  lemma NothingCollected(f: Reducer)
    ensures Collected([], multiset{}, multiset{}, false, [], [], f)
  {
    NoOutput(f);
  }

  lemma EmitLast(out: seq<KeyValue>, c: multiset<KeyValue>, done: multiset<KeyValue>, key: Text, values: seq<Text>, f: Reducer)
    requires Collected(out, c, done, true, key, values, f)
    ensures IsOutput(out + [KeyValue(key, f(key, values))], done, f)
  {
    EmitGroup(out, c, done, key, values, f);
  }

  lemma NothingToEmit(out: seq<KeyValue>, c: multiset<KeyValue>, done: multiset<KeyValue>, key: Text, values: seq<Text>, f: Reducer)
    requires Collected(out, c, done, false, key, values, f)
    ensures IsOutput(out, done, f)
  {
  }

  lemma AllTaken(h: seq<Item>, rem: seq<seq<KeyValue>>)
    requires HeapOk(h, rem) && h == []
    ensures Keys(h) + Left(rem) == multiset{}
  {
    forall i | 0 <= i < |rem| ensures rem[i] == [] {
      assert rem[i] != [] ==> InHeap(h, i);
    }
    NothingLeft(rem);
  }

  lemma PopFacts(h: seq<Item>, rem: seq<seq<KeyValue>>, m: nat, started: bool, lastKey: Text)
    requires HeapOk(h, rem) && m < |h| && (started ==> Lowest(lastKey, h))
    requires forall j :: 0 <= j < |h| ==> !Less(h[j].kv.key, h[m].kv.key)
    ensures h[m].seg < |rem| && Refillable(h[..m] + h[m + 1..], rem, h[m].seg, h[m].kv)
    ensures Keys(h) == Keys(h[..m] + h[m + 1..]) + multiset{h[m].kv}
    ensures started && h[m].kv.key != lastKey ==> Less(lastKey, h[m].kv.key)
  {
    Popped(h, rem, m, h[..m] + h[m + 1..]);
    KeysWithout(h, m);
    LessTotal(lastKey, h[m].kv.key);
  }

  /** The heap after an item of run s, kv, was taken and before the next one of that run is added. */
  ghost predicate Refillable(h': seq<Item>, rem: seq<seq<KeyValue>>, s: nat, kv: KeyValue) {
    && s < |rem| && Sorted([kv] + rem[s]) && Lowest(kv.key, h')
    && (forall j :: 0 <= j < |h'| ==> h'[j].seg < |rem| && Sorted([h'[j].kv] + rem[h'[j].seg]))
    && (forall i :: 0 <= i < |rem| && rem[i] != [] && i != s ==> InHeap(h', i))
  }

  /** Reads the record that replaces kv in the heap. */
  method TakeNext(readers: seq<LineReader>, s: nat, h: seq<Item>, taken: KeyValue, ghost rem: seq<seq<KeyValue>>)
    returns (kv: KeyValue, ok: bool)
    requires s < |rem| && ReadersOk(readers, rem) && Refillable(h, rem, s, taken)
    modifies readers
    ensures ok ==> rem[s] != []
    ensures var rem' := if ok then rem[s := rem[s][1..]] else rem;
            var h' := if ok then h + [Item(kv, s)] else h;
            && ReadersOk(readers, rem') && HeapOk(h', rem') && Lowest(taken.key, h')
            && Keys(h') + Left(rem') == Keys(h) + Left(rem)
  {
    kv, ok := Advance(readers, s, rem);
    if ok {
      Refilled(h, rem, s, taken);
      LeftUpdate(rem, s);
      KeysMore(h, Item(kv, s));
    }
  }

  // ---------- The reduce task ----------

  ghost function AllRecords(files: seq<Text>): seq<KeyValue> {
    if files == [] then [] else AllRecords(files[..|files| - 1]) + Records(files[|files| - 1])
  }

  /** Opens a reader for every run of one more file. */
  method OpenRuns(file: Text, segs: seq<Segment>, buf: nat, readers: seq<LineReader>, ghost all: seq<seq<KeyValue>>)
    returns (readers': seq<LineReader>)
    requires buf >= 1 && InFile(segs, file) && ReadersOk(readers, all)
    ensures ReadersOk(readers', all + Runs(segs, file)) && readers <= readers' && |readers'| == |readers| + |segs|
    ensures forall i :: |readers| <= i < |readers'| ==> fresh(readers'[i])
  {
    hide Records;
    readers' := readers;
    for i := 0 to |segs|
      invariant ReadersOk(readers', all + Runs(segs, file)[..i]) && |readers'| == |readers| + i && readers <= readers'
      invariant forall j :: |readers| <= j < |readers'| ==> fresh(readers'[j])
    {
      var lr := new LineReader(file, segs[i].start, segs[i].end, buf);
      readers' := readers' + [lr];
      assert Runs(segs, file)[..i + 1] == Runs(segs, file)[..i] + [Runs(segs, file)[i]];
    }
    assert Runs(segs, file)[..|segs|] == Runs(segs, file);
  }

  lemma {:induction false} FlatAppend<T>(a: seq<seq<T>>, b: seq<seq<T>>)
    ensures Flat(a + b) == Flat(a) + Flat(b)
  {
    if b == [] {
      assert a + b == a;
    } else {
      assert (a + b)[..|a + b| - 1] == a + b[..|b| - 1];
      FlatAppend(a, b[..|b| - 1]);
    }
  }

  /** `doReduce`: reduces the records of all intermediate files of a partition. */
  method DoReduce(files: seq<Text>, buf: nat, f: Reducer) returns (out: seq<KeyValue>)
    requires buf >= 1
    ensures IsOutput(out, multiset(AllRecords(files)), f)
  {
    hide Records, Runs, Flat, Sorted, IsOutput;
    var readers: seq<LineReader> := [];
    ghost var all: seq<seq<KeyValue>> := [];
    NoRuns();
    for i := 0 to |files|
      invariant ReadersOk(readers, all) && AllSorted(all) && Flat(all) == AllRecords(files[..i])
      invariant forall j :: 0 <= j < |readers| ==> fresh(readers[j])
    {
      var segs := FindRuns(files[i], buf);
      readers := OpenRuns(files[i], segs, buf, readers, all);
      FlatAppend(all, Runs(segs, files[i]));
      assert files[..i + 1][..i] == files[..i];
      all := all + Runs(segs, files[i]);
    }
    assert files[..|files|] == files;
    out := Merge(readers, f, all);
  }

  lemma NoRuns()
    ensures Flat<KeyValue>([]) == []
  {
  }
}
