/** Map tasks, whole jobs, and the sequential program that jobs must agree with. */
module MrJob {
  import opened MrText
  import opened MrOutput
  import opened MrReduce
  import opened MrMerge

  const MAP_BUFFER_SIZE := 1024

  // ---------- Sorting by key ----------

  /** `sort.Sort(ByKey(...))`: a sorted permutation. */
  method SortByKey(ks: seq<KeyValue>) returns (s: seq<KeyValue>)
    ensures Sorted(s) && multiset(s) == multiset(ks)
  {
    s := [];
    for i := 0 to |ks|
      invariant Sorted(s) && multiset(s) == multiset(ks[..i])
    {
      assert ks[..i + 1] == ks[..i] + [ks[i]];
      s := InsertByKey(ks[i], s);
    }
    assert ks[..|ks|] == ks;
  }

  method InsertByKey(kv: KeyValue, s: seq<KeyValue>) returns (t: seq<KeyValue>)
    requires Sorted(s)
    ensures Sorted(t) && multiset(t) == multiset(s) + multiset{kv}
  {
    var i := |s|;
    while i > 0 && Less(kv.key, s[i - 1].key)
      invariant 0 <= i <= |s| && forall j :: i <= j < |s| ==> Less(kv.key, s[j].key)
    {
      i := i - 1;
    }
    t := s[..i] + [kv] + s[i..];
    assert s == s[..i] + s[i..];
    Inserted(kv, s, i);
  }

  lemma Inserted(kv: KeyValue, s: seq<KeyValue>, i: nat)
    requires Sorted(s) && i <= |s| && forall j :: i <= j < |s| ==> Less(kv.key, s[j].key)
    requires i > 0 ==> !Less(kv.key, s[i - 1].key)
    ensures Sorted(s[..i] + [kv] + s[i..])
  {
    var t := s[..i] + [kv] + s[i..];
    forall a, b | 0 <= a < b < |t| ensures !Less(t[b].key, t[a].key) {
      if a == i {
        LessTotal(kv.key, s[b - 1].key);
      } else if b == i && a < i - 1 {
        NotLessTransitive(s[a].key, s[i - 1].key, kv.key);
      }
    }
  }

  // ---------- The map task ----------

  /** What partition r has written and what it still holds are its share of the records so far. */
  ghost predicate Holds(w: seq<KeyValue>, p: seq<KeyValue>, t: Text, all: multiset<KeyValue>, h: Text -> nat, n: nat, r: nat)
    requires n >= 1
  {
    t == Print(w) && IsPart(multiset(w) + multiset(p), all, h, n, r)
  }

  /** Splits the records of one input over n files: a full buffer is sorted and appended. What is
      read back from file r is the share of partition r, if the records are ones that the text
      format can carry. */
  method DoMap(kva: seq<KeyValue>, n: nat, h: Text -> nat) returns (files: seq<Text>, ghost written: seq<seq<KeyValue>>)
    requires n >= 1
    ensures |files| == |written| == n
    ensures forall r :: 0 <= r < n ==> files[r] == Print(written[r]) && IsPart(multiset(written[r]), multiset(kva), h, n, r)
    ensures (forall i :: 0 <= i < |kva| ==> Clean(kva[i])) ==>
              forall r :: 0 <= r < n ==> IsPart(multiset(Records(files[r])), multiset(kva), h, n, r)
  {
    hide Holds, Print, IsPart, Records, Clean;
    var part := new seq<KeyValue>[n](i => []);
    var size := new nat[n](i => 0);
    var writers := new Text[n](i => []);
    written := seq(n, i => []);
    forall r | 0 <= r < n ensures Holds(written[r], part[r], writers[r], multiset(kva[..0]), h, n, r) {
      HoldsNothing(h, n, r);
    }
    for i := 0 to |kva|
      invariant |written| == n
      invariant forall r :: 0 <= r < n ==> Holds(written[r], part[r], writers[r], multiset(kva[..i]), h, n, r)
    {
      var kv := kva[i];
      var rid := h(kv.key) % n;
      assert multiset(kva[..i + 1]) == multiset(kva[..i]) + multiset{kv} by {
        assert kva[..i + 1] == kva[..i] + [kv];
      }
      forall r | 0 <= r < n
        ensures Holds(written[r], if r == rid then part[r] + [kv] else part[r], writers[r], multiset(kva[..i + 1]), h, n, r)
      {
        HoldsMore(written[r], part[r], writers[r], multiset(kva[..i]), h, n, r, kv);
      }
      part[rid] := part[rid] + [kv];
      size[rid] := size[rid] + |kv.key| + |kv.value| + 2;
      if size[rid] >= MAP_BUFFER_SIZE {
        written := Flush(part, size, writers, rid, written, multiset(kva[..i + 1]), h);
      }
    }
    assert kva[..|kva|] == kva;
    for rid := 0 to n
      invariant |written| == n
      invariant forall r :: 0 <= r < n ==> Holds(written[r], part[r], writers[r], multiset(kva), h, n, r)
      invariant forall r :: 0 <= r < rid ==> part[r] == []
    {
      written := Flush(part, size, writers, rid, written, multiset(kva), h);
    }
    files := writers[..];
    forall r | 0 <= r < n ensures files[r] == Print(written[r]) && IsPart(multiset(written[r]), multiset(kva), h, n, r) {
      HoldsAll(written[r], writers[r], multiset(kva), h, n, r);
    }
    if forall i :: 0 <= i < |kva| ==> Clean(kva[i]) {
      forall r | 0 <= r < n ensures IsPart(multiset(Records(files[r])), multiset(kva), h, n, r) {
        FileRecords(files, written, kva, n, h, r);
      }
    }
  }

  lemma HoldsNothing(h: Text -> nat, n: nat, r: nat)
    requires n >= 1
    ensures Holds([], [], [], multiset([]), h, n, r)
  {
  }

  lemma HoldsMore(w: seq<KeyValue>, p: seq<KeyValue>, t: Text, all: multiset<KeyValue>, h: Text -> nat, n: nat, r: nat, kv: KeyValue)
    requires n >= 1 && Holds(w, p, t, all, h, n, r)
    ensures Holds(w, if r == h(kv.key) % n then p + [kv] else p, t, all + multiset{kv}, h, n, r)
  {
    hide Print;
  }

  lemma HoldsAll(w: seq<KeyValue>, t: Text, all: multiset<KeyValue>, h: Text -> nat, n: nat, r: nat)
    requires n >= 1 && Holds(w, [], t, all, h, n, r)
    ensures t == Print(w) && IsPart(multiset(w), all, h, n, r)
  {
    hide Print;
    assert multiset(w) + multiset([]) == multiset(w);
  }

  lemma HoldsFlushed(w: seq<KeyValue>, p: seq<KeyValue>, ks: seq<KeyValue>, t: Text, t': Text,
                     all: multiset<KeyValue>, h: Text -> nat, n: nat, r: nat)
    requires n >= 1 && Holds(w, p, t, all, h, n, r) && multiset(ks) == multiset(p) && t' == Print(w + ks)
    ensures Holds(w + ks, [], t', all, h, n, r)
  {
    hide Print;
    assert multiset(w + ks) + multiset([]) == multiset(w) + multiset(p);
  }

  /** Sorts the batch of one partition and appends it to its file. */
  method Flush(part: array<seq<KeyValue>>, size: array<nat>, writers: array<Text>, rid: nat, ghost written: seq<seq<KeyValue>>,
               ghost all: multiset<KeyValue>, ghost h: Text -> nat)
    returns (ghost written': seq<seq<KeyValue>>)
    requires rid < part.Length == size.Length == writers.Length == |written|
    requires Holds(written[rid], part[rid], writers[rid], all, h, part.Length, rid)
    modifies part, size, writers
    ensures |written'| == |written| && part[rid] == [] && Holds(written'[rid], [], writers[rid], all, h, part.Length, rid)
    ensures |written[rid]| <= |written'[rid]| && Sorted(written'[rid][|written[rid]|..])
    ensures old(part[rid]) != [] ==> size[rid] == 0
    ensures forall r :: 0 <= r < |written| && r != rid ==>
              written'[r] == written[r] && part[r] == old(part[r]) && size[r] == old(size[r]) && writers[r] == old(writers[r])
  {
    hide Holds, Print;
    ghost var w := written[rid];
    var batch := part[rid];
    if |batch| == 0 {
      assert w[|w|..] == [];
      return written;
    }
    var ks := SortByKey(batch);
    ghost var before := writers[rid];
    HoldsText(w, batch, before, all, h, part.Length, rid);
    writers[rid] := WriteBatch(writers[rid], ks, w);
    part[rid] := [];
    size[rid] := 0;
    written' := written[rid := w + ks];
    assert (w + ks)[|w|..] == ks;
    HoldsFlushed(w, batch, ks, before, writers[rid], all, h, part.Length, rid);
  }

  lemma HoldsText(w: seq<KeyValue>, p: seq<KeyValue>, t: Text, all: multiset<KeyValue>, h: Text -> nat, n: nat, r: nat)
    requires n >= 1 && Holds(w, p, t, all, h, n, r)
    ensures t == Print(w)
  {
  }

  method WriteBatch(text: Text, ks: seq<KeyValue>, ghost w: seq<KeyValue>) returns (text': Text)
    requires text == Print(w)
    ensures text' == Print(w + ks)
  {
    hide Print, Line;
    text' := text;
    assert w + ks[..0] == w;
    for i := 0 to |ks|
      invariant text' == Print(w + ks[..i])
    {
      assert w + ks[..i + 1] == (w + ks[..i]) + [ks[i]];
      PrintAppend(w + ks[..i], [ks[i]]);
      PrintOne(ks[i]);
      text' := text' + Line(ks[i]);
    }
    assert ks[..|ks|] == ks;
  }

  lemma PrintOne(kv: KeyValue)
    ensures Print([kv]) == Line(kv)
  {
    assert Print([kv][1..]) == [];
  }

  // ---------- The sequential program ----------

  /** `mrsequential`: sort everything, then one Reduce call for each stretch of equal keys. */
  method Sequential(kva: seq<KeyValue>, f: Reducer) returns (out: seq<KeyValue>)
    ensures IsOutput(out, multiset(kva), f)
  {
    hide IsOutput, AddsGroup, Less;
    var s := SortByKey(kva);
    out := [];
    NoOutput(f);
    var i := 0;
    while i < |s|
      invariant 0 <= i <= |s| && IsOutput(out, multiset(s[..i]), f)
      invariant i < |s| ==> forall k :: 0 <= k < i ==> Less(s[k].key, s[i].key)
    {
      var j := i + 1;
      while j < |s| && s[j].key == s[i].key
        invariant i < j <= |s| && forall k :: i <= k < j ==> s[k].key == s[i].key
      {
        j := j + 1;
      }
      var values: seq<Text> := [];
      NoValues(multiset(s[..i]), s[i].key);
      for k := i to j
        invariant AddsGroup(multiset(s[..k]), multiset(s[..i]), s[i].key, values) && |values| == k - i
      {
        OneMoreValue(s, i, k, values);
        values := values + [s[k].value];
      }
      forall kv | kv in multiset(s[..i]) ensures Less(kv.key, s[i].key) {
        var k :| 0 <= k < i && s[..i][k] == kv;
      }
      EmitGroup(out, multiset(s[..i]), multiset(s[..j]), s[i].key, values, f);
      out := out + [KeyValue(s[i].key, f(s[i].key, values))];
      if j < |s| {
        NextKey(s, i, j);
      }
      i := j;
    }
    assert s[..|s|] == s;
  }

  lemma NoValues(b: multiset<KeyValue>, k: Text)
    ensures AddsGroup(b, b, k, [])
  {
  }

  lemma OneMoreValue(s: seq<KeyValue>, i: nat, k: nat, values: seq<Text>)
    requires i <= k < |s| && s[k].key == s[i].key
    requires AddsGroup(multiset(s[..k]), multiset(s[..i]), s[i].key, values)
    ensures AddsGroup(multiset(s[..k + 1]), multiset(s[..i]), s[i].key, values + [s[k].value])
  {
    assert s[..k + 1] == s[..k] + [s[k]];
  }

  lemma NextKey(s: seq<KeyValue>, i: nat, j: nat)
    requires Sorted(s) && i < j < |s| && s[j].key != s[i].key && forall k :: i <= k < j ==> s[k].key == s[i].key
    requires forall k :: 0 <= k < i ==> Less(s[k].key, s[i].key)
    ensures forall k :: 0 <= k < j ==> Less(s[k].key, s[j].key)
  {
    LessTotal(s[i].key, s[j].key);
    forall k | 0 <= k < j ensures Less(s[k].key, s[j].key) {
      if k < i {
        LessTransitive(s[k].key, s[i].key, s[j].key);
      }
    }
  }

  // ---------- Whole jobs ----------

  /** The files that the map tasks wrote for partition r. */
  function FilesOf(mapped: seq<seq<Text>>, r: nat): seq<Text>
    requires forall m :: 0 <= m < |mapped| ==> r < |mapped[m]|
  {
    seq(|mapped|, m requires 0 <= m < |mapped| => mapped[m][r])
  }

  /** Every input mapped once, every partition reduced once, in whatever batches, runs and orders:
      for a Reduce that does not depend on the order of its values, the outputs of all partitions
      together are those of the sequential program. `inputs` are what Map emitted for each file. */
  method Distributed(inputs: seq<seq<KeyValue>>, n: nat, h: Text -> nat, f: Reducer, buf: nat) returns (outs: seq<seq<KeyValue>>)
    requires n >= 1 && buf >= 1 && Insensitive(f)
    requires forall m, i :: 0 <= m < |inputs| && 0 <= i < |inputs[m]| ==> Clean(inputs[m][i])
    ensures |outs| == n
    ensures forall whole :: IsOutput(whole, multiset(Flat(inputs)), f) ==> multiset(Flat(outs)) == multiset(whole)
  {
    hide IsOutput, Insensitive, Records, Print, Clean;
    var mapped: seq<seq<Text>> := [];
    ghost var written: seq<seq<seq<KeyValue>>> := [];
    for m := 0 to |inputs|
      invariant |mapped| == |written| == m
      invariant forall k :: 0 <= k < m ==> MapOk(mapped[k], written[k], inputs[k], n, h)
    {
      var files;
      ghost var w;
      files, w := DoMap(inputs[m], n, h);
      mapped := mapped + [files];
      written := written + [w];
    }
    outs := [];
    ghost var parts: seq<multiset<KeyValue>> := [];
    for r := 0 to n
      invariant |outs| == |parts| == r
      invariant forall k :: 0 <= k < r ==> IsPart(parts[k], multiset(Flat(inputs)), h, n, k) && IsOutput(outs[k], parts[k], f)
    {
      forall k | 0 <= k < |mapped| ensures r < |mapped[k]| {
        assert MapOk(mapped[k], written[k], inputs[k], n, h);
      }
      PartitionFiles(inputs, mapped, written, n, h, r);
      var out := DoReduce(FilesOf(mapped, r), buf, f);
      outs := outs + [out];
      parts := parts + [multiset(AllRecords(FilesOf(mapped, r)))];
    }
    forall whole | IsOutput(whole, multiset(Flat(inputs)), f) ensures multiset(Flat(outs)) == multiset(whole) {
      PartitionsAreWhole(outs, parts, whole, multiset(Flat(inputs)), h, f);
    }
  }

  ghost predicate MapOk(files: seq<Text>, w: seq<seq<KeyValue>>, kva: seq<KeyValue>, n: nat, h: Text -> nat) {
    && n >= 1 && |files| == |w| == n
    && forall r :: 0 <= r < n ==> files[r] == Print(w[r]) && IsPart(multiset(w[r]), multiset(kva), h, n, r)
  }

  /** What a map task wrote for a partition is read back by the reduce task. */
  lemma FileRecords(files: seq<Text>, w: seq<seq<KeyValue>>, kva: seq<KeyValue>, n: nat, h: Text -> nat, r: nat)
    requires MapOk(files, w, kva, n, h) && r < n && forall i :: 0 <= i < |kva| ==> Clean(kva[i])
    ensures IsPart(multiset(Records(files[r])), multiset(kva), h, n, r)
  {
    hide Print, Records, Clean;
    forall i | 0 <= i < |w[r]| ensures Clean(w[r][i]) {
      assert w[r][i] in multiset(w[r]);
      assert w[r][i] in multiset(kva);
    }
    PrintParses(w[r]);
  }

  lemma {:induction false} PartitionFiles(inputs: seq<seq<KeyValue>>, mapped: seq<seq<Text>>, written: seq<seq<seq<KeyValue>>>,
                                          n: nat, h: Text -> nat, r: nat)
    requires n >= 1 && |mapped| == |written| == |inputs| && r < n && forall k :: 0 <= k < |mapped| ==> r < |mapped[k]|
    requires forall k :: 0 <= k < |inputs| ==> MapOk(mapped[k], written[k], inputs[k], n, h)
    requires forall m, i :: 0 <= m < |inputs| && 0 <= i < |inputs[m]| ==> Clean(inputs[m][i])
    ensures IsPart(multiset(AllRecords(FilesOf(mapped, r))), multiset(Flat(inputs)), h, n, r)
  {
    hide Print, Records, Clean;
    if inputs != [] {
      var k := |inputs| - 1;
      PartitionFiles(inputs[..k], mapped[..k], written[..k], n, h, r);
      FileRecords(mapped[k], written[k], inputs[k], n, h, r);
      assert FilesOf(mapped, r)[..k] == FilesOf(mapped[..k], r);
    }
  }
}
