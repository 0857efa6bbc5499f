/**
 Whole jobs under the coordinator: tasks may be handed out and executed any number of times, by workers
 that crash or are slow, and only the files of accepted reports are read by reduces.
 */
module MrWhole {
  import opened MrText
  import opened MrOutput
  import opened MrMerge
  import opened MrJob
  import opened TaskList
  import C = Coordinator

  /** What Map emits for an input. */
  type Mapper = string -> seq<KeyValue>

  ghost predicate OnDisk(disk: map<string, Text>, names: seq<string>) {
    forall i :: 0 <= i < |names| ==> names[i] in disk
  }

  ghost function Contents(disk: map<string, Text>, names: seq<string>): (ts: seq<Text>)
    requires OnDisk(disk, names)
    ensures |ts| == |names|
  {
    seq(|names|, i requires 0 <= i < |names| => disk[names[i]])
  }

  /** Some execution of the map task has written the files of the report, one for each partition. */
  ghost predicate Executed(disk: map<string, Text>, report: C.MapReport, m: Mapper, n: nat, h: Text -> nat) {
    && n >= 1 && |report.outputs| == n && OnDisk(disk, report.outputs) && "" !in report.outputs
    && exists w :: MapOk(Contents(disk, report.outputs), w, m(report.file), n, h)
  }

  /** Some execution of the reduce task has read the partition's files of the accepted reports. */
  ghost predicate ReducedFrom(disk: map<string, Text>, reports: seq<C.MapReport>, r: nat, out: seq<KeyValue>, f: Reducer) {
    OnDisk(disk, C.Collected(reports, r)) && IsOutput(out, multiset(AllRecords(Contents(disk, C.Collected(reports, r)))), f)
  }

  // ---------- All inputs, in any order ----------

  ghost function Total(files: seq<string>, m: Mapper): multiset<KeyValue> {
    if files == [] then multiset{} else Total(files[..|files| - 1], m) + multiset(m(files[|files| - 1]))
  }

  ghost function Emitted(files: seq<string>, m: Mapper): seq<seq<KeyValue>> {
    seq(|files|, i requires 0 <= i < |files| => m(files[i]))
  }

  lemma {:induction false} TotalIsFlat(files: seq<string>, m: Mapper)
    ensures multiset(Flat(Emitted(files, m))) == Total(files, m)
  {
    if files != [] {
      var k := |files| - 1;
      TotalIsFlat(files[..k], m);
      assert Emitted(files, m)[..k] == Emitted(files[..k], m);
    }
  }

  lemma {:induction false} TotalWithout(files: seq<string>, m: Mapper, i: nat)
    requires i < |files|
    ensures Total(files, m) == Total(files[..i] + files[i + 1..], m) + multiset(m(files[i]))
  {
    var k := |files| - 1;
    var rest := files[..i] + files[i + 1..];
    if i == k {
      assert rest == files[..k];
    } else {
      TotalWithout(files[..k], m, i);
      assert rest[..|rest| - 1] == files[..k][..i] + files[..k][i + 1..];
      assert rest[|rest| - 1] == files[k];
    }
  }

  lemma FirstIn(b: seq<string>)
    ensures b != [] ==> b[0] in SetOf(b)
  {
  }

  lemma {:induction false} TotalPermuted(a: seq<string>, b: seq<string>, m: Mapper)
    requires Distinct(a) && Distinct(b) && SetOf(a) == SetOf(b)
    ensures Total(a, m) == Total(b, m)
  {
    if a == [] {
      FirstIn(b);
    } else {
      var k := |a| - 1;
      var x := a[k];
      assert x in SetOf(b);
      var i :| 0 <= i < |b| && b[i] == x;
      var rest := b[..i] + b[i + 1..];
      SetWithout(a, k);
      SetWithout(b, i);
      DistinctWithout(b, i);
      assert a[..k] + a[k + 1..] == a[..k];
      TotalPermuted(a[..k], rest, m);
      TotalWithout(b, m, i);
    }
  }

  // ---------- The files of a partition ----------

  ghost predicate AllExecuted(disk: map<string, Text>, reports: seq<C.MapReport>, m: Mapper, n: nat, h: Text -> nat) {
    forall i :: 0 <= i < |reports| ==> Executed(disk, reports[i], m, n, h)
  }

  ghost function Mapped(disk: map<string, Text>, reports: seq<C.MapReport>): seq<seq<Text>>
    requires forall i :: 0 <= i < |reports| ==> OnDisk(disk, reports[i].outputs)
  {
    seq(|reports|, i requires 0 <= i < |reports| => Contents(disk, reports[i].outputs))
  }

  /** The file of partition r that the report names. */
  lemma OneFile(disk: map<string, Text>, report: C.MapReport, m: Mapper, n: nat, h: Text -> nat, r: nat)
    requires Executed(disk, report, m, n, h) && r < n
    ensures OnDisk(disk, report.outputs) && |report.outputs| == n
    ensures C.FileFor(report, r) == [report.outputs[r]] && report.outputs[r] in disk
    ensures Contents(disk, report.outputs)[r] == disk[report.outputs[r]]
  {
    assert report.outputs[r] in report.outputs;
  }

  lemma MoreContents(disk: map<string, Text>, names: seq<string>, x: string)
    requires OnDisk(disk, names) && x in disk
    ensures OnDisk(disk, names + [x]) && Contents(disk, names + [x]) == Contents(disk, names) + [disk[x]]
  {
  }

  lemma AllOnDisk(disk: map<string, Text>, reports: seq<C.MapReport>, m: Mapper, n: nat, h: Text -> nat)
    requires AllExecuted(disk, reports, m, n, h)
    ensures forall i :: 0 <= i < |reports| ==> OnDisk(disk, reports[i].outputs) && |reports[i].outputs| == n
  {
    forall i | 0 <= i < |reports| ensures OnDisk(disk, reports[i].outputs) && |reports[i].outputs| == n {
      assert Executed(disk, reports[i], m, n, h);
    }
  }

  lemma {:induction false} CollectedFiles(disk: map<string, Text>, reports: seq<C.MapReport>, m: Mapper, n: nat, h: Text -> nat, r: nat)
    requires AllExecuted(disk, reports, m, n, h) && r < n
    ensures OnDisk(disk, C.Collected(reports, r)) && |Mapped(disk, reports)| == |reports|
    ensures Contents(disk, C.Collected(reports, r)) == FilesOf(Mapped(disk, reports), r)
  {
    hide Executed, OnDisk, Contents;
    AllOnDisk(disk, reports, m, n, h);
    if reports == [] {
      NothingCollected(disk, r);
    } else {
      var k := |reports| - 1;
      CollectedFiles(disk, reports[..k], m, n, h, r);
      assert Executed(disk, reports[k], m, n, h);
      OneFile(disk, reports[k], m, n, h, r);
      MoreContents(disk, C.Collected(reports[..k], r), reports[k].outputs[r]);
      LastMapped(disk, reports, n, r);
    }
  }

  lemma NothingCollected(disk: map<string, Text>, r: nat)
    ensures OnDisk(disk, C.Collected([], r)) && Contents(disk, C.Collected([], r)) == []
  {
  }

  lemma LastMapped(disk: map<string, Text>, reports: seq<C.MapReport>, n: nat, r: nat)
    requires reports != [] && r < n
    requires forall i :: 0 <= i < |reports| ==> OnDisk(disk, reports[i].outputs) && |reports[i].outputs| == n
    ensures var k := |reports| - 1;
            FilesOf(Mapped(disk, reports), r) == FilesOf(Mapped(disk, reports[..k]), r) + [Contents(disk, reports[k].outputs)[r]]
  {
  }

  /** The files that are read for a partition hold its share of all records, each once. */
  lemma PartitionRead(disk: map<string, Text>, reports: seq<C.MapReport>, files: seq<string>, m: Mapper, n: nat, h: Text -> nat, r: nat)
    requires AllExecuted(disk, reports, m, n, h) && r < n && Accepted(reports, files)
    requires forall f, i :: f in files && 0 <= i < |m(f)| ==> Clean(m(f)[i])
    ensures OnDisk(disk, C.Collected(reports, r))
    ensures IsPart(multiset(AllRecords(Contents(disk, C.Collected(reports, r)))), Total(files, m), h, n, r)
  {
    hide Clean, MapOk, IsPart;
    CollectedFiles(disk, reports, m, n, h, r);
    var names := Names(reports);
    var inputs, mapped := Emitted(names, m), Mapped(disk, reports);
    var written := seq(|reports|, i requires 0 <= i < |reports| => Writing(disk, reports[i], m, n, h));
    forall k | 0 <= k < |inputs| ensures MapOk(mapped[k], written[k], inputs[k], n, h) {
      assert Executed(disk, reports[k], m, n, h);
    }
    forall k, i | 0 <= k < |inputs| && 0 <= i < |inputs[k]| ensures Clean(inputs[k][i]) {
      assert names[k] in SetOf(names);
    }
    PartitionFiles(inputs, mapped, written, n, h, r);
    TotalIsFlat(names, m);
    TotalPermuted(names, files, m);
  }

  ghost function Writing(disk: map<string, Text>, report: C.MapReport, m: Mapper, n: nat, h: Text -> nat): (w: seq<seq<KeyValue>>)
    requires Executed(disk, report, m, n, h)
    ensures MapOk(Contents(disk, report.outputs), w, m(report.file), n, h)
  {
    var w :| MapOk(Contents(disk, report.outputs), w, m(report.file), n, h);
    w
  }

  function Names(reports: seq<C.MapReport>): seq<string> {
    seq(|reports|, i requires 0 <= i < |reports| => reports[i].file)
  }

  /** Every input has exactly one accepted report. */
  ghost predicate Accepted(reports: seq<C.MapReport>, files: seq<string>) {
    Distinct(files) && Distinct(Names(reports)) && SetOf(Names(reports)) == SetOf(files)
  }

  // ---------- The theorem ----------

  lemma JobIsSequential(disk: map<string, Text>, reports: seq<C.MapReport>, files: seq<string>, m: Mapper, n: nat,
                        h: Text -> nat, f: Reducer, outs: seq<seq<KeyValue>>, whole: seq<KeyValue>)
    requires Insensitive(f) && n >= 1 && |outs| == n && Accepted(reports, files) && AllExecuted(disk, reports, m, n, h)
    requires forall g, i :: g in files && 0 <= i < |m(g)| ==> Clean(m(g)[i])
    requires forall r :: 0 <= r < n ==> ReducedFrom(disk, reports, r, outs[r], f)
    requires IsOutput(whole, multiset(Flat(Emitted(files, m))), f)
    ensures multiset(Flat(outs)) == multiset(whole)
  {
    hide Insensitive, IsOutput, IsPart, Clean, Executed, Accepted;
    var parts: seq<multiset<KeyValue>> := seq(n, r requires 0 <= r < n => Part(disk, reports, r, outs[r], f));
    TotalIsFlat(files, m);
    forall r | 0 <= r < n ensures IsPart(parts[r], Total(files, m), h, n, r) && IsOutput(outs[r], parts[r], f) {
      assert ReducedFrom(disk, reports, r, outs[r], f);
      PartitionRead(disk, reports, files, m, n, h, r);
    }
    PartitionsAreWhole(outs, parts, whole, Total(files, m), h, f);
  }

  ghost function Part(disk: map<string, Text>, reports: seq<C.MapReport>, r: nat, out: seq<KeyValue>, f: Reducer): multiset<KeyValue>
    requires ReducedFrom(disk, reports, r, out, f)
  {
    multiset(AllRecords(Contents(disk, C.Collected(reports, r))))
  }

  lemma AllAccepted(c: C.Coordinator)
    requires c.Valid() && c.done
    ensures Accepted(c.accepted, c.files)
  {
    c.DoneMeansAll();
    assert c.PhasesOk() && c.ReportsOk();
    var names := Names(c.accepted);
    assert Distinct(names);
    forall x ensures x in SetOf(names) <==> x in SetOf(c.files) {
      if x in names {
        var i :| 0 <= i < |names| && names[i] == x;
        assert c.accepted[i].file in C.Inputs(c.accepted);
      }
      if x in c.files {
        var i :| 0 <= i < |c.accepted| && c.accepted[i].file == x;
        assert names[i] == x;
      }
    }
  }

  /** When the coordinator is done, however often its tasks were handed out, executed and requeued: if
      each accepted map report came from some execution of its task, and the output of each partition
      from some execution of its reduce over the files that the coordinator hands out, then the outputs
      of all partitions are those of the sequential program. */
  lemma FinishedJobIsSequential(c: C.Coordinator, disk: map<string, Text>, m: Mapper, h: Text -> nat, f: Reducer,
                                outs: seq<seq<KeyValue>>, whole: seq<KeyValue>)
    requires c.Valid() && c.done && c.nReduce >= 1 && |outs| == c.nReduce && Insensitive(f)
    requires AllExecuted(disk, c.accepted, m, c.nReduce, h)
    requires forall g, i :: g in c.files && 0 <= i < |m(g)| ==> Clean(m(g)[i])
    requires forall r :: 0 <= r < c.nReduce ==> ReducedFrom(disk, c.accepted, r, outs[r], f)
    requires IsOutput(whole, multiset(Flat(Emitted(c.files, m))), f)
    ensures multiset(Flat(outs)) == multiset(whole)
  {
    hide Insensitive, IsOutput, Clean, Executed, Accepted, ReducedFrom;
    AllAccepted(c);
    JobIsSequential(disk, c.accepted, c.files, m, c.nReduce, h, f, outs, whole);
  }
}
