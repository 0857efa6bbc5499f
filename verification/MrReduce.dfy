/** A reduce task: cut the intermediate files into sorted runs, merge them, reduce key by key. */
module MrReduce {
  import opened MrText
  import opened MrReader
  import opened MrOutput

  // ---------- Phase one: runs ----------

  datatype Segment = Segment(start: nat, end: nat)

  ghost predicate InFile(segs: seq<Segment>, file: Text) {
    forall i :: 0 <= i < |segs| ==> segs[i].start <= segs[i].end <= |file|
  }

  ghost function Runs(segs: seq<Segment>, file: Text): (rs: seq<seq<KeyValue>>)
    requires InFile(segs, file)
    ensures |rs| == |segs| && forall i :: 0 <= i < |segs| ==> rs[i] == Records(file[segs[i].start..segs[i].end])
  {
    seq(|segs|, i requires 0 <= i < |segs| => Records(file[segs[i].start..segs[i].end]))
  }

  ghost predicate AllSorted(rs: seq<seq<KeyValue>>) {
    forall i :: 0 <= i < |rs| ==> Sorted(rs[i])
  }

  /** The file up to `off` has been cut into `segs`, and `run`, which starts at segStart, is open. */
  ghost predicate Scanned(file: Text, segs: seq<Segment>, segStart: nat, off: nat, run: seq<KeyValue>) {
    && segStart <= off <= |file| && InFile(segs, file) && AllSorted(Runs(segs, file)) && Sorted(run)
    && Flat(Runs(segs, file)) + (run + Records(file[off..])) == Records(file)
    && Records(file[segStart..off]) == run && (off < |file| ==> Whole(file[segStart..off]))
    && Maximal(Runs(segs, file) + [run])
  }

  /** Each run ends because the key falls there. */
  ghost predicate Maximal(rs: seq<seq<KeyValue>>) {
    forall i :: 0 < i < |rs| ==> FallsAt(rs, i)
  }

  predicate FallsAt(rs: seq<seq<KeyValue>>, i: int)
    requires 0 < i < |rs|
  {
    rs[i - 1] != [] && rs[i] != [] && Less(rs[i][0].key, rs[i - 1][|rs[i - 1]| - 1].key)
  }

  /** The next record is kv; it starts at `start`, and the reader goes on at off'. */
  ghost predicate NextIs(file: Text, off: nat, start: nat, off': nat, kv: KeyValue) {
    && off <= start < off' <= |file| && Records(file[off..]) == [kv] + Records(file[off'..])
    && Records(file[off..start]) == [] && Whole(file[off..start])
    && FirstRecord(file[start..]) == [kv] && file[off'..] == AfterLine(file[start..])
  }

  /** Cuts the file wherever a key is smaller than the one before, and only there: the runs are sorted and
      together they are the file. */
  method FindRuns(file: Text, buf: nat) returns (segs: seq<Segment>)
    requires buf >= 1
    ensures InFile(segs, file) && AllSorted(Runs(segs, file)) && Flat(Runs(segs, file)) == Records(file)
    ensures Maximal(Runs(segs, file))
  {
    hide Maximal, Scanned, Records, Runs, Flat, AllSorted, Whole, FirstRecord, AfterLine;
    segs := [];
    StartScan(file);
    if |file| == 0 {
      EndScan(file, [], 0, 0, []);
      return;
    }
    var lr := new LineReader(file, 0, |file|, buf);
    var prev: Text, first, segStart := [], true, 0;
    ghost var run: seq<KeyValue> := [];
    while true
      invariant lr.Valid() && lr.file == file && lr.end == |file| && fresh(lr)
      invariant Scanned(file, segs, segStart, lr.off, run) && segStart <= lr.off
      invariant first <==> run == []
      invariant !first ==> prev == run[|run| - 1].key
      decreases |file| - lr.off
    {
      ghost var off := lr.off;
      var start, kv, ok := lr.Next();
      assert file[off..|file|] == file[off..] && file[lr.off..|file|] == file[lr.off..];
      if !ok {
        AtEnd(file, segs, segStart, off, run);
        break;
      }
      assert file[start..|file|] == file[start..];
      if !first && Less(kv.key, prev) {
        CutRun(file, segs, segStart, off, start, lr.off, kv, run);
        segs := segs + [Segment(segStart, start)];
        segStart := start;
        run := [kv];
      } else {
        ExtendRun(file, segs, segStart, off, start, lr.off, kv, run);
        run := run + [kv];
      }
      prev := kv.key;
      first := false;
    }
    EndScan(file, segs, segStart, lr.off, run);
    if |file| > segStart {
      segs := segs + [Segment(segStart, |file|)];
    }
  }

  lemma StartScan(file: Text)
    ensures Scanned(file, [], 0, 0, [])
  {
    hide Records;
    assert file[0..] == file && file[0..0] == [];
    EmptyRecords();
  }

  lemma EmptyRecords()
    ensures Records([]) == []
  {
  }

  lemma EndScan(file: Text, segs: seq<Segment>, segStart: nat, off: nat, run: seq<KeyValue>)
    requires Scanned(file, segs, segStart, off, run) && off == |file|
    ensures var segs' := if |file| > segStart then segs + [Segment(segStart, |file|)] else segs;
            InFile(segs', file) && AllSorted(Runs(segs', file)) && Flat(Runs(segs', file)) == Records(file) && Maximal(Runs(segs', file))
  {
    hide Records, Maximal, AllSorted, Flat;
    EmptyRecords();
    if |file| > segStart {
      CloseRun(segs, file, Segment(segStart, |file|), run);
    } else {
      assert file[segStart..off] == [];
      NoEmptyRun(Runs(segs, file));
      Nothing();
    }
  }

  lemma Nothing()
    ensures Maximal([]) && AllSorted([]) && Flat<KeyValue>([]) == []
  {
  }

  lemma NoEmptyRun(rs: seq<seq<KeyValue>>)
    requires Maximal(rs + [[]])
    ensures rs == []
  {
    assert rs != [] ==> FallsAt(rs + [[]], |rs|);
  }

  lemma CutRun(file: Text, segs: seq<Segment>, segStart: nat, off: nat, start: nat, off': nat, kv: KeyValue, run: seq<KeyValue>)
    requires Scanned(file, segs, segStart, off, run) && NextIs(file, off, start, off', kv)
    requires run != [] && Less(kv.key, run[|run| - 1].key)
    ensures Scanned(file, segs + [Segment(segStart, start)], start, off', [kv])
  {
    hide Records, FirstRecord, AfterLine, Whole, Flat, Maximal;
    NextInRun(file, segStart, off, start, off', kv, run);
    MaximalCut(Runs(segs, file), run, kv);
    CloseRun(segs, file, Segment(segStart, start), run);
    var before := Flat(Runs(segs, file));
    assert (before + run) + ([kv] + Records(file[off'..])) == before + (run + ([kv] + Records(file[off'..])));
  }

  lemma ExtendRun(file: Text, segs: seq<Segment>, segStart: nat, off: nat, start: nat, off': nat, kv: KeyValue, run: seq<KeyValue>)
    requires Scanned(file, segs, segStart, off, run) && NextIs(file, off, start, off', kv)
    requires run != [] ==> !Less(kv.key, run[|run| - 1].key)
    ensures Scanned(file, segs, segStart, off', run + [kv])
  {
    hide Records, FirstRecord, AfterLine, Whole, Flat, Maximal;
    MaximalMore(Runs(segs, file), run, kv);
    NextInRun(file, segStart, off, start, off', kv, run);
    SortedAppend(run, kv);
    assert (run + [kv]) + Records(file[off'..]) == run + ([kv] + Records(file[off'..]));
  }

  lemma MaximalCut(rs: seq<seq<KeyValue>>, run: seq<KeyValue>, kv: KeyValue)
    requires Maximal(rs + [run]) && run != [] && Less(kv.key, run[|run| - 1].key)
    ensures Maximal(rs + [run] + [[kv]])
  {
    var all: seq<seq<KeyValue>> := rs + [run] + [[kv]];
    forall i | 0 < i < |all| ensures FallsAt(all, i) {
      if i <= |rs| { assert FallsAt(rs + [run], i) && all[i] == (rs + [run])[i] && all[i - 1] == (rs + [run])[i - 1]; }
    }
  }

  lemma MaximalMore(rs: seq<seq<KeyValue>>, run: seq<KeyValue>, kv: KeyValue)
    requires Maximal(rs + [run])
    ensures Maximal(rs + [run + [kv]])
  {
    var all: seq<seq<KeyValue>> := rs + [run + [kv]];
    forall i | 0 < i < |all| ensures FallsAt(all, i) {
      assert FallsAt(rs + [run], i) && (rs + [run])[i - 1] == all[i - 1];
      assert i == |rs| ==> (rs + [run])[i] == run;
      assert i < |rs| ==> (rs + [run])[i] == all[i];
    }
  }

  lemma SortedAppend(run: seq<KeyValue>, kv: KeyValue)
    requires Sorted(run) && (run != [] ==> !Less(kv.key, run[|run| - 1].key))
    ensures Sorted(run + [kv])
  {
    forall i | 0 <= i < |run| ensures !Less(kv.key, run[i].key) {
      if i < |run| - 1 {
        NotLessTransitive(run[i].key, run[|run| - 1].key, kv.key);
      }
    }
  }

  lemma CloseRun(segs: seq<Segment>, file: Text, s: Segment, run: seq<KeyValue>)
    requires InFile(segs, file) && AllSorted(Runs(segs, file)) && s.start <= s.end <= |file|
    requires Records(file[s.start..s.end]) == run && Sorted(run)
    ensures InFile(segs + [s], file) && AllSorted(Runs(segs + [s], file))
    ensures Flat(Runs(segs + [s], file)) == Flat(Runs(segs, file)) + run && Runs(segs + [s], file) == Runs(segs, file) + [run]
  {
    hide Records;
    var rs := Runs(segs + [s], file);
    assert rs == Runs(segs, file) + [run];
    assert rs[..|segs|] == Runs(segs, file);
  }

  /** A new record, with or without the run read so far. */
  lemma NextInRun(file: Text, segStart: nat, off: nat, start: nat, off': nat, kv: KeyValue, run: seq<KeyValue>)
    requires segStart <= off && NextIs(file, off, start, off', kv)
    requires Records(file[segStart..off]) == run && (off < |file| ==> Whole(file[segStart..off]))
    ensures Records(file[segStart..start]) == run
    ensures Records(file[start..off']) == [kv] && (off' < |file| ==> Whole(file[start..off']))
    ensures Records(file[segStart..off']) == run + [kv] && (off' < |file| ==> Whole(file[segStart..off']))
  {
    hide Records, FirstRecord, AfterLine, Whole;
    if off < start {
      Joined(file, segStart, off, start);
    } else {
      assert start == off;
    }
    assert file[start..|file|] == file[start..] && file[off'..|file|] == file[off'..];
    LineOnly(file, start, off', |file|);
    Joined(file, segStart, start, off');
  }

  /** The lines behind the last record add nothing to the run. */
  lemma AtEnd(file: Text, segs: seq<Segment>, segStart: nat, off: nat, run: seq<KeyValue>)
    requires Scanned(file, segs, segStart, off, run) && Records(file[off..]) == Records(file[|file|..])
    ensures Scanned(file, segs, segStart, |file|, run)
  {
    hide Records, Whole, Flat, Runs, Maximal;
    EmptyRecords();
    assert file[off..|file|] == file[off..] && file[|file|..] == [];
    if off < |file| {
      Joined(file, segStart, off, |file|);
    }
  }
}
