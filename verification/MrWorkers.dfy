/**
 The workers of a job with its coordinator: they ask, execute, report, or die at any point, in any
 interleaving. An execution of a reduce only counts as done if its output is the first to be linked to
 the partition's name, and only that execution reports.
 */
module MrWorkers {
  import opened MrText
  import opened MrOutput
  import opened MrMerge
  import opened MrJob
  import opened MrWhole
  import opened TaskList
  import C = Coordinator

  /** One execution of a task, or what is left of it; a worker that dies just does not go on. */
  datatype Job =
    | Idle                                 // was told to wait or to exit
    | Mapping(file: string)
    | Mapped(report: C.MapReport)          // its files are written
    | Reducing(id: nat, files: seq<string>)
    | Beaten                               // found the partition's output in place, and does not report
    | Linked(id: nat)                      // its output is in place
    | Heard(id: nat)                       // and its report has arrived

  datatype Event =
    | Ask(now: int)        // some worker asks for a task
    | Work(w: nat)         // execution w does its work
    | Report(w: nat)       // the report of execution w arrives
    | Tick(now: int)       // the coordinator looks for expired tasks

  /** The shared files, the outputs in place, all executions, and a supply of file names. */
  datatype Crew = Crew(disk: map<string, Text>, outs: map<nat, seq<KeyValue>>, jobs: seq<Job>, used: nat)

  /** What the workers depend on in the coordinator. */
  datatype Books = Books(n: nat, accepted: seq<C.MapReport>, reduced: set<nat>, ready: bool)

  ghost function BooksOf(c: C.Coordinator): Books
    reads c`accepted, c`reduced, c`reducesReady
  {
    Books(c.nReduce, c.accepted, c.reduced, c.reducesReady)
  }

  function Name(k: nat): (s: string)
    ensures |s| == k + 1
  {
    seq(k + 1, i => 'x')
  }

  predicate Wins(job: Job, id: nat) {
    job == Linked(id) || job == Heard(id)
  }

  // ---------- Invariant ----------

  ghost predicate JobOk(b: Books, crew: Crew, job: Job, m: Mapper, h: Text -> nat)
  {
    match job
    case Mapped(report) => Executed(crew.disk, report, m, b.n, h)
    case Reducing(id, files) => id < b.n && b.ready && files == C.Collected(b.accepted, id)
    case Linked(id) => id in crew.outs
    case Heard(id) => id in crew.outs
    case _ => true
  }

  ghost predicate JobsOk(b: Books, crew: Crew, m: Mapper, h: Text -> nat)
  {
    (&& (forall w :: 0 <= w < |crew.jobs| ==> JobOk(b, crew, crew.jobs[w], m, h))
     && (forall v, w, id :: 0 <= v < w < |crew.jobs| && Wins(crew.jobs[v], id) ==> !Wins(crew.jobs[w], id))) == true
  }

  ghost predicate OutsOk(b: Books, crew: Crew, f: Reducer)
  {
    (forall id :: id in crew.outs ==>
       id < b.n && b.ready && ReducedFrom(crew.disk, b.accepted, id, crew.outs[id], f)) == true
  }

  /** An accepted reduce is one whose first execution has reported. */
  ghost predicate ReducedOk(b: Books, crew: Crew)
  {
    (forall id :: id in b.reduced ==> Heard(id) in crew.jobs) == true
  }

  ghost predicate DiskOk(crew: Crew) {
    (forall name :: name in crew.disk ==> 1 <= |name| <= crew.used) == true
  }

  ghost predicate CrewOk(b: Books, crew: Crew, m: Mapper, h: Text -> nat, f: Reducer)
  {
    && b.n >= 1 && AllExecuted(crew.disk, b.accepted, m, b.n, h)
    && JobsOk(b, crew, m, h) && OutsOk(b, crew, f) && ReducedOk(b, crew) && DiskOk(crew)
  }

  /** The report of the execution that was first has come and was not accepted. */
  ghost predicate Stuck(b: Books, crew: Crew, id: nat)
  {
    Heard(id) in crew.jobs && id !in b.reduced
  }

  // ---------- More files ----------

  ghost predicate Extends(disk: map<string, Text>, disk': map<string, Text>) {
    forall name :: name in disk ==> name in disk' && disk'[name] == disk[name]
  }

  lemma ContentsStay(disk: map<string, Text>, disk': map<string, Text>, names: seq<string>)
    requires Extends(disk, disk') && OnDisk(disk, names)
    ensures OnDisk(disk', names) && Contents(disk', names) == Contents(disk, names)
  {
  }

  lemma ExecutedStays(disk: map<string, Text>, disk': map<string, Text>, report: C.MapReport, m: Mapper, n: nat, h: Text -> nat)
    requires Extends(disk, disk') && Executed(disk, report, m, n, h)
    ensures Executed(disk', report, m, n, h)
  {
    hide MapOk;
    ContentsStay(disk, disk', report.outputs);
  }

  lemma ReducedStays(disk: map<string, Text>, disk': map<string, Text>, reports: seq<C.MapReport>, r: nat, out: seq<KeyValue>, f: Reducer)
    requires Extends(disk, disk') && ReducedFrom(disk, reports, r, out, f)
    ensures ReducedFrom(disk', reports, r, out, f)
  {
    hide IsOutput;
    ContentsStay(disk, disk', C.Collected(reports, r));
  }

  /** Writing new files keeps what was done with the old ones. */
  lemma MoreFiles(b: Books, crew: Crew, crew': Crew, m: Mapper, h: Text -> nat, f: Reducer)
    requires CrewOk(b, crew, m, h, f) && Extends(crew.disk, crew'.disk) && crew'.outs == crew.outs && crew'.jobs == crew.jobs
    requires DiskOk(crew')
    ensures CrewOk(b, crew', m, h, f)
  {
    hide Executed, ReducedFrom, Extends;
    forall i | 0 <= i < |b.accepted| ensures Executed(crew'.disk, b.accepted[i], m, b.n, h) {
      ExecutedStays(crew.disk, crew'.disk, b.accepted[i], m, b.n, h);
    }
    forall w | 0 <= w < |crew.jobs| ensures JobOk(b, crew', crew.jobs[w], m, h) {
      assert JobOk(b, crew, crew.jobs[w], m, h);
      if crew.jobs[w].Mapped? {
        ExecutedStays(crew.disk, crew'.disk, crew.jobs[w].report, m, b.n, h);
      }
    }
    forall id | id in crew.outs ensures ReducedFrom(crew'.disk, b.accepted, id, crew.outs[id], f) {
      ReducedStays(crew.disk, crew'.disk, b.accepted, id, crew.outs[id], f);
    }
  }

  /** One execution has got on, without becoming the first of its partition. */
  lemma OneJob(b: Books, crew: Crew, w: nat, job: Job, m: Mapper, h: Text -> nat, f: Reducer)
    requires CrewOk(b, crew, m, h, f) && w < |crew.jobs| && JobOk(b, crew, job, m, h)
    requires forall id :: Wins(job, id) ==> Wins(crew.jobs[w], id)
    requires forall id :: crew.jobs[w] == Heard(id) ==> job == Heard(id)
    ensures CrewOk(b, crew.(jobs := crew.jobs[w := job]), m, h, f)
  {
    hide Executed, ReducedFrom;
    var crew' := crew.(jobs := crew.jobs[w := job]);
    forall v | 0 <= v < |crew'.jobs| ensures JobOk(b, crew', crew'.jobs[v], m, h) {
      assert JobOk(b, crew, crew.jobs[v], m, h);
    }
    forall id | id in b.reduced ensures Heard(id) in crew'.jobs {
      var v :| 0 <= v < |crew.jobs| && crew.jobs[v] == Heard(id);
      assert crew'.jobs[v] == Heard(id);
    }
  }

  lemma Parts(b: Books, crew: Crew, m: Mapper, h: Text -> nat, f: Reducer)
    requires CrewOk(b, crew, m, h, f)
    ensures b.n >= 1 && DiskOk(crew) && AllExecuted(crew.disk, b.accepted, m, b.n, h)
    ensures forall w :: 0 <= w < |crew.jobs| ==> JobOk(b, crew, crew.jobs[w], m, h)
  {
  }

  // ---------- What the workers do ----------

  /** The disk with one new file for each text. */
  function Written(disk: map<string, Text>, used: nat, texts: seq<Text>): map<string, Text> {
    if texts == [] then disk
    else Written(disk, used, texts[..|texts| - 1])[Name(used + |texts| - 1) := texts[|texts| - 1]]
  }

  predicate FileIs(disk: map<string, Text>, name: string, text: Text) {
    name in disk && disk[name] == text
  }

  lemma {:induction false} WrittenFacts(disk: map<string, Text>, used: nat, texts: seq<Text>)
    requires forall name :: name in disk ==> 1 <= |name| <= used
    ensures Extends(disk, Written(disk, used, texts))
    ensures forall name :: name in Written(disk, used, texts) ==> 1 <= |name| <= used + |texts|
    ensures forall r :: 0 <= r < |texts| ==> FileIs(Written(disk, used, texts), Name(used + r), texts[r])
  {
    if texts != [] {
      var k := |texts| - 1;
      WrittenFacts(disk, used, texts[..k]);
      forall r | 0 <= r < |texts| ensures FileIs(Written(disk, used, texts), Name(used + r), texts[r]) {
        if r < k {
          assert FileIs(Written(disk, used, texts[..k]), Name(used + r), texts[..k][r]);
          assert |Name(used + r)| != |Name(used + k)|;
        }
      }
    }
  }

  lemma NewReport(disk: map<string, Text>, used: nat, texts: seq<Text>, written: seq<seq<KeyValue>>, report: C.MapReport,
                  m: Mapper, n: nat, h: Text -> nat)
    requires |texts| == n == |report.outputs| && n >= 1 && MapOk(texts, written, m(report.file), n, h)
    requires forall r :: 0 <= r < n ==> report.outputs[r] == Name(used + r) && FileIs(disk, report.outputs[r], texts[r])
    ensures Executed(disk, report, m, n, h)
  {
    hide MapOk;
    assert Contents(disk, report.outputs) == texts;
  }

  function MapReportOf(crew: Crew, file: string, n: nat): (report: C.MapReport)
    ensures report.file == file && |report.outputs| == n
    ensures forall r :: 0 <= r < n ==> report.outputs[r] == Name(crew.used + r)
  {
    C.MapReport(file, seq(n, r requires 0 <= r < n => Name(crew.used + r)))
  }

  /** Execution w has written these texts to new files. */
  function AfterMap(crew: Crew, w: nat, texts: seq<Text>): Crew
    requires w < |crew.jobs| && crew.jobs[w].Mapping?
  {
    Crew(Written(crew.disk, crew.used, texts), crew.outs,
         crew.jobs[w := Mapped(MapReportOf(crew, crew.jobs[w].file, |texts|))], crew.used + |texts|)
  }

  lemma NewFiles(b: Books, crew: Crew, texts: seq<Text>, m: Mapper, h: Text -> nat, f: Reducer)
    requires CrewOk(b, crew, m, h, f)
    ensures CrewOk(b, crew.(disk := Written(crew.disk, crew.used, texts), used := crew.used + |texts|), m, h, f)
  {
    hide CrewOk, Extends, Written, FileIs;
    Parts(b, crew, m, h, f);
    WrittenFacts(crew.disk, crew.used, texts);
    MoreFiles(b, crew, crew.(disk := Written(crew.disk, crew.used, texts), used := crew.used + |texts|), m, h, f);
  }

  lemma AfterMapOk(b: Books, crew: Crew, w: nat, texts: seq<Text>, written: seq<seq<KeyValue>>, m: Mapper, h: Text -> nat, f: Reducer)
    requires CrewOk(b, crew, m, h, f) && w < |crew.jobs| && crew.jobs[w].Mapping?
    requires MapOk(texts, written, m(crew.jobs[w].file), b.n, h) && |texts| == b.n >= 1
    ensures CrewOk(b, AfterMap(crew, w, texts), m, h, f)
  {
    hide Executed, CrewOk, Extends, Written, FileIs, MapOk, Name;
    Parts(b, crew, m, h, f);
    var report := MapReportOf(crew, crew.jobs[w].file, |texts|);
    var crew1 := crew.(disk := Written(crew.disk, crew.used, texts), used := crew.used + |texts|);
    NewFiles(b, crew, texts, m, h, f);
    assert DiskOk(crew);
    WrittenFacts(crew.disk, crew.used, texts);
    NewReport(crew1.disk, crew.used, texts, written, report, m, b.n, h);
    OneJob(b, crew1, w, Mapped(report), m, h, f);
    assert AfterMap(crew, w, texts) == crew1.(jobs := crew1.jobs[w := Mapped(report)]);
  }

  /** Execution w reads its input and writes one new file for each partition. */
  method DoMapWork(n: nat, ghost b: Books, crew: Crew, w: nat, m: Mapper, h: Text -> nat, ghost f: Reducer) returns (crew': Crew)
    requires CrewOk(b, crew, m, h, f) && w < |crew.jobs| && crew.jobs[w].Mapping? && n == b.n
    ensures CrewOk(b, crew', m, h, f) && crew'.outs == crew.outs
    ensures |crew'.jobs| == |crew.jobs| && forall v :: 0 <= v < |crew.jobs| && v != w ==> crew'.jobs[v] == crew.jobs[v]
    ensures crew'.jobs[w].Mapped? && crew'.jobs[w].report.file == crew.jobs[w].file
  {
    hide CrewOk, IsPart, Print, Clean, Records;
    Parts(b, crew, m, h, f);
    var texts, written := DoMap(m(crew.jobs[w].file), n, h);
    AfterMapOk(b, crew, w, texts, written, m, h, f);
    crew' := AfterMap(crew, w, texts);
  }

  /** Execution w reduces its files and tries to link its output to the name of the partition. */
  method DoReduceWork(ghost b: Books, crew: Crew, w: nat, buf: nat, ghost m: Mapper, ghost h: Text -> nat, f: Reducer) returns (crew': Crew)
    requires CrewOk(b, crew, m, h, f) && w < |crew.jobs| && crew.jobs[w].Reducing? && buf >= 1
    ensures CrewOk(b, crew', m, h, f) && |crew'.jobs| == |crew.jobs|
    ensures forall v :: 0 <= v < |crew.jobs| && v != w ==> crew'.jobs[v] == crew.jobs[v]
    ensures var id := crew.jobs[w].id;
            if id in crew.outs then crew'.outs == crew.outs && crew'.jobs[w] == Beaten
            else crew'.outs.Keys == crew.outs.Keys + {id} && crew'.jobs[w] == Linked(id)
  {
    hide Executed, CrewOk, IsOutput;
    var id, files := crew.jobs[w].id, crew.jobs[w].files;
    Parts(b, crew, m, h, f);
    FilesThere(b, crew, m, h, f, w);
    var out := DoReduce(seq(|files|, i requires 0 <= i < |files| => crew.disk[files[i]]), buf, f);
    if id in crew.outs {
      crew' := crew.(jobs := crew.jobs[w := Beaten]);
      OneJob(b, crew, w, Beaten, m, h, f);
    } else {
      crew' := crew.(outs := crew.outs[id := out], jobs := crew.jobs[w := Linked(id)]);
      FirstOut(b, crew, w, id, out, m, h, f);
    }
  }

  lemma FilesThere(b: Books, crew: Crew, m: Mapper, h: Text -> nat, f: Reducer, w: nat)
    requires CrewOk(b, crew, m, h, f) && w < |crew.jobs| && crew.jobs[w].Reducing?
    ensures OnDisk(crew.disk, crew.jobs[w].files) && crew.jobs[w].files == C.Collected(b.accepted, crew.jobs[w].id)
    ensures Contents(crew.disk, crew.jobs[w].files) == seq(|crew.jobs[w].files|, i requires 0 <= i < |crew.jobs[w].files| => crew.disk[crew.jobs[w].files[i]])
  {
    assert JobOk(b, crew, crew.jobs[w], m, h);
    CollectedFiles(crew.disk, b.accepted, m, b.n, h, crew.jobs[w].id);
  }

  lemma FirstOut(b: Books, crew: Crew, w: nat, id: nat, out: seq<KeyValue>, m: Mapper, h: Text -> nat, f: Reducer)
    requires CrewOk(b, crew, m, h, f) && w < |crew.jobs| && crew.jobs[w].Reducing? && crew.jobs[w].id == id && id !in crew.outs
    requires ReducedFrom(crew.disk, b.accepted, id, out, f)
    ensures CrewOk(b, crew.(outs := crew.outs[id := out], jobs := crew.jobs[w := Linked(id)]), m, h, f)
  {
    hide Executed, ReducedFrom;
    var crew' := crew.(outs := crew.outs[id := out], jobs := crew.jobs[w := Linked(id)]);
    assert JobOk(b, crew, crew.jobs[w], m, h);
    forall v | 0 <= v < |crew'.jobs| ensures JobOk(b, crew', crew'.jobs[v], m, h) && (v != w ==> !Wins(crew'.jobs[v], id)) {
      assert JobOk(b, crew, crew.jobs[v], m, h);
    }
    forall x | x in b.reduced ensures Heard(x) in crew'.jobs {
      var v :| 0 <= v < |crew.jobs| && crew.jobs[v] == Heard(x);
      assert crew'.jobs[v] == Heard(x);
    }
  }

  // ---------- What the coordinator does ----------

  lemma MapsAreDone(c: C.Coordinator, file: string)
    requires c.Valid() && c.reducesReady
    ensures C.MapOf(file) !in c.Out()
  {
    c.ListedIfUnfinished(C.MapOf(file));
    c.ReadyMeans();
  }

  lemma ReducesAreOpen(c: C.Coordinator, id: nat)
    requires c.Valid() && C.ReduceOf(id) in c.Out()
    ensures c.reducesReady && id < c.nReduce
  {
    c.ListedIfUnfinished(C.ReduceOf(id));
  }

  /** What the crew relies on only comes to hold. */
  lemma PhaseGoesOn(b: Books, crew: Crew, m: Mapper, h: Text -> nat, f: Reducer)
    requires CrewOk(b, crew, m, h, f)
    ensures CrewOk(b.(ready := true), crew, m, h, f)
  {
    hide Executed, ReducedFrom;
    forall w | 0 <= w < |crew.jobs| ensures JobOk(b.(ready := true), crew, crew.jobs[w], m, h) {
      assert JobOk(b, crew, crew.jobs[w], m, h);
    }
  }

  lemma Hired(b: Books, crew: Crew, job: Job, m: Mapper, h: Text -> nat, f: Reducer)
    requires CrewOk(b, crew, m, h, f) && JobOk(b, crew, job, m, h) && (job.Idle? || job.Mapping? || job.Reducing?)
    ensures CrewOk(b, crew.(jobs := crew.jobs + [job]), m, h, f)
  {
    hide Executed, ReducedFrom;
    var crew' := crew.(jobs := crew.jobs + [job]);
    forall v | 0 <= v < |crew'.jobs| ensures JobOk(b, crew', crew'.jobs[v], m, h) {
      if v < |crew.jobs| { assert JobOk(b, crew, crew.jobs[v], m, h); }
    }
    forall id | id in b.reduced ensures Heard(id) in crew'.jobs {
      var v :| 0 <= v < |crew.jobs| && crew.jobs[v] == Heard(id);
      assert crew'.jobs[v] == Heard(id);
    }
  }

  /** A worker asks. */
  method DoAsk(c: C.Coordinator, crew: Crew, now: int, ghost m: Mapper, ghost h: Text -> nat, ghost f: Reducer) returns (crew': Crew)
    requires c.Valid() && CrewOk(BooksOf(c), crew, m, h, f) && c.clock <= now
    modifies c, c.pending, c.running, c.NodeSet()
    ensures c.Valid() && CrewOk(BooksOf(c), crew', m, h, f) && c.clock <= now
    ensures |crew'.jobs| == |crew.jobs| + 1 && crew'.jobs[..|crew.jobs|] == crew.jobs && crew'.outs == crew.outs
    ensures c.accepted == old(c.accepted) && c.reduced == old(c.reduced) && c.mapDone == old(c.mapDone)
    ensures c.reducesReady <==> forall file :: file in c.files ==> file in c.mapDone
    ensures old(c.Ready()) != [] ==>
              && c.Out() == old(c.Out()) + [old(c.Ready())[0]] && c.Waiting() == old(c.Ready())[1..]
              && c.Since() == old(c.Since()) + [now]
              && match old(c.Ready())[0]
                 case MapOf(file) => crew'.jobs[|crew.jobs|] == Mapping(file)
                 case ReduceOf(id) => crew'.jobs[|crew.jobs|] == Reducing(id, C.Collected(c.accepted, id))
    ensures forall x :: x in c.NodeSet() ==> x in old(c.NodeSet()) || fresh(x)
  {
    hide CrewOk, C.Coordinator.Valid, C.Coordinator.NodeSet, C.Coordinator.Out, C.Coordinator.Waiting, C.Coordinator.Since, Executed;
    ghost var b := BooksOf(c);
    c.ReadyMeans();
    var a := c.GetTask(now);
    PhaseGoesOn(b, crew, m, h, f);
    assert BooksOf(c) == b || BooksOf(c) == b.(ready := true);
    var job := if a.DoMap? then Mapping(a.file) else if a.DoReduce? then Reducing(a.id, a.files) else Idle;
    if a.DoReduce? {
      assert c.Out()[|c.Out()| - 1] == C.ReduceOf(a.id);
      ReducesAreOpen(c, a.id);
    }
    crew' := crew.(jobs := crew.jobs + [job]);
    Hired(BooksOf(c), crew, job, m, h, f);
  }

  /** The report of a map execution arrives. */
  method DoReportMap(c: C.Coordinator, crew: Crew, w: nat, ghost m: Mapper, ghost h: Text -> nat, ghost f: Reducer)
    requires c.Valid() && CrewOk(BooksOf(c), crew, m, h, f) && w < |crew.jobs| && crew.jobs[w].Mapped?
    modifies c, c.running, c.NodeSet()
    ensures c.Valid() && CrewOk(BooksOf(c), crew, m, h, f) && c.clock == old(c.clock) && c.reduced == old(c.reduced)
    ensures c.reducesReady == old(c.reducesReady) && c.Waiting() == old(c.Waiting())
    ensures old(c.Out()) == [C.MapOf(crew.jobs[w].report.file)] ==> c.Out() == [] && c.mapDone == old(c.mapDone) + {crew.jobs[w].report.file}
    ensures forall x :: x in c.NodeSet() ==> x in old(c.NodeSet())
  {
    hide CrewOk, C.Coordinator.Valid, C.Coordinator.NodeSet, C.Coordinator.Out, C.Coordinator.Waiting, Executed;
    ghost var b := BooksOf(c);
    var report := crew.jobs[w].report;
    if c.reducesReady {
      MapsAreDone(c, report.file);
    }
    Inside(c);
    c.ReportMap(report);
    if c.accepted != b.accepted {
      MoreReports(b, crew, w, m, h, f);
    }
  }

  lemma Inside(c: C.Coordinator)
    requires c.Valid()
    ensures c.running.All() <= c.NodeSet() && c.running.Members() <= c.NodeSet()
  {
    assert c.ListsOk();
    forall n | n in c.running.Members() ensures n in c.running.All() {
      c.running.InAll(n);
    }
  }

  /** In the map phase one more report of an execution is accepted. */
  lemma MoreReports(b: Books, crew: Crew, w: nat, m: Mapper, h: Text -> nat, f: Reducer)
    requires CrewOk(b, crew, m, h, f) && w < |crew.jobs| && crew.jobs[w].Mapped? && !b.ready
    ensures CrewOk(b.(accepted := b.accepted + [crew.jobs[w].report]), crew, m, h, f)
  {
    hide Executed, ReducedFrom;
    var b' := b.(accepted := b.accepted + [crew.jobs[w].report]);
    assert JobOk(b, crew, crew.jobs[w], m, h);
    forall i | 0 <= i < |b'.accepted| ensures Executed(crew.disk, b'.accepted[i], m, b.n, h) {
      if i < |b.accepted| {
        assert Executed(crew.disk, b.accepted[i], m, b.n, h);
      }
    }
    forall v | 0 <= v < |crew.jobs| ensures JobOk(b', crew, crew.jobs[v], m, h) {
      assert JobOk(b, crew, crew.jobs[v], m, h);
    }
  }

  /** The report of the reduce execution that was first arrives. It counts if and only if the task is out. */
  method DoReportReduce(c: C.Coordinator, crew: Crew, w: nat, ghost m: Mapper, ghost h: Text -> nat, ghost f: Reducer) returns (crew': Crew)
    requires c.Valid() && CrewOk(BooksOf(c), crew, m, h, f) && w < |crew.jobs| && crew.jobs[w].Linked?
    modifies c, c.running, c.NodeSet()
    ensures c.Valid() && CrewOk(BooksOf(c), crew', m, h, f) && c.clock == old(c.clock)
    ensures crew' == crew.(jobs := crew.jobs[w := Heard(crew.jobs[w].id)])
    ensures c.accepted == old(c.accepted)
    ensures c.reduced == if C.ReduceOf(crew.jobs[w].id) in old(c.Out()) then old(c.reduced) + {crew.jobs[w].id} else old(c.reduced)
    ensures forall x :: x in c.NodeSet() ==> x in old(c.NodeSet())
  {
    hide CrewOk, C.Coordinator.Valid, C.Coordinator.NodeSet, C.Coordinator.Out, C.Coordinator.Waiting, Executed;
    ghost var b := BooksOf(c);
    var id := crew.jobs[w].id;
    Inside(c);
    c.ReportReduce(id);
    crew' := crew.(jobs := crew.jobs[w := Heard(id)]);
    HeardOk(b, crew, w, c.reduced, m, h, f);
  }

  lemma HeardOk(b: Books, crew: Crew, w: nat, reduced: set<nat>, m: Mapper, h: Text -> nat, f: Reducer)
    requires CrewOk(b, crew, m, h, f) && w < |crew.jobs| && crew.jobs[w].Linked? && reduced <= b.reduced + {crew.jobs[w].id}
    ensures CrewOk(b.(reduced := reduced), crew.(jobs := crew.jobs[w := Heard(crew.jobs[w].id)]), m, h, f)
  {
    hide Executed, ReducedFrom;
    var id := crew.jobs[w].id;
    var crew', b' := crew.(jobs := crew.jobs[w := Heard(id)]), b.(reduced := reduced);
    forall v | 0 <= v < |crew'.jobs| ensures JobOk(b', crew', crew'.jobs[v], m, h) {
      assert JobOk(b, crew, crew.jobs[v], m, h);
    }
    forall x | x in reduced ensures Heard(x) in crew'.jobs {
      if x == id {
        assert crew'.jobs[w] == Heard(x);
      } else {
        var v :| 0 <= v < |crew.jobs| && crew.jobs[v] == Heard(x);
        assert crew'.jobs[v] == Heard(x);
      }
    }
  }

  // ---------- Runs ----------

  ghost predicate StuckStays(b: Books, crew: Crew, b': Books, crew': Crew) {
    forall id :: Stuck(b, crew, id) ==> Stuck(b', crew', id)
  }

  /** An execution does its work. */
  method DoWork(n: nat, ghost b: Books, crew: Crew, w: nat, buf: nat, m: Mapper, h: Text -> nat, f: Reducer) returns (crew': Crew)
    requires CrewOk(b, crew, m, h, f) && buf >= 1 && n == b.n
    ensures CrewOk(b, crew', m, h, f) && |crew'.jobs| == |crew.jobs|
    ensures StuckStays(b, crew, b, crew')
    ensures forall v :: 0 <= v < |crew.jobs| && v != w ==> crew'.jobs[v] == crew.jobs[v]
    ensures w < |crew.jobs| && crew.jobs[w].Mapping? ==>
              crew'.outs == crew.outs && crew'.jobs[w].Mapped? && crew'.jobs[w].report.file == crew.jobs[w].file
    ensures w < |crew.jobs| && crew.jobs[w].Reducing? ==>
              crew'.jobs[w] == if crew.jobs[w].id in crew.outs then Beaten else Linked(crew.jobs[w].id)
  {
    hide CrewOk;
    crew' := crew;
    if w < |crew.jobs| && crew.jobs[w].Mapping? {
      crew' := DoMapWork(n, b, crew, w, m, h, f);
      SameHeard(b, crew, crew', w);
    } else if w < |crew.jobs| && crew.jobs[w].Reducing? {
      crew' := DoReduceWork(b, crew, w, buf, m, h, f);
      SameHeard(b, crew, crew', w);
    }
  }

  /** The coordinator does not notice. */
  method WorkAway(c: C.Coordinator, crew: Crew, w: nat, buf: nat, m: Mapper, h: Text -> nat, f: Reducer) returns (crew': Crew)
    requires c.Valid() && CrewOk(BooksOf(c), crew, m, h, f) && buf >= 1
    ensures c.Valid() && CrewOk(BooksOf(c), crew', m, h, f) && |crew'.jobs| == |crew.jobs|
    ensures StuckStays(BooksOf(c), crew, BooksOf(c), crew')
    ensures c.Waiting() == old(c.Waiting()) && c.Out() == old(c.Out()) && c.Since() == old(c.Since())
    ensures forall v :: 0 <= v < |crew.jobs| && v != w ==> crew'.jobs[v] == crew.jobs[v]
    ensures w < |crew.jobs| && crew.jobs[w].Mapping? ==>
              crew'.outs == crew.outs && crew'.jobs[w].Mapped? && crew'.jobs[w].report.file == crew.jobs[w].file
    ensures w < |crew.jobs| && crew.jobs[w].Reducing? ==>
              crew'.jobs[w] == if crew.jobs[w].id in crew.outs then Beaten else Linked(crew.jobs[w].id)
  {
    hide CrewOk, StuckStays;
    crew' := DoWork(c.nReduce, BooksOf(c), crew, w, buf, m, h, f);
  }

  lemma SameHeard(b: Books, crew: Crew, crew': Crew, w: nat)
    requires w < |crew.jobs| == |crew'.jobs| && !crew.jobs[w].Heard?
    requires forall v :: 0 <= v < |crew.jobs| && v != w ==> crew'.jobs[v] == crew.jobs[v]
    ensures StuckStays(b, crew, b, crew')
  {
    forall id | Stuck(b, crew, id) ensures Stuck(b, crew', id) {
      var v :| 0 <= v < |crew.jobs| && crew.jobs[v] == Heard(id);
      assert crew'.jobs[v] == Heard(id);
    }
  }

  lemma StillStuck(b: Books, crew: Crew, w: nat, reduced: set<nat>)
    requires w < |crew.jobs| && crew.jobs[w].Linked? && Heard(crew.jobs[w].id) !in crew.jobs && reduced <= b.reduced + {crew.jobs[w].id}
    ensures StuckStays(b, crew, b.(reduced := reduced), crew.(jobs := crew.jobs[w := Heard(crew.jobs[w].id)]))
  {
    var crew' := crew.(jobs := crew.jobs[w := Heard(crew.jobs[w].id)]);
    forall id | Stuck(b, crew, id) ensures Stuck(b.(reduced := reduced), crew', id) {
      var v :| 0 <= v < |crew.jobs| && crew.jobs[v] == Heard(id);
      assert crew'.jobs[v] == Heard(id);
    }
  }

  /** One more event; one that does not fit changes nothing. */
  method Step(c: C.Coordinator, crew: Crew, e: Event, buf: nat, m: Mapper, h: Text -> nat, f: Reducer) returns (crew': Crew)
    requires c.Valid() && CrewOk(BooksOf(c), crew, m, h, f) && buf >= 1 && (e.Ask? ==> c.clock <= e.now)
    modifies c, c.pending, c.running, c.NodeSet()
    ensures c.Valid() && CrewOk(BooksOf(c), crew', m, h, f) && c.clock <= if e.Ask? then e.now else old(c.clock)
    ensures StuckStays(old(BooksOf(c)), crew, BooksOf(c), crew')
    ensures forall x :: x in c.NodeSet() ==> x in old(c.NodeSet()) || fresh(x)
  {
    hide CrewOk, C.Coordinator.Valid, C.Coordinator.NodeSet, C.Coordinator.Out, C.Coordinator.Waiting, C.Coordinator.Since, Executed;
    crew' := crew;
    match e {
      case Ask(now) => crew' := DoAsk(c, crew, now, m, h, f);
      case Tick(now) =>
        ghost var k := c.CheckTimeout(now);
      case Work(w) =>
        crew' := WorkAway(c, crew, w, buf, m, h, f);
      case Report(w) =>
        if w < |crew.jobs| {
          if crew.jobs[w].Mapped? {
            DoReportMap(c, crew, w, m, h, f);
          } else if crew.jobs[w].Linked? {
            OnlyOne(BooksOf(c), crew, w, m, h, f);
            crew' := DoReportReduce(c, crew, w, m, h, f);
            StillStuck(old(BooksOf(c)), crew, w, c.reduced);
          }
        }
    }
  }

  /** No other execution of the partition has been first. */
  lemma OnlyOne(b: Books, crew: Crew, w: nat, m: Mapper, h: Text -> nat, f: Reducer)
    requires CrewOk(b, crew, m, h, f) && w < |crew.jobs| && crew.jobs[w].Linked?
    ensures Heard(crew.jobs[w].id) !in crew.jobs
  {
    if Heard(crew.jobs[w].id) in crew.jobs {
      var v :| 0 <= v < |crew.jobs| && crew.jobs[v] == Heard(crew.jobs[w].id);
      var id := crew.jobs[w].id;
      assert Wins(crew.jobs[v], id) && Wins(crew.jobs[w], id);
    }
  }

  /** Askers' clocks do not go back. */
  ghost predicate Timely(events: seq<Event>, clock: int) {
    && (forall i :: 0 <= i < |events| && events[i].Ask? ==> clock <= events[i].now)
    && (forall i, j :: 0 <= i < j < |events| && events[i].Ask? && events[j].Ask? ==> events[i].now <= events[j].now)
  }

  /** Whatever happens next, in whatever order: a partition whose first execution has reported in vain
      stays unfinished, and the job is never done. */
  method RunOn(c: C.Coordinator, crew: Crew, events: seq<Event>, buf: nat, m: Mapper, h: Text -> nat, f: Reducer) returns (crew': Crew)
    requires c.Valid() && CrewOk(BooksOf(c), crew, m, h, f) && buf >= 1 && Timely(events, c.clock)
    modifies c, c.pending, c.running, c.NodeSet()
    ensures c.Valid() && CrewOk(BooksOf(c), crew', m, h, f)
    ensures StuckStays(old(BooksOf(c)), crew, BooksOf(c), crew')
    ensures forall id :: Stuck(old(BooksOf(c)), crew, id) ==> !c.done
    ensures forall x :: x in c.NodeSet() ==> x in old(c.NodeSet()) || fresh(x)
  {
    hide CrewOk, C.Coordinator.Valid, C.Coordinator.NodeSet;
    crew' := crew;
    var k := 0;
    while k < |events|
      invariant k <= |events| && c.Valid() && CrewOk(BooksOf(c), crew', m, h, f)
      invariant forall i :: k <= i < |events| && events[i].Ask? ==> c.clock <= events[i].now
      invariant StuckStays(old(BooksOf(c)), crew, BooksOf(c), crew')
      invariant forall x :: x in c.NodeSet() ==> x in old(c.NodeSet()) || fresh(x)
    {
      crew' := Step(c, crew', events[k], buf, m, h, f);
      k := k + 1;
    }
    if c.done {
      NoneStuck(c, crew', m, h, f);
    }
  }

  lemma NoneStuck(c: C.Coordinator, crew: Crew, m: Mapper, h: Text -> nat, f: Reducer)
    requires c.Valid() && c.done && CrewOk(BooksOf(c), crew, m, h, f)
    ensures forall id :: !Stuck(BooksOf(c), crew, id)
    ensures forall r: nat :: r < c.nReduce ==> r in crew.outs && ReducedFrom(crew.disk, c.accepted, r, crew.outs[r], f)
  {
    hide Executed, ReducedFrom;
    c.DoneMeansAll();
    forall r: nat | r < c.nReduce ensures r in crew.outs && ReducedFrom(crew.disk, c.accepted, r, crew.outs[r], f) {
      var w :| 0 <= w < |crew.jobs| && crew.jobs[w] == Heard(r);
      assert JobOk(BooksOf(c), crew, crew.jobs[w], m, h);
    }
    forall id ensures !Stuck(BooksOf(c), crew, id) {
      if Heard(id) in crew.jobs {
        var w :| 0 <= w < |crew.jobs| && crew.jobs[w] == Heard(id);
        assert JobOk(BooksOf(c), crew, crew.jobs[w], m, h);
      }
    }
  }

  /** The outputs in place, partition by partition. */
  ghost function Outputs(crew: Crew, n: nat): (outs: seq<seq<KeyValue>>)
    requires forall r: nat :: r < n ==> r in crew.outs
    ensures |outs| == n
  {
    seq(n, r requires 0 <= r < n => crew.outs[r])
  }

  /** Every output that the sequential program may write for these inputs is that of all partitions. */
  ghost predicate AsSequential(crew: Crew, n: nat, files: seq<string>, m: Mapper, f: Reducer) {
    && (forall r: nat :: r < n ==> r in crew.outs)
    && forall whole :: IsOutput(whole, multiset(Flat(Emitted(files, m))), f) ==> multiset(Flat(Outputs(crew, n))) == multiset(whole)
  }

  lemma DoneIsSequential(c: C.Coordinator, crew: Crew, m: Mapper, h: Text -> nat, f: Reducer)
    requires c.Valid() && c.done && CrewOk(BooksOf(c), crew, m, h, f) && Insensitive(f)
    requires forall g, i :: g in c.files && 0 <= i < |m(g)| ==> Clean(m(g)[i])
    ensures AsSequential(crew, c.nReduce, c.files, m, f)
  {
    hide Insensitive, IsOutput, Clean, ReducedFrom, Executed;
    NoneStuck(c, crew, m, h, f);
    var outs := Outputs(crew, c.nReduce);
    forall whole | IsOutput(whole, multiset(Flat(Emitted(c.files, m))), f) ensures multiset(Flat(outs)) == multiset(whole) {
      FinishedJobIsSequential(c, crew.disk, m, h, f, outs, whole);
    }
  }

  /** A job from its start on, with any workers, executions, delays and deaths: if the coordinator comes to
      say that it is done, the outputs in place are those of the sequential program. */
  method RunJob(files: seq<string>, n: nat, events: seq<Event>, buf: nat, m: Mapper, h: Text -> nat, f: Reducer)
    returns (c: C.Coordinator, crew: Crew)
    requires Distinct(files) && n >= 1 && buf >= 1 && Timely(events, 0)
    ensures c.Valid() && CrewOk(BooksOf(c), crew, m, h, f) && c.files == files && c.nReduce == n
    ensures c.done && Insensitive(f) && (forall g, i :: g in files && 0 <= i < |m(g)| ==> Clean(m(g)[i])) ==>
              AsSequential(crew, n, files, m, f)
  {
    hide CrewOk, C.Coordinator.Valid, C.Coordinator.NodeSet, AsSequential, Insensitive, Clean;
    c := new C.Coordinator(files, n);
    crew := Crew(map[], map[], [], 0);
    NobodyYet(BooksOf(c), m, h, f);
    crew := RunOn(c, crew, events, buf, m, h, f);
    if c.done && Insensitive(f) && forall g, i :: g in files && 0 <= i < |m(g)| ==> Clean(m(g)[i]) {
      DoneIsSequential(c, crew, m, h, f);
    }
  }

  lemma NobodyYet(b: Books, m: Mapper, h: Text -> nat, f: Reducer)
    requires b.n >= 1 && b.accepted == [] && b.reduced == {}
    ensures CrewOk(b, Crew(map[], map[], [], 0), m, h, f)
  {
  }

  // ---------- A job that is never done ----------

  /** The only map is out. */
  method FirstMap(buf: nat, m: Mapper, h: Text -> nat, f: Reducer) returns (c: C.Coordinator, crew: Crew)
    requires buf >= 1
    ensures fresh(c) && fresh(c.pending) && fresh(c.running) && fresh(c.NodeSet()) && c.clock <= 0
    ensures c.Valid() && CrewOk(BooksOf(c), crew, m, h, f) && c.reduced == {} && crew.outs == map[] && crew.jobs == [Mapping("in")]
    ensures c.files == ["in"] && c.nReduce == 1 && c.Out() == [C.MapOf("in")] && c.Waiting() == [] && c.Since() == [0] && !c.reducesReady
  {
    hide CrewOk, C.Coordinator.Valid, C.Coordinator.NodeSet, C.Coordinator.Waiting, C.Coordinator.Out, C.Coordinator.Since, Executed;
    c := new C.Coordinator(["in"], 1);
    crew := Crew(map[], map[], [], 0);
    NobodyYet(BooksOf(c), m, h, f);
    assert c.files[0] == "in";
    assert c.AllMaps() == [C.MapOf("in")];
    c.ListedIfUnfinished(C.MapOf("in"));
    NothingOut(c);
    crew := DoAsk(c, crew, 0, m, h, f);
    assert crew.jobs == [Mapping("in")];
  }

  lemma NothingOut(c: C.Coordinator)
    requires c.Out() == []
    ensures c.Since() == []
  {
  }

  /** The map has been done, and the reduce has just been handed out. */
  method FirstReduce(buf: nat, m: Mapper, h: Text -> nat, f: Reducer) returns (c: C.Coordinator, crew: Crew)
    requires buf >= 1
    ensures fresh(c) && fresh(c.pending) && fresh(c.running) && fresh(c.NodeSet()) && c.clock <= 0
    ensures c.Valid() && CrewOk(BooksOf(c), crew, m, h, f) && c.reduced == {} && crew.outs == map[]
    ensures |crew.jobs| == 2 && crew.jobs[1].Reducing? && crew.jobs[1].id == 0
    ensures c.Out() == [C.ReduceOf(0)] && c.Since() == [0]
  {
    hide CrewOk, C.Coordinator.Valid, C.Coordinator.NodeSet, C.Coordinator.Waiting, C.Coordinator.Out, C.Coordinator.Since, Executed;
    c, crew := FirstMap(buf, m, h, f);
    crew := WorkAway(c, crew, 0, buf, m, h, f);
    DoReportMap(c, crew, 0, m, h, f);
    assert c.AllReduces() == [C.ReduceOf(0)];
    NothingOut(c);
    crew := DoAsk(c, crew, 0, m, h, f);
  }

  /** One input and one partition. The reduce takes ten seconds; its output is in place, but its report
      comes when the task waits to be handed out again, and is discarded. From there on (`RunOn`)
      the job is never done. */
  method LateReport(buf: nat, m: Mapper, h: Text -> nat, f: Reducer) returns (c: C.Coordinator, crew: Crew)
    requires buf >= 1
    ensures fresh(c) && fresh(c.pending) && fresh(c.running) && fresh(c.NodeSet())
    ensures c.Valid() && CrewOk(BooksOf(c), crew, m, h, f) && Stuck(BooksOf(c), crew, 0)
  {
    hide CrewOk, C.Coordinator.Valid, C.Coordinator.NodeSet, C.Coordinator.Waiting, C.Coordinator.Out, C.Coordinator.Since, Executed;
    c, crew := FirstReduce(buf, m, h, f);
    crew := WorkAway(c, crew, 1, buf, m, h, f);
    ghost var k := c.CheckTimeout(10);
    assert 10 - [0][0] >= C.TASK_TIMEOUT;
    assert c.Out() == [];
    crew := DoReportReduce(c, crew, 1, m, h, f);
    assert crew.jobs[1] == Heard(0);
  }
}
