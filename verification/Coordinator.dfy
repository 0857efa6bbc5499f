/**
 The MapReduce coordinator: it hands out tasks, takes reports and requeues tasks that take too
 long. Nodes move between two linked lists and a pool, and are reused for other tasks.
 Times are those that `time.Now` returned, in seconds; they never go back.
 */
module Coordinator {
  import opened TaskList

  const TASK_TIMEOUT := 10

  datatype Task = MapOf(file: string) | ReduceOf(id: nat)

  /** What a worker is told to do. */
  datatype Assignment =
    | DoMap(file: string)
    | DoReduce(id: nat, files: seq<string>)
    | Wait
    | Exit

  /** A report of a finished map task: its input and one file for each partition ("" for none). */
  datatype MapReport = MapReport(file: string, outputs: seq<string>)

  /** The intermediate files of partition r over all accepted reports. */
  ghost function Collected(reports: seq<MapReport>, r: nat): seq<string> {
    if reports == [] then []
    else Collected(reports[..|reports| - 1], r) + FileFor(reports[|reports| - 1], r)
  }

  function FilesFor(mapFiles: map<nat, seq<string>>, r: nat): seq<string> {
    if r in mapFiles then mapFiles[r] else []
  }

  ghost function Inputs(reports: seq<MapReport>): set<string> {
    set i | 0 <= i < |reports| :: reports[i].file
  }

  /** Each finished map has been accepted once, and its files are in the partitions once. */
  ghost predicate Booked(reports: seq<MapReport>, mapDone: set<string>, mapFiles: map<nat, seq<string>>) {
    && (forall i, j :: 0 <= i < j < |reports| ==> reports[i].file != reports[j].file)
    && mapDone == Inputs(reports)
    && (forall r: nat :: FilesFor(mapFiles, r) == Collected(reports, r))
  }

  /** The file that the report has for partition r, if any. */
  function FileFor(report: MapReport, r: nat): seq<string> {
    if r < |report.outputs| && report.outputs[r] != "" then [report.outputs[r]] else []
  }

  lemma BookOne(reports: seq<MapReport>, mapDone: set<string>, mapFiles: map<nat, seq<string>>, report: MapReport,
                mapFiles': map<nat, seq<string>>)
    requires Booked(reports, mapDone, mapFiles) && report.file !in mapDone
    requires forall r: nat :: FilesFor(mapFiles', r) == FilesFor(mapFiles, r) + FileFor(report, r)
    ensures Booked(reports + [report], mapDone + {report.file}, mapFiles')
  {
    var more := reports + [report];
    assert more[..|reports|] == reports;
    forall i | 0 <= i < |reports| ensures reports[i].file in mapDone {
    }
    forall f | f in mapDone + {report.file} ensures f in Inputs(more) {
      if f == report.file {
        assert more[|reports|].file == f;
      } else {
        var i :| 0 <= i < |reports| && reports[i].file == f;
        assert more[i].file == f;
      }
    }
    forall r: nat ensures FilesFor(mapFiles', r) == Collected(more, r) {
    }
  }

  function CountOf<K>(m: map<K, nat>, k: K): nat {
    if k in m then m[k] else 0
  }

  class Coordinator {
    const files: seq<string>
    const nReduce: nat
    var mapDone: set<string>
    var mapTask: map<string, Node>
    var reduceTask: map<nat, Node>
    var mapFiles: map<nat, seq<string>>
    var generation: map<string, nat>
    var reduceGen: map<nat, nat>
    var reducesReady: bool
    var done: bool
    const pending: NodeList
    const running: NodeList
    var free: seq<Node>

    ghost var accepted: seq<MapReport>   // the map reports that were not discarded
    ghost var reduced: set<nat>          // the reduce tasks whose reports were not discarded
    ghost var clock: int
    ghost var moved: Node?               // the node that is being taken out of a list
    ghost var movedAt: nat               // where it was
    ghost var lost: set<Task>            // tasks that have no node while they move between lists

    // ---------- Invariant ----------

    ghost function Pool(): set<Node>
      reads `free
    {
      SetOf(free)
    }

    ghost function NodeSet(): set<Node>
      reads `free, pending`nodes, running`nodes
    {
      pending.All() + running.All() + Pool()
    }

    /** The lists are well-formed, and no node is in two places. */
    ghost predicate ListsOk()
      reads `free, pending, running, pending.All()`prev, pending.All()`next, running.All()`prev, running.All()`next
    {
      (&& pending != running && pending.Valid() && running.Valid() && Distinct(free)
      && pending.All() !! running.All() && Pool() !! (pending.All() + running.All())) == true
    }

    ghost predicate Active(n: Node)
      reads pending`nodes, running`nodes
    {
      n in pending.nodes || n in running.nodes
    }

    /** The node is that of an unfinished task, in its latest generation. */
    ghost predicate Owned(n: Node)
      reads `mapDone, `mapTask, `reduceTask, `generation, `reduceGen, `reducesReady, `mapFiles, n`kind, n`id, n`fileName, n`generation, n`files
    {
      (match n.kind
       case MapTask =>
         && n.fileName in files && n.fileName !in mapDone && n.fileName in mapTask && mapTask[n.fileName] == n
         && n.generation == CountOf(generation, n.fileName) && !reducesReady
       case ReduceTask =>
         && n.id < nReduce && n.id in reduceTask && reduceTask[n.id] == n
         && n.generation == CountOf(reduceGen, n.id) && reducesReady && n.files == FilesFor(mapFiles, n.id)) == true
    }

    ghost predicate NodesOk()
      reads `mapDone, `mapTask, `reduceTask, `generation, `reduceGen, `reducesReady, `mapFiles, pending`nodes, running`nodes,
            pending.Members()`kind, pending.Members()`id, pending.Members()`fileName, pending.Members()`generation, pending.Members()`files, pending.Members()`state, running.Members()`kind, running.Members()`id, running.Members()`fileName, running.Members()`generation, running.Members()`files, running.Members()`state
    {
      (&& (forall n :: n in pending.nodes ==> n.state == Pending && Owned(n))
      && (forall n :: n in running.nodes ==> n.state == Running && Owned(n))) == true
    }

    /** Every unfinished task, except those in `lost`, has a node in one of the lists. */
    ghost predicate TasksOk()
      reads `lost, `mapDone, `mapTask, `reduceTask, pending`nodes, running`nodes, pending.Members()`kind, pending.Members()`id, pending.Members()`fileName, running.Members()`kind, running.Members()`id, running.Members()`fileName
    {
      (&& (forall f :: f in files && f !in mapDone && MapOf(f) !in lost ==>
            f in mapTask && Active(mapTask[f]) && mapTask[f].kind == MapTask && mapTask[f].fileName == f)
      && (forall r :: r in reduceTask && ReduceOf(r) !in lost ==>
            r < nReduce && Active(reduceTask[r]) && reduceTask[r].kind == ReduceTask && reduceTask[r].id == r)
      && (forall n :: n in pending.nodes ==> TaskOf(n) !in lost)
      && (forall n :: n in running.nodes ==> TaskOf(n) !in lost)) == true
    }

    /** Reduce tasks exist only after all maps are done, and are then either open or accepted. */
    ghost predicate PhasesOk()
      reads `lost, `mapDone, `mapTask, `reduceTask, `reduced, `reducesReady, `done, pending`nodes, running`nodes
    {
      (&& Distinct(files) && (forall f :: f in mapDone ==> f in files) && (forall f :: f in mapTask ==> f in files)
      && (reducesReady ==> (forall f :: f in files ==> f in mapDone))
      && (reducesReady ==> forall r: nat :: r < nReduce ==>
            (r in reduced) != (r in reduceTask || ReduceOf(r) in lost))
      && (!reducesReady ==> reduceTask == map[] && reduced == {})
      && (forall r :: r in reduced ==> r < nReduce)
      && (done ==> reducesReady && pending.nodes == [] && running.nodes == [] && lost == {})) == true
    }

    ghost predicate ReportsOk()
      reads `mapDone, `mapFiles, `accepted
    {
      Booked(accepted, mapDone, mapFiles)
    }

    /** Tasks are running in the order in which they were handed out. */
    ghost predicate TimesOk()
      reads `clock, running`nodes, running.Members()`startTime
    {
      (&& (forall i, j :: 0 <= i < j < |running.nodes| ==> running.nodes[i].startTime <= running.nodes[j].startTime)
      && (forall i :: 0 <= i < |running.nodes| ==> running.nodes[i].startTime <= clock)) == true
    }

    /** Holds inside operations too, with the tasks that are just being moved in `lost`. */
    ghost predicate Inv()
      reads this, pending, running, pending.All(), running.All(), pending.Members(), running.Members()
    {
      ListsOk() && NodesOk() && TasksOk() && PhasesOk() && ReportsOk() && TimesOk()
    }

    ghost predicate Valid()
      reads this, pending, running, pending.All(), running.All(), pending.Members(), running.Members()
    {
      Inv() && lost == {}
    }

    function TaskOf(n: Node): Task
      reads n`kind, n`id, n`fileName
    {
      match n.kind
      case MapTask => MapOf(n.fileName)
      case ReduceTask => ReduceOf(n.id)
    }

    // ---------- What is waiting and what is out ----------

    ghost function TasksOf(s: seq<Node>): (ts: seq<Task>)
      reads (set n | n in s)`kind, (set n | n in s)`id, (set n | n in s)`fileName
      ensures |ts| == |s| && forall i :: 0 <= i < |s| ==> ts[i] == TaskOf(s[i])
    {
      if s == [] then [] else TasksOf(s[..|s| - 1]) + [TaskOf(s[|s| - 1])]
    }

    /** The tasks that wait, in the order in which they will be handed out. */
    ghost function Waiting(): seq<Task>
      reads pending`nodes, pending.Members()`kind, pending.Members()`id, pending.Members()`fileName
    {
      TasksOf(pending.nodes)
    }

    /** The tasks that are out, longest first. */
    ghost function Out(): seq<Task>
      reads running`nodes, running.Members()`kind, running.Members()`id, running.Members()`fileName
    {
      TasksOf(running.nodes)
    }

    ghost function TimesOf(s: seq<Node>): (ts: seq<int>)
      reads (set n | n in s)`startTime
      ensures |ts| == |s| && forall i :: 0 <= i < |s| ==> ts[i] == s[i].startTime
    {
      if s == [] then [] else TimesOf(s[..|s| - 1]) + [s[|s| - 1].startTime]
    }

    /** When the tasks that are out were handed out. */
    ghost function Since(): seq<int>
      reads running`nodes, running.Members()`startTime
    {
      TimesOf(running.nodes)
    }

    // ---------- What the invariant means ----------

    /** Each unfinished task owns exactly one node in exactly one of the two lists. */
    lemma OneNodePerTask(n: Node, m: Node)
      requires Valid() && Active(n) && Active(m) && n.kind == m.kind
      requires if n.kind == MapTask then n.fileName == m.fileName else n.id == m.id
      ensures n == m && (n in pending.nodes) != (n in running.nodes)
    {
      hide NodeList.Valid, Distinct;
    }

    ghost predicate Unfinished(t: Task)
      reads `mapDone, `reduced, `reducesReady
    {
      match t
      case MapOf(f) => f in files && f !in mapDone
      case ReduceOf(r) => reducesReady && r < nReduce && r !in reduced
    }

    lemma ListedOnce()
      requires Valid()
      ensures Distinct(Waiting() + Out())
    {
      hide PhasesOk, ReportsOk, TimesOk;
      var all := pending.nodes + running.nodes;
      forall i, j | 0 <= i < j < |all| ensures TaskOf(all[i]) != TaskOf(all[j]) {
        assert all[i] != all[j] by { Apart(i, j); }
        assert Active(all[i]) && Active(all[j]) && Owned(all[i]) && Owned(all[j]);
      }
      forall i | 0 <= i < |all| ensures (Waiting() + Out())[i] == TaskOf(all[i]) {
      }
    }

    /** No node stands at two places of the lists. */
    lemma Apart(i: nat, j: nat)
      requires ListsOk() && i < j < |pending.nodes + running.nodes|
      ensures (pending.nodes + running.nodes)[i] != (pending.nodes + running.nodes)[j]
    {
      var p, n := pending.nodes, |pending.nodes|;
      if j < n {
        assert pending.Chain()[i + 1] != pending.Chain()[j + 1];
      } else if i >= n {
        assert running.Chain()[i - n + 1] != running.Chain()[j - n + 1];
      } else {
        pending.InAll(p[i]);
        running.InAll(running.nodes[j - n]);
      }
    }

    /**
     Conservation: the two lists together hold every unfinished task exactly once, and nothing else.
     */
    lemma Conservation(t: Task)
      requires Valid()
      ensures multiset(Waiting() + Out())[t] == if Unfinished(t) then 1 else 0
    {
      ListedOnce();
      CountDistinct(Waiting() + Out(), t);
      ListedIfUnfinished(t);
    }

    lemma ListedIfUnfinished(t: Task)
      requires Valid()
      ensures t in Waiting() + Out() <==> Unfinished(t)
    {
      hide ListsOk, ReportsOk, TimesOk;
      var all := pending.nodes + running.nodes;
      if t in Waiting() + Out() {
        var i :| 0 <= i < |all| && (Waiting() + Out())[i] == t;
        assert Active(all[i]) && Owned(all[i]) && TaskOf(all[i]) == t;
        assert t.ReduceOf? ==> t.id in reduceTask;
      }
      if Unfinished(t) {
        var n := if t.MapOf? then mapTask[t.file] else reduceTask[t.id];
        assert Active(n) && TaskOf(n) == t;
        var i :| 0 <= i < |all| && all[i] == n;
        assert (Waiting() + Out())[i] == t;
      }
    }

    /** When the job is done, every map and every reduce has been accepted, once. */
    lemma DoneMeansAll()
      requires Valid() && done
      ensures forall f :: f in files ==> exists i :: 0 <= i < |accepted| && accepted[i].file == f
      ensures forall r: nat :: r in reduced <==> r < nReduce
    {
      forall r: nat | r < nReduce ensures r in reduced {
        assert r in reduceTask ==> Active(reduceTask[r]);
      }
    }

    lemma InvLists()
      requires Inv()
      ensures ListsOk()
    {
    }

    // ---------- Lists ----------

    /** Nodes from elsewhere, or fewer nodes, in one of the lists: they are still apart. */
    method PushPending(n: Node)
      requires ListsOk() && n !in NodeSet()
      modifies pending, n`prev, n`next, pending.All()`prev, pending.All()`next
      ensures ListsOk() && pending.nodes == old(pending.nodes) + [n] && NodeSet() == old(NodeSet()) + {n}
      ensures running.nodes == old(running.nodes) && n !in old(pending.nodes) && n !in running.nodes
    {
      hide NodeList.Valid, Distinct;
      ghost var other := running.All();
      assert pending.All() !! other && running.Valid();
      NotIn(n, pending);
      NotIn(n, running);
      pending.PushBack(n);
      assert running.Valid() && running.All() == other;
    }

    method PushRunning(n: Node)
      requires ListsOk() && n !in NodeSet()
      modifies running, n`prev, n`next, running.All()`prev, running.All()`next
      ensures ListsOk() && running.nodes == old(running.nodes) + [n] && NodeSet() == old(NodeSet()) + {n}
      ensures pending.nodes == old(pending.nodes) && n !in old(running.nodes) && n !in pending.nodes
    {
      hide NodeList.Valid, Distinct;
      ghost var other := pending.All();
      assert running.All() !! other && pending.Valid();
      NotIn(n, pending);
      NotIn(n, running);
      running.PushBack(n);
      assert pending.Valid() && pending.All() == other;
    }

    method CutPending(n: Node, ghost i: nat)
      requires ListsOk() && i < |pending.nodes| && pending.nodes[i] == n
      modifies pending, pending.All()`prev, pending.All()`next
      ensures ListsOk() && pending.nodes == old(pending.nodes)[..i] + old(pending.nodes)[i + 1..]
      ensures running.nodes == old(running.nodes) && n !in NodeSet() && NodeSet() <= old(NodeSet())
      ensures pending.Members() == old(pending.Members()) - {n} && running.Members() == old(running.Members()) - {n}
    {
      hide NodeList.Valid, Distinct;
      ghost var other := running.All();
      assert pending.All() !! other && running.Valid();
      pending.InAll(n);
      NotIn(n, running);
      pending.Remove(n, i);
      assert running.Valid() && running.All() == other;
    }

    method CutRunning(n: Node, ghost i: nat)
      requires ListsOk() && i < |running.nodes| && running.nodes[i] == n
      modifies running, running.All()`prev, running.All()`next
      ensures ListsOk() && running.nodes == old(running.nodes)[..i] + old(running.nodes)[i + 1..]
      ensures pending.nodes == old(pending.nodes) && n !in NodeSet() && NodeSet() <= old(NodeSet())
      ensures pending.Members() == old(pending.Members()) - {n} && running.Members() == old(running.Members()) - {n}
    {
      hide NodeList.Valid, Distinct;
      ghost var other := pending.All();
      assert running.All() !! other && pending.Valid();
      running.InAll(n);
      NotIn(n, pending);
      running.Remove(n, i);
      assert pending.Valid() && pending.All() == other;
    }

    lemma NotIn(n: Node, l: NodeList)
      requires n !in l.All()
      ensures n !in l.nodes && n !in l.Members()
    {
      if n in l.nodes { l.InAll(n); }
    }

    // ---------- Nodes ----------

    /** A node from the pool, or a new one, in the next generation of its task. */
    method Alloc(t: Task, fs: seq<string>) returns (n: Node)
      requires ListsOk()
      modifies `free, `generation, `reduceGen, Pool()
      ensures ListsOk() && n !in NodeSet() && (fresh(n) || n in old(Pool())) && Pool() <= old(Pool())
      ensures TaskOf(n) == t && n.files == fs && n.state == Pending
      ensures t.MapOf? ==> generation == old(generation)[t.file := CountOf(old(generation), t.file) + 1]
                           && reduceGen == old(reduceGen) && n.generation == CountOf(generation, t.file)
      ensures t.ReduceOf? ==> reduceGen == old(reduceGen)[t.id := CountOf(old(reduceGen), t.id) + 1]
                              && generation == old(generation) && n.generation == CountOf(reduceGen, t.id)
    {
      hide NodeList.Valid, Distinct;
      if |free| > 0 {
        n := free[|free| - 1];
        Popped(n);
        free := free[..|free| - 1];
      } else {
        n := new Node();
        assert free == [];
      }
      Reset(n, t, fs);
    }

    /** Makes the node that of task t. */
    method Reset(n: Node, t: Task, fs: seq<string>)
      modifies `generation, `reduceGen, n
      ensures TaskOf(n) == t && n.files == fs && n.state == Pending
      ensures t.MapOf? ==> generation == old(generation)[t.file := CountOf(old(generation), t.file) + 1]
                           && reduceGen == old(reduceGen) && n.generation == CountOf(generation, t.file)
      ensures t.ReduceOf? ==> reduceGen == old(reduceGen)[t.id := CountOf(old(reduceGen), t.id) + 1]
                              && generation == old(generation) && n.generation == CountOf(reduceGen, t.id)
    {
      n.files, n.state, n.prev, n.next := fs, Pending, null, null;
      match t {
        case MapOf(f) =>
          n.kind, n.fileName := MapTask, f;
          generation := generation[f := CountOf(generation, f) + 1];
          n.generation := generation[f];
        case ReduceOf(r) =>
          n.kind, n.id, n.fileName := ReduceTask, r, "";
          reduceGen := reduceGen[r := CountOf(reduceGen, r) + 1];
          n.generation := reduceGen[r];
      }
    }

    lemma Popped(n: Node)
      requires Distinct(free) && |free| > 0 && n == free[|free| - 1]
      ensures Distinct(free[..|free| - 1]) && n !in free[..|free| - 1]
    {
    }

    // ---------- Moving tasks ----------

    /** The task may get a node: it is unfinished, of the present phase, and has none. */
    ghost predicate MayEnqueue(t: Task, fs: seq<string>)
      reads `mapDone, `mapFiles, `reduced, `reducesReady, `done
    {
      && !done
      && match t
         case MapOf(f) => f in files && f !in mapDone && !reducesReady
         case ReduceOf(r) => r < nReduce && r !in reduced && reducesReady && fs == FilesFor(mapFiles, r)
    }

    /** Nothing has changed but the entries of lost tasks. */
    twostate predicate OnlyLost()
      reads `lost, `mapDone, `mapTask, `reduceTask, `generation, `reduceGen, `reducesReady, `mapFiles, pending`nodes, running`nodes
    {
      (&& lost == old(lost) && mapDone == old(mapDone) && reducesReady == old(reducesReady) && mapFiles == old(mapFiles)
      && pending.nodes == old(pending.nodes) && running.nodes == old(running.nodes)
      && (forall f :: MapOf(f) !in lost ==>
            && (f in mapTask <==> f in old(mapTask)) && (f in mapTask ==> mapTask[f] == old(mapTask)[f])
            && CountOf(generation, f) == CountOf(old(generation), f))
      && (forall r :: ReduceOf(r) !in lost ==>
            && (r in reduceTask <==> r in old(reduceTask)) && (r in reduceTask ==> reduceTask[r] == old(reduceTask)[r])
            && CountOf(reduceGen, r) == CountOf(old(reduceGen), r))) == true
    }

    /** The node is as it was. */
    twostate predicate Same(n: Node)
      reads n`kind, n`id, n`fileName, n`generation, n`files, n`state, n`startTime
    {
      (&& n.kind == old(n.kind) && n.id == old(n.id) && n.fileName == old(n.fileName) && n.generation == old(n.generation)
      && n.files == old(n.files) && n.state == old(n.state) && n.startTime == old(n.startTime)) == true
    }

    twostate predicate AllSame()
      reads pending`nodes, running`nodes, pending.Members(), running.Members()
    {
      (&& pending.nodes == old(pending.nodes) && running.nodes == old(running.nodes)
      && (forall n :: n in pending.nodes ==> Same(n)) && (forall n :: n in running.nodes ==> Same(n))) == true
    }

    twostate lemma NodesStay()
      requires old(NodesOk())
      requires old(TasksOk())
      requires OnlyLost()
      requires AllSame()
      ensures NodesOk()
    {
      forall n | Active(n) ensures Owned(n) && n.state == old(n.state) {
        assert Same(n);
        assert old(Owned(n)) && old(TaskOf(n)) !in lost;
      }
    }

    twostate lemma TasksStay()
      requires old(TasksOk())
      requires OnlyLost()
      requires AllSame()
      ensures TasksOk()
    {
      forall f | f in files && f !in mapDone && MapOf(f) !in lost
        ensures f in mapTask && Active(mapTask[f]) && mapTask[f].kind == MapTask && mapTask[f].fileName == f
      {
        assert old(Active(mapTask[f]));
        assert Same(mapTask[f]);
      }
      forall r | r in reduceTask && ReduceOf(r) !in lost
        ensures r < nReduce && Active(reduceTask[r]) && reduceTask[r].kind == ReduceTask && reduceTask[r].id == r
      {
        assert old(Active(reduceTask[r]));
        assert Same(reduceTask[r]);
      }
      forall n | n in pending.nodes ensures TaskOf(n) !in lost {
        assert Same(n);
      }
      forall m | m in running.nodes ensures TaskOf(m) !in lost {
        assert Same(m);
      }
    }

    twostate lemma TimesStay()
      requires old(TimesOk())
      requires clock == old(clock)
      requires AllSame()
      ensures TimesOk()
    {
      forall i | 0 <= i < |running.nodes| ensures running.nodes[i].startTime == old(running.nodes[i].startTime) {
        assert Same(running.nodes[i]);
      }
    }

    twostate lemma PhasesStay()
      requires old(PhasesOk())
      requires done == old(done) && reduced == old(reduced) && OnlyLost()
      requires (forall r :: r in reduceTask ==> reducesReady) && forall f :: f in mapTask ==> f in files
      ensures PhasesOk()
    {
    }

    twostate lemma Stays()
      requires old(Inv())
      requires ListsOk()
      requires clock == old(clock) && done == old(done) && reduced == old(reduced) && accepted == old(accepted)
      requires (forall r :: r in reduceTask ==> reducesReady) && forall f :: f in mapTask ==> f in files
      requires OnlyLost()
      requires AllSame()
      ensures Inv()
    {
      NodesStay();
      TasksStay();
      TimesStay();
      PhasesStay();
    }

    /** Nodes in the lists are not in the pool. */
    twostate lemma Untouched()
      requires old(ListsOk())
      requires pending.nodes == old(pending.nodes) && running.nodes == old(running.nodes)
      requires forall m :: m in old(pending.All()) || m in old(running.All()) ==> Same(m)
      ensures AllSame()
    {
      forall m | m in pending.nodes || m in running.nodes ensures Same(m) {
        assert m in old(pending.All()) || m in old(running.All());
      }
    }

    lemma NoReduceYet()
      requires Inv()
      ensures !reducesReady ==> reduceTask == map[]
      ensures forall f :: f in mapTask ==> f in files
    {
    }

    /** A node in the next generation of the lost task. */
    method AllocFor(t: Task, fs: seq<string>) returns (n: Node)
      requires Inv() && t in lost
      modifies `free, `generation, `reduceGen, Pool()
      ensures Inv() && n !in NodeSet() && TaskOf(n) == t && n.state == Pending && n.files == fs
      ensures n.generation == if t.MapOf? then CountOf(generation, t.file) else CountOf(reduceGen, t.id)
      ensures Pool() <= old(Pool()) && (fresh(n) || n in old(Pool()))
      ensures forall m :: m in pending.nodes || m in running.nodes ==> Same(m)
    {
      hide Inv, ListsOk, AllSame, TaskOf;
      InvLists();
      NoReduceYet();
      n := Alloc(t, fs);
      Untouched();
      Stays();
    }

    /** The lost task gets the node as its own. */
    method Own(t: Task, n: Node)
      requires Inv() && t in lost && MayEnqueue(t, n.files) && TaskOf(n) == t
      requires n.generation == if t.MapOf? then CountOf(generation, t.file) else CountOf(reduceGen, t.id)
      modifies `mapTask, `reduceTask
      ensures Inv() && Owned(n)
    {
      hide Inv, ListsOk;
      InvLists();
      NoReduceYet();
      match t {
        case MapOf(f) => mapTask := mapTask[f := n];
        case ReduceOf(r) => reduceTask := reduceTask[r := n];
      }
      Stays();
    }

    /** A node for the task, not in a list yet. */
    method NewNode(t: Task, fs: seq<string>) returns (n: Node)
      requires Inv() && t in lost && MayEnqueue(t, fs)
      modifies `mapTask, `reduceTask, `free, `generation, `reduceGen, Pool()
      ensures Inv() && n !in NodeSet() && Owned(n) && TaskOf(n) == t && n.state == Pending
      ensures Pool() <= old(Pool()) && (fresh(n) || n in old(Pool()))
      ensures forall m :: m in pending.nodes || m in running.nodes ==> Same(m)
    {
      hide Inv, Owned, TaskOf;
      n := AllocFor(t, fs);
      Own(t, n);
    }

    /** The waiting list has got one more node, of a task that is no longer lost. */
    twostate predicate Appended()
      reads `lost, `mapDone, `mapTask, `reduceTask, `generation, `reduceGen, `reducesReady, `mapFiles,
            pending`nodes, running`nodes, pending.Members(), running.Members()
    {
      (&& |pending.nodes| == |old(pending.nodes)| + 1 && pending.nodes[..|old(pending.nodes)|] == old(pending.nodes)
       && running.nodes == old(running.nodes)
       && mapDone == old(mapDone) && mapTask == old(mapTask) && reduceTask == old(reduceTask) && mapFiles == old(mapFiles)
       && generation == old(generation) && reduceGen == old(reduceGen) && reducesReady == old(reducesReady)
       && (forall n :: n in old(pending.nodes) ==> Same(n)) && (forall n :: n in running.nodes ==> Same(n))
       && var n := pending.nodes[|old(pending.nodes)|];
       && n.state == Pending && Owned(n) && TaskOf(n) in old(lost) && lost == old(lost) - {TaskOf(n)}) == true
    }

    twostate lemma AppendedNodes()
      requires old(NodesOk())
      requires Appended()
      ensures NodesOk()
    {
      forall n | Active(n) && n != pending.nodes[|old(pending.nodes)|] ensures Owned(n) && n.state == old(n.state) {
        assert n in old(pending.nodes) || n in running.nodes;
        assert Same(n);
        assert old(Owned(n));
      }
    }

    twostate lemma AppendedTasks()
      requires old(TasksOk())
      requires Appended()
      ensures TasksOk()
    {
      var k := |old(pending.nodes)|;
      var x := pending.nodes[k];
      assert pending.nodes == old(pending.nodes) + [x];
      forall f | f in files && f !in mapDone && MapOf(f) !in lost
        ensures f in mapTask && Active(mapTask[f]) && mapTask[f].kind == MapTask && mapTask[f].fileName == f
      {
        if MapOf(f) != TaskOf(x) {
          assert old(Active(mapTask[f]));
          assert Same(mapTask[f]);
        }
      }
      forall r | r in reduceTask && ReduceOf(r) !in lost
        ensures r < nReduce && Active(reduceTask[r]) && reduceTask[r].kind == ReduceTask && reduceTask[r].id == r
      {
        if ReduceOf(r) != TaskOf(x) {
          assert old(Active(reduceTask[r]));
          assert Same(reduceTask[r]);
        }
      }
      forall n | Active(n) && n != x ensures TaskOf(n) !in lost {
        assert n in old(pending.nodes) || n in running.nodes;
        assert Same(n);
      }
    }

    twostate lemma AppendedPhases()
      requires old(PhasesOk())
      requires !done && done == old(done) && reduced == old(reduced)
      requires Appended()
      ensures PhasesOk()
    {
    }

    twostate lemma AppendedTimes()
      requires old(TimesOk())
      requires clock == old(clock)
      requires Appended()
      ensures TimesOk()
    {
      forall i | 0 <= i < |running.nodes| ensures running.nodes[i].startTime == old(running.nodes[i].startTime) {
        assert Same(running.nodes[i]);
      }
    }

    twostate lemma AppendedAll()
      requires old(Inv())
      requires ListsOk()
      requires !done && done == old(done) && reduced == old(reduced) && clock == old(clock) && accepted == old(accepted)
      requires Appended()
      ensures Inv()
    {
      AppendedNodes();
      AppendedTasks();
      AppendedPhases();
      AppendedTimes();
    }

    /** The node goes to the end of the waiting list. */
    method Add(n: Node)
      requires Inv() && TaskOf(n) in lost && n !in NodeSet() && Owned(n) && n.state == Pending && !done
      modifies `lost, pending, n`prev, n`next, pending.All()`prev, pending.All()`next
      ensures Inv() && pending.nodes == old(pending.nodes) + [n] && lost == old(lost) - {TaskOf(n)}
      ensures running.nodes == old(running.nodes)
    {
      hide Inv, ListsOk, Owned, TaskOf, NodeSet, NodeList.All;
      InvLists();
      PushPending(n);
      lost := lost - {TaskOf(n)};
      AppendedAll();
    }

    /** One more task waits. */
    twostate lemma Queued()
      requires |pending.nodes| == |old(pending.nodes)| + 1 && pending.nodes[..|old(pending.nodes)|] == old(pending.nodes)
      requires running.nodes == old(running.nodes)
      requires forall m :: m in old(pending.nodes) || m in running.nodes ==> Same(m)
      ensures Waiting() == old(Waiting()) + [TaskOf(pending.nodes[|old(pending.nodes)|])] && Out() == old(Out())
    {
      forall i | 0 <= i < |old(pending.nodes)| ensures TaskOf(pending.nodes[i]) == old(TaskOf(pending.nodes[i])) {
        assert pending.nodes[i] == pending.nodes[..|old(pending.nodes)|][i];
        assert Same(pending.nodes[i]);
      }
      forall j | 0 <= j < |running.nodes| ensures TaskOf(running.nodes[j]) == old(TaskOf(running.nodes[j])) {
        assert Same(running.nodes[j]);
      }
    }

    /** Puts a node of the task at the end of the waiting list. */
    method Enqueue(t: Task, fs: seq<string>)
      requires Inv() && t in lost && MayEnqueue(t, fs)
      modifies `lost, `mapTask, `reduceTask, `free, `generation, `reduceGen, pending, NodeSet()
      ensures Inv() && lost == old(lost) - {t}
      ensures |pending.nodes| == |old(pending.nodes)| + 1 && pending.nodes[..|old(pending.nodes)|] == old(pending.nodes)
      ensures TaskOf(pending.nodes[|old(pending.nodes)|]) == t && running.nodes == old(running.nodes)
      ensures Waiting() == old(Waiting()) + [t] && Out() == old(Out())
      ensures forall n :: n in old(pending.nodes) || n in running.nodes ==> Same(n)
      ensures forall n :: n in NodeSet() ==> n in old(NodeSet()) || fresh(n)
    {
      hide Inv, Owned, TaskOf, Waiting, Out;
      var n := NewNode(t, fs);
      Add(n);
      Queued();
    }

    /** The node `moved` has left its list, and its task is lost. */
    twostate predicate Shrunk()
      reads this, pending`nodes, running`nodes, pending.Members(), running.Members(), moved
    {
      (var x := moved;
       && x != null && (x in old(pending.nodes) || x in old(running.nodes)) && Same(x) && lost == old(lost) + {TaskOf(x)}
       && pending.Members() == old(pending.Members()) - {x} && running.Members() == old(running.Members()) - {x}
       && (forall n :: n in old(pending.nodes) ==> Same(n)) && (forall n :: n in old(running.nodes) ==> Same(n))
       && mapDone == old(mapDone) && mapTask == old(mapTask) && reduceTask == old(reduceTask) && mapFiles == old(mapFiles)
       && generation == old(generation) && reduceGen == old(reduceGen) && reducesReady == old(reducesReady)) == true
    }

    twostate lemma ShrunkNodes()
      requires old(NodesOk())
      requires Shrunk()
      ensures NodesOk() && Owned(moved)
    {
      var x := moved;
      assert Same(x) && old(Owned(x));
      forall n | n in pending.nodes ensures Owned(n) && n.state == Pending {
        assert n in pending.Members() && n in old(pending.nodes);
        assert Same(n) && old(Owned(n));
      }
      forall m | m in running.nodes ensures Owned(m) && m.state == Running {
        assert m in running.Members() && m in old(running.nodes);
        assert Same(m) && old(Owned(m));
      }
    }

    twostate lemma ShrunkTasks()
      requires old(NodesOk()) && old(TasksOk())
      requires Shrunk()
      ensures TasksOk()
    {
      var x := moved;
      assert Same(x) && old(Owned(x));
      forall f | f in files && f !in mapDone && MapOf(f) !in lost
        ensures f in mapTask && Active(mapTask[f]) && mapTask[f].kind == MapTask && mapTask[f].fileName == f
      {
        assert old(Active(mapTask[f]));
        assert Same(mapTask[f]) && mapTask[f] != x;
        assert mapTask[f] in pending.Members() || mapTask[f] in running.Members();
      }
      forall r | r in reduceTask && ReduceOf(r) !in lost
        ensures r < nReduce && Active(reduceTask[r]) && reduceTask[r].kind == ReduceTask && reduceTask[r].id == r
      {
        assert old(Active(reduceTask[r]));
        assert Same(reduceTask[r]) && reduceTask[r] != x;
        assert reduceTask[r] in pending.Members() || reduceTask[r] in running.Members();
      }
      forall n | n in pending.nodes ensures TaskOf(n) !in lost {
        assert n in pending.Members() && n in old(pending.nodes);
        assert Same(n) && old(Owned(n)) && old(TaskOf(n)) !in old(lost);
      }
      forall m | m in running.nodes ensures TaskOf(m) !in lost {
        assert m in running.Members() && m in old(running.nodes);
        assert Same(m) && old(Owned(m)) && old(TaskOf(m)) !in old(lost);
      }
    }

    twostate lemma ShrunkPhases()
      requires old(PhasesOk())
      requires old(NodesOk())
      requires old(TasksOk())
      requires !done && done == old(done) && reduced == old(reduced)
      requires Shrunk()
      ensures PhasesOk()
    {
      var x := moved;
      assert Same(x) && old(Owned(x));
    }

    twostate lemma Shrinks()
      requires old(Inv())
      requires ListsOk()
      requires !done && done == old(done) && reduced == old(reduced) && clock == old(clock) && accepted == old(accepted)
      requires running.nodes == old(running.nodes)
               || (movedAt < |old(running.nodes)|
                   && running.nodes == old(running.nodes)[..movedAt] + old(running.nodes)[movedAt + 1..])
      requires Shrunk()
      ensures Inv() && Owned(moved)
    {
      ShrunkNodes();
      ShrunkTasks();
      ShrunkPhases();
      assert pending.Members() <= old(pending.Members()) && running.Members() <= old(running.Members());
      forall n | n in running.nodes ensures n in old(running.nodes) {
        assert n in running.Members();
      }
      ShrunkTimes();
    }

    /** Takes a node out of the waiting list. */
    method DetachWaiting(n: Node, ghost i: nat)
      requires Inv() && i < |pending.nodes| && pending.nodes[i] == n && !done
      modifies `moved, `movedAt, `lost, pending, pending.All()`prev, pending.All()`next
      ensures Inv() && n !in NodeSet() && Owned(n) && Same(n) && lost == old(lost) + {TaskOf(n)}
      ensures pending.nodes == old(pending.nodes[..i] + pending.nodes[i + 1..]) && running.nodes == old(running.nodes)
      ensures forall m :: m in pending.nodes || m in running.nodes ==> Same(m)
      ensures NodeSet() <= old(NodeSet())
    {
      hide Inv, ListsOk, Owned, TaskOf, NodeSet, TasksOk, NodesOk, NodeList.All;
      InvLists();
      moved, movedAt := n, i;
      lost := lost + {TaskOf(n)};
      CutPending(n, i);
      Shrinks();
    }

    /** Takes a node out of the list of tasks that are out. */
    method DetachRunning(n: Node, ghost i: nat)
      requires Inv() && i < |running.nodes| && running.nodes[i] == n && !done
      modifies `moved, `movedAt, `lost, running, running.All()`prev, running.All()`next
      ensures Inv() && n !in NodeSet() && Owned(n) && Same(n) && lost == old(lost) + {TaskOf(n)}
      ensures running.nodes == old(running.nodes[..i] + running.nodes[i + 1..]) && pending.nodes == old(pending.nodes) && movedAt == i
      ensures forall m :: m in pending.nodes || m in running.nodes ==> Same(m)
      ensures NodeSet() <= old(NodeSet())
    {
      hide Inv, ListsOk, Owned, TaskOf, NodeSet, TasksOk, NodesOk, NodeList.All;
      InvLists();
      moved, movedAt := n, i;
      lost := lost + {TaskOf(n)};
      CutRunning(n, i);
      Shrinks();
    }

    twostate lemma ShrunkTimes()
      requires old(TimesOk())
      requires clock == old(clock)
      requires running.nodes == old(running.nodes)
               || (movedAt < |old(running.nodes)|
                   && running.nodes == old(running.nodes)[..movedAt] + old(running.nodes)[movedAt + 1..])
      requires forall n :: n in running.nodes ==> n in old(running.nodes) && Same(n)
      ensures TimesOk()
    {
      if running.nodes != old(running.nodes) {
        var i := movedAt;
        forall k | 0 <= k < |running.nodes|
          ensures running.nodes[k].startTime == old(running.nodes[if k < i then k else k + 1].startTime)
        {
          assert Same(running.nodes[k]);
        }
      } else {
        forall k | 0 <= k < |running.nodes| ensures running.nodes[k].startTime == old(running.nodes[k].startTime) {
          assert Same(running.nodes[k]);
        }
      }
    }

    /** The node goes to the pool. */
    method Recycle(n: Node)
      requires Inv() && n !in NodeSet()
      modifies `free, n`files, n`prev, n`next
      ensures Inv() && free == old(free) + [n] && Waiting() == old(Waiting()) && Out() == old(Out())
    {
      hide NodeList.Valid, ReportsOk, Collected, PhasesOk, TimesOk, TasksOk, Owned, TaskOf, TasksOf;
      n.files := [];
      n.prev, n.next := null, null;
      free := free + [n];
    }

    // ---------- Handing out ----------

    /** The node has become the last of those that are out. */
    twostate predicate HandedOut()
      reads this, pending`nodes, running`nodes, pending.Members(), running.Members()
    {
      (&& pending.nodes == old(pending.nodes)
       && |running.nodes| == |old(running.nodes)| + 1 && running.nodes[..|old(running.nodes)|] == old(running.nodes)
       && mapDone == old(mapDone) && mapTask == old(mapTask) && reduceTask == old(reduceTask) && mapFiles == old(mapFiles)
       && generation == old(generation) && reduceGen == old(reduceGen) && reducesReady == old(reducesReady)
       && (forall n :: n in pending.nodes ==> Same(n)) && (forall n :: n in old(running.nodes) ==> Same(n))
       && var n := running.nodes[|old(running.nodes)|];
       && n.state == Running && n.startTime == clock && Owned(n) && TaskOf(n) in old(lost) && lost == old(lost) - {TaskOf(n)}) == true
    }

    twostate lemma HandedNodes()
      requires old(NodesOk())
      requires HandedOut()
      ensures NodesOk()
    {
      var x := running.nodes[|old(running.nodes)|];
      assert running.nodes == old(running.nodes) + [x];
      forall n | n in pending.nodes ensures Owned(n) && n.state == Pending {
        assert Same(n) && old(Owned(n));
      }
      forall m | m in old(running.nodes) ensures Owned(m) && m.state == Running {
        assert Same(m) && old(Owned(m));
      }
    }

    twostate lemma HandedTasks()
      requires old(TasksOk())
      requires HandedOut()
      ensures TasksOk()
    {
      var x := running.nodes[|old(running.nodes)|];
      assert running.nodes == old(running.nodes) + [x];
      forall f | f in files && f !in mapDone && MapOf(f) !in lost
        ensures f in mapTask && Active(mapTask[f]) && mapTask[f].kind == MapTask && mapTask[f].fileName == f
      {
        if MapOf(f) != TaskOf(x) {
          assert old(Active(mapTask[f]));
          assert Same(mapTask[f]);
        }
      }
      forall r | r in reduceTask && ReduceOf(r) !in lost
        ensures r < nReduce && Active(reduceTask[r]) && reduceTask[r].kind == ReduceTask && reduceTask[r].id == r
      {
        if ReduceOf(r) != TaskOf(x) {
          assert old(Active(reduceTask[r]));
          assert Same(reduceTask[r]);
        }
      }
      forall n | n in pending.nodes ensures TaskOf(n) !in lost {
        assert Same(n);
      }
      forall m | m in old(running.nodes) ensures TaskOf(m) !in lost {
        assert Same(m);
      }
    }

    twostate lemma HandedPhases()
      requires old(PhasesOk())
      requires !done && done == old(done) && reduced == old(reduced)
      requires HandedOut()
      ensures PhasesOk()
    {
    }

    twostate lemma HandedTimes()
      requires old(TimesOk())
      requires old(clock) <= clock
      requires HandedOut()
      ensures TimesOk()
    {
      var k := |old(running.nodes)|;
      forall i | 0 <= i < k ensures running.nodes[i].startTime == old(running.nodes[i].startTime) <= clock {
        assert running.nodes[i] == running.nodes[..k][i];
        assert Same(running.nodes[i]);
      }
    }

    twostate lemma Handed()
      requires old(Inv())
      requires ListsOk()
      requires !done && done == old(done) && reduced == old(reduced) && old(clock) <= clock && accepted == old(accepted)
      requires HandedOut()
      ensures Inv()
    {
      HandedNodes();
      HandedTasks();
      HandedPhases();
      HandedTimes();
    }

    /** A node that has left the waiting list is put at the end of those that are out. */
    method HandOut(n: Node, now: int)
      requires Inv() && TaskOf(n) in lost && n !in NodeSet() && Owned(n) && !done && clock <= now
      modifies `lost, `clock, running, n`state, n`startTime, n`prev, n`next, running.All()`prev, running.All()`next
      ensures Inv() && running.nodes == old(running.nodes) + [n] && pending.nodes == old(pending.nodes)
      ensures lost == old(lost) - {old(TaskOf(n))} && n.startTime == now == clock && TaskOf(n) == old(TaskOf(n)) && n.files == old(n.files)
      ensures forall m :: m in pending.nodes || m in old(running.nodes) ==> Same(m)
      ensures NodeSet() == old(NodeSet()) + {n}
    {
      hide Inv, ListsOk, Owned, TaskOf, NodeSet, NodeList.All;
      InvLists();
      n.state := Running;
      n.startTime := now;
      clock := now;
      PushRunning(n);
      lost := lost - {TaskOf(n)};
      Handed();
    }

    // ---------- The operations ----------

    /** `MakeCoordinator`: one waiting node for each input, in order. */
    constructor (files: seq<string>, nReduce: nat)
      requires Distinct(files)
      ensures Valid() && this.files == files && this.nReduce == nReduce && !done && accepted == [] && reduced == {} && clock == 0
      ensures fresh(pending) && fresh(running) && fresh(NodeSet())
      ensures Waiting() == AllMaps() && Out() == []
    {
      this.files, this.nReduce := files, nReduce;
      mapDone, mapTask, reduceTask, mapFiles, generation, reduceGen := {}, map[], map[], map[], map[], map[];
      reducesReady, done, free := false, false, [];
      hide Inv, Valid, Waiting, Out, AllMaps;
      var waiting := new NodeList();
      var out := new NodeList();
      pending, running := waiting, out;
      accepted, reduced, clock, moved, movedAt, lost := [], {}, 0, null, 0, {};
      new;
      hide NodeList.Valid, NodeList.Chain, Distinct;
      Begin();
    }

    method Begin()
      requires pending.Valid() && running.Valid() && pending != running && pending.All() !! running.All()
      requires pending.nodes == running.nodes == [] && free == [] && Distinct(files) && mapDone == {} && reduced == {}
      requires mapTask == map[] && reduceTask == map[] && mapFiles == map[] && !reducesReady && !done && accepted == []
      modifies `moved, `movedAt, `lost, `mapTask, `reduceTask, `free, `generation, `reduceGen, pending, NodeSet()
      ensures Valid() && Waiting() == AllMaps() && Out() == []
      ensures forall m :: m in NodeSet() ==> m in old(NodeSet()) || fresh(m)
    {
      hide Inv, NodeList.Valid, MapsFrom, Waiting, Out, Distinct, AllMaps, NodeSet;
      lost := MapsFrom(0);
      Started();
      PostMaps();
    }

    ghost function MapsFrom(i: nat): set<Task> {
      set j | i <= j < |files| :: MapOf(files[j])
    }

    lemma NextMap(i: nat)
      requires i < |files| && Distinct(files)
      ensures MapsFrom(i) - {MapOf(files[i])} == MapsFrom(i + 1) && MapOf(files[i]) in MapsFrom(i)
    {
    }

    ghost function AllMaps(): seq<Task> {
      seq(|files|, i requires 0 <= i < |files| => MapOf(files[i]))
    }

    method PostMaps()
      requires Inv() && lost == MapsFrom(0) && Distinct(files) && Waiting() == [] && mapDone == {} && !reducesReady && !done
      modifies `moved, `movedAt, `lost, `mapTask, `reduceTask, `free, `generation, `reduceGen, pending, NodeSet()
      ensures Valid() && Waiting() == AllMaps() && Out() == old(Out())
      ensures forall m :: m in NodeSet() ==> m in old(NodeSet()) || fresh(m)
    {
      hide Inv, MapsFrom, Distinct, Waiting, Out, NodeSet;
      for i := 0 to |files|
        invariant Inv() && lost == MapsFrom(i) && Waiting() == AllMaps()[..i] && Out() == old(Out())
        invariant forall m :: m in NodeSet() ==> m in old(NodeSet()) || fresh(m)
      {
        NextMap(i);
        Enqueue(MapOf(files[i]), []);
      }
      NoMoreMaps();
    }

    lemma NoMoreMaps()
      ensures MapsFrom(|files|) == {}
    {
    }

    lemma Started()
      requires pending.Valid() && running.Valid() && pending != running && pending.All() !! running.All()
      requires pending.nodes == running.nodes == [] && free == [] && Distinct(files) && mapDone == {} && reduced == {}
      requires mapTask == map[] && reduceTask == map[] && mapFiles == map[] && !reducesReady && !done && accepted == []
      requires lost == MapsFrom(0)
      ensures Inv() && Waiting() == Out() == []
    {
    }

    /** Whoever owns a node may get a fresh one. */
    lemma MayRequeue(n: Node)
      requires Inv() && Owned(n) && !done
      ensures MayEnqueue(TaskOf(n), if n.kind == MapTask then [] else n.files)
    {
    }

    lemma NotDone()
      requires Inv() && (running.nodes != [] || pending.nodes != [])
      ensures !done
    {
    }

    /** The task that has been out longest waits again, with a fresh node in a new generation. */
    method Requeue(n: Node)
      requires Inv() && |running.nodes| > 0 && n == running.nodes[0]
      modifies `moved, `movedAt, `lost, `mapTask, `reduceTask, `free, `generation, `reduceGen, pending, running, NodeSet()
      ensures Inv() && lost == old(lost) && running.nodes == old(running.nodes)[1..]
      ensures |pending.nodes| == |old(pending.nodes)| + 1 && pending.nodes[..|old(pending.nodes)|] == old(pending.nodes)
      ensures TaskOf(pending.nodes[|old(pending.nodes)|]) == old(TaskOf(n))
      ensures Waiting() == old(Waiting()) + [old(TaskOf(n))] && Out() == old(Out())[1..]
      ensures forall m :: m in old(pending.nodes) || m in running.nodes ==> Same(m)
      ensures forall m :: m in NodeSet() ==> m in old(NodeSet()) || fresh(m)
    {
      hide Inv, ListsOk, Owned, Waiting, Out, TaskOf;
      NotDone();
      var t := TaskOf(n);
      var fs := if n.kind == MapTask then [] else n.files;
      FreshTask(n);
      DetachRunning(n, 0);
      MayRequeue(n);
      Enqueue(t, fs);
      Recycle(n);
      assert old(running.nodes)[..0] + old(running.nodes)[1..] == old(running.nodes)[1..];
      NewTasks();
    }

    /** One more task waits, and one fewer is out. */
    twostate lemma NewTasks()
      requires |pending.nodes| == |old(pending.nodes)| + 1 && pending.nodes[..|old(pending.nodes)|] == old(pending.nodes)
      requires |old(running.nodes)| > 0 && running.nodes == old(running.nodes)[1..]
      requires forall m :: m in old(pending.nodes) || m in running.nodes ==> Same(m)
      ensures Waiting() == old(Waiting()) + [TaskOf(pending.nodes[|old(pending.nodes)|])] && Out() == old(Out())[1..]
    {
      forall i | 0 <= i < |old(pending.nodes)| ensures TaskOf(pending.nodes[i]) == old(TaskOf(pending.nodes[i])) {
        assert pending.nodes[i] == pending.nodes[..|old(pending.nodes)|][i];
        assert Same(pending.nodes[i]);
      }
      forall j | 0 <= j < |running.nodes| ensures TaskOf(running.nodes[j]) == old(TaskOf(running.nodes[j + 1])) {
        assert Same(running.nodes[j]);
      }
    }

    lemma FreshTask(n: Node)
      requires Inv() && n in running.nodes
      ensures TaskOf(n) !in lost && n in NodeSet()
    {
      running.InAll(n);
    }

    // ---------- Timeouts ----------

    /** The first node of the list of tasks that are out, and the one after it. */
    lemma First()
      requires Inv()
      ensures running.head.next == if running.nodes == [] then running.tail else running.nodes[0]
      ensures running.nodes != [] ==> running.nodes[0] != running.tail && running.nodes[0].next == if |running.nodes| == 1 then running.tail else running.nodes[1]
    {
      var c := running.Chain();
      assert ListsOk();
      assert c[0].next == c[1];
      if running.nodes != [] {
        assert c[1].next == c[2] && c[1] != c[|c| - 1];
      }
    }

    /** Tasks are out in the order of their start times. */
    lemma InOrder()
      requires Inv()
      ensures |Since()| == |Out()| == |running.nodes|
      ensures running.nodes != [] ==> Since()[0] == running.nodes[0].startTime
      ensures forall i, j :: 0 <= i < j < |Since()| ==> Since()[i] <= Since()[j]
    {
      assert TimesOk();
    }

    /** Requeues the first node if it has expired. */
    method RequeueExpired(n: Node, now: int)
      requires Inv() && |running.nodes| > 0 && n == running.nodes[0] && now - n.startTime >= TASK_TIMEOUT
      modifies `moved, `movedAt, `lost, `mapTask, `reduceTask, `free, `generation, `reduceGen, pending, running, NodeSet()
      ensures Inv() && lost == old(lost) && Waiting() == old(Waiting()) + [old(Out())[0]]
      ensures running.nodes == old(running.nodes)[1..] && Out() == old(Out())[1..] && Since() == old(Since())[1..]
      ensures forall m :: m in NodeSet() ==> m in old(NodeSet()) || fresh(m)
    {
      hide Inv, Waiting, NodeSet;
      Requeue(n);
      forall j | 0 <= j < |running.nodes| ensures Since()[j] == old(Since())[j + 1] {
        assert Same(running.nodes[j]);
      }
    }

    /**
     Requeues the tasks that have been out for too long, and no others. It stops at the first one
     that has not, and yet leaves none behind.
     */
    method CheckTimeout(now: int) returns (ghost k: nat)
      requires Valid()
      modifies `moved, `movedAt, `lost, `mapTask, `reduceTask, `free, `generation, `reduceGen, pending, running, NodeSet()
      ensures Valid() && k <= |old(Out())|
      ensures Waiting() == old(Waiting()) + old(Out())[..k] && Out() == old(Out())[k..] && Since() == old(Since())[k..]
      ensures forall j :: 0 <= j < |old(Since())| ==> (now - old(Since())[j] >= TASK_TIMEOUT <==> j < k)
      ensures forall m :: m in NodeSet() ==> m in old(NodeSet()) || fresh(m)
    {
      hide Inv, Waiting, Out, Since, NodeSet;
      k := 0;
      First();
      InOrder();
      ghost var w, o, since := Waiting(), Out(), Since();
      var n := running.head.next;
      while n != running.tail
        invariant Inv() && lost == {} && k <= |since| == |o|
        invariant n == if running.nodes == [] then running.tail else running.nodes[0]
        invariant Waiting() == w + o[..k] && Out() == o[k..] && Since() == since[k..]
        invariant forall j :: 0 <= j < k ==> now - since[j] >= TASK_TIMEOUT
        invariant forall m :: m in NodeSet() ==> m in old(NodeSet()) || fresh(m)
        decreases |running.nodes|
      {
        First();
        InOrder();
        if now - n.startTime < TASK_TIMEOUT {
          break;
        }
        var next := n.next;
        RequeueExpired(n, now);
        k := k + 1;
        First();
        n := next;
      }
      First();
      InOrder();
    }

    // ---------- Reports ----------

    /** Where in `running` the task's node is. */
    ghost function Place(t: Task): nat
      requires t in Out()
      reads running`nodes, running.Members()`kind, running.Members()`id, running.Members()`fileName
      ensures Place(t) < |running.nodes| && TaskOf(running.nodes[Place(t)]) == t
    {
      var i :| 0 <= i < |Out()| && Out()[i] == t;
      i
    }

    lemma IsMember(t: Task)
      requires t in Out()
      ensures running.nodes[Place(t)] in running.Members()
    {
    }

    /** A map report is accepted exactly when its task is out, whoever it was given to. */
    lemma MapIsOut(f: string)
      requires Valid()
      ensures MapOf(f) in Out() <==>
                && f !in mapDone && f in mapTask && mapTask[f].state == Running
                && mapTask[f].generation == CountOf(generation, f)
      ensures MapOf(f) in Out() ==> mapTask[f] == running.nodes[Place(MapOf(f))] && !reducesReady && f in files && !done
    {
      hide ListsOk, ReportsOk;
      if MapOf(f) in Out() {
        assert Owned(running.nodes[Place(MapOf(f))]);
      } else if f !in mapDone && f in mapTask {
        var n := mapTask[f];
        assert Active(n) && TaskOf(n) == MapOf(f);
      }
    }

    lemma ReduceIsOut(r: nat)
      requires Valid()
      ensures ReduceOf(r) in Out() <==>
                && r in reduceTask && reduceTask[r].state == Running
                && reduceTask[r].generation == CountOf(reduceGen, r)
      ensures ReduceOf(r) in Out() ==> reduceTask[r] == running.nodes[Place(ReduceOf(r))] && reducesReady && r < nReduce && !done
    {
      hide ListsOk, ReportsOk;
      if ReduceOf(r) in Out() {
        assert Owned(running.nodes[Place(ReduceOf(r))]);
      } else if r in reduceTask {
        var n := reduceTask[r];
        assert Active(n) && TaskOf(n) == ReduceOf(r);
      }
    }

    /** A node has left the list of tasks that are out. */
    twostate lemma Left()
      requires movedAt < |old(running.nodes)| && pending.nodes == old(pending.nodes)
      requires running.nodes == old(running.nodes)[..movedAt] + old(running.nodes)[movedAt + 1..]
      requires forall m :: m in pending.nodes || m in running.nodes ==> Same(m)
      ensures Waiting() == old(Waiting()) && |old(Out())| == |old(running.nodes)|
      ensures Out() == old(Out())[..movedAt] + old(Out())[movedAt + 1..]
    {
      var i := movedAt;
      forall j | 0 <= j < |running.nodes|
        ensures TaskOf(running.nodes[j]) == old(TaskOf(running.nodes[if j < i then j else j + 1]))
      {
        assert Same(running.nodes[j]);
      }
      forall k | 0 <= k < |pending.nodes| ensures TaskOf(pending.nodes[k]) == old(TaskOf(pending.nodes[k])) {
        assert Same(pending.nodes[k]);
      }
    }

    /** The node has gone to the pool. */
    twostate lemma Pooled(n: Node)
      requires free == old(free) + [n] && pending.nodes == old(pending.nodes) && running.nodes == old(running.nodes)
      ensures NodeSet() == old(NodeSet()) + {n}
    {
    }

    /** The task leaves the list of those that are out, and its node goes to the pool. */
    method Release(n: Node, ghost t: Task)
      requires Inv() && t in Out() && n == running.nodes[Place(t)] && !done
      modifies `moved, `movedAt, `lost, `free, running, running.All()`prev, running.All()`next, n`files
      ensures Inv() && lost == old(lost) + {t} && Waiting() == old(Waiting())
      ensures Out() == old(Out()[..Place(t)] + Out()[Place(t) + 1..])
      ensures NodeSet() <= old(NodeSet())
    {
      hide Inv, ListsOk, Owned, Waiting, Out, NodeSet, Same;
      ghost var i := Place(t);
      FreshTask(n);
      DetachRunning(n, i);
      Left();
      label Detached:
      Recycle(n);
      Pooled@Detached(n);
    }

    /** Each partition gets the file that the map wrote for it, if it wrote one. */
    method Collect(report: MapReport)
      modifies `mapFiles
      ensures forall r: nat :: FilesFor(mapFiles, r) == FilesFor(old(mapFiles), r) + FileFor(report, r)
    {
      var outputs := report.outputs;
      for r := 0 to |outputs|
        invariant forall q: nat :: FilesFor(mapFiles, q)
                    == FilesFor(old(mapFiles), q) + if q < r then FileFor(report, q) else []
      {
        if outputs[r] != "" {
          mapFiles := mapFiles[r := FilesFor(mapFiles, r) + [outputs[r]]];
        }
      }
    }

    /** What accepting a map report changes, once its node is gone. */
    twostate predicate MapAccepted(report: MapReport)
      reads this, pending`nodes, running`nodes
    {
      (&& pending.nodes == old(pending.nodes) && running.nodes == old(running.nodes)
       && mapDone == old(mapDone) + {report.file} && accepted == old(accepted) + [report] && lost == {}
       && mapTask == old(mapTask) && reduceTask == old(reduceTask) && generation == old(generation)
       && reduceGen == old(reduceGen) && reducesReady == old(reducesReady) && done == old(done)
       && reduced == old(reduced) && clock == old(clock) && free == old(free)
       && forall r: nat :: FilesFor(mapFiles, r)
            == FilesFor(old(mapFiles), r) + FileFor(report, r)) == true
    }

    twostate lemma AcceptedMap(report: MapReport)
      requires old(Inv())
      requires old(lost) == {MapOf(report.file)} && !reducesReady && !done
      requires report.file in files && report.file !in old(mapDone)
      requires ListsOk()
      requires AllSame()
      requires MapAccepted(report)
      ensures Valid()
    {
      hide ListsOk, Collected;
      BookOne(old(accepted), old(mapDone), old(mapFiles), report, mapFiles);
      forall n | Active(n) ensures Owned(n) && n.state == old(n.state) && TaskOf(n) !in old(lost) {
        assert Same(n) && old(Owned(n));
      }
      assert TasksOk();
      TimesStay();
    }

    /** Books an accepted report. */
    method Accept(report: MapReport)
      requires Inv() && lost == {MapOf(report.file)} && !reducesReady && !done && report.file in files && report.file !in mapDone
      modifies `mapDone, `mapFiles, `accepted, `lost
      ensures Valid() && mapDone == old(mapDone) + {report.file} && accepted == old(accepted) + [report]
      ensures Waiting() == old(Waiting()) && Out() == old(Out())
    {
      hide Inv, ListsOk;
      InvLists();
      mapDone := mapDone + {report.file};
      assert ListsOk();
      label L:
      Collect(report);
      assert pending.All() == old@L(pending.All()) && running.All() == old@L(running.All());
      assert ListsOk();
      accepted := accepted + [report];
      lost := {};
      assert ListsOk();
      AcceptedMap(report);
    }

    /**
     A map report is accepted if and only if its task is out; then the task is done, once, and its
     files have joined the partitions. Any other report changes nothing.
     */
    method ReportMap(report: MapReport)
      requires Valid()
      modifies `mapDone, `mapFiles, `accepted, `moved, `movedAt, `lost, `free, running, running.All()`prev, running.All()`next, running.Members()`files
      ensures Valid() && Waiting() == old(Waiting())
      ensures if MapOf(report.file) in old(Out())
              then var i := old(Place(MapOf(report.file)));
                   && accepted == old(accepted) + [report] && mapDone == old(mapDone) + {report.file}
                   && Out() == old(Out())[..i] + old(Out())[i + 1..]
              else accepted == old(accepted) && mapDone == old(mapDone) && mapFiles == old(mapFiles) && Out() == old(Out())
      ensures NodeSet() <= old(NodeSet())
    {
      hide Inv, ListsOk, Waiting, Out, NodeSet, TaskOf, NodeList.All;
      MapIsOut(report.file);
      if report.file in mapDone || report.file !in mapTask {
        return;
      }
      var n := mapTask[report.file];
      if n.state != Running || n.generation != CountOf(generation, report.file) {
        return;
      }
      IsMember(MapOf(report.file));
      Release(n, MapOf(report.file));
      Accept(report);
    }

    twostate lemma AcceptedReduce(id: nat)
      requires old(Inv())
      requires old(lost) == {ReduceOf(id)} && reducesReady && !done && id < nReduce
      requires ListsOk()
      requires AllSame()
      requires mapDone == old(mapDone) && mapTask == old(mapTask) && mapFiles == old(mapFiles) && generation == old(generation)
      requires reduceGen == old(reduceGen) && reducesReady == old(reducesReady) && done == old(done) && accepted == old(accepted)
      requires clock == old(clock) && reduceTask == old(reduceTask) - {id} && reduced == old(reduced) + {id} && lost == {}
      ensures Valid()
    {
      hide ListsOk, Collected, ReportsOk;
      forall n | Active(n) ensures Owned(n) && n.state == old(n.state) && TaskOf(n) !in old(lost) {
        assert Same(n) && old(Owned(n));
      }
      assert TasksOk();
      TimesStay();
    }

    /** A reduce report is accepted if and only if its task is out. */
    method ReportReduce(id: nat)
      requires Valid()
      modifies `reduceTask, `reduced, `moved, `movedAt, `lost, `free, running, running.All()`prev, running.All()`next, running.Members()`files
      ensures Valid() && Waiting() == old(Waiting())
      ensures if ReduceOf(id) in old(Out())
              then var i := old(Place(ReduceOf(id)));
                   && reduced == old(reduced) + {id} && id !in old(reduced)
                   && Out() == old(Out())[..i] + old(Out())[i + 1..]
              else reduced == old(reduced) && reduceTask == old(reduceTask) && Out() == old(Out())
      ensures NodeSet() <= old(NodeSet())
    {
      hide Inv, ListsOk, Waiting, Out, NodeSet, TaskOf, NodeList.All;
      ReduceIsOut(id);
      if id !in reduceTask {
        return;
      }
      var n := reduceTask[id];
      if n.state != Running || n.generation != CountOf(reduceGen, id) {
        return;
      }
      IsMember(ReduceOf(id));
      Release(n, ReduceOf(id));
      AcceptReduce(id);
    }

    lemma LostIsOpen(id: nat)
      requires Inv() && ReduceOf(id) in lost && reducesReady && id < nReduce
      ensures id !in reduced
    {
      assert PhasesOk();
    }

    method AcceptReduce(id: nat)
      requires Inv() && lost == {ReduceOf(id)} && reducesReady && !done && id < nReduce
      modifies `reduceTask, `reduced, `lost
      ensures Valid() && reduced == old(reduced) + {id} && id !in old(reduced)
      ensures Waiting() == old(Waiting()) && Out() == old(Out())
    {
      hide Inv, ListsOk;
      InvLists();
      LostIsOpen(id);
      reduceTask := reduceTask - {id};
      reduced := reduced + {id};
      lost := {};
      AcceptedReduce(id);
    }

    // ---------- Handing out ----------

    lemma AllInside(s: set<string>, n: nat)
      requires n <= |files| && Distinct(files) && s <= SetOf(files[..n])
      ensures |s| <= n && (|s| == n <==> s == SetOf(files[..n]))
      decreases n
    {
      if n > 0 {
        var f := files[n - 1];
        assert files[..n] == files[..n - 1] + [f];
        assert f !in files[..n - 1];
        AllInside(s - {f}, n - 1);
        assert f in s ==> s == (s - {f}) + {f};
      } else {
        assert s == {};
      }
    }

    /** The count of finished maps is full exactly when every map is finished. */
    lemma MapsCounted()
      requires Valid()
      ensures |mapDone| == |files| <==> forall f :: f in files ==> f in mapDone
    {
      assert PhasesOk();
      assert files[..|files|] == files;
      AllInside(mapDone, |files|);
    }

    /** In the reduce phase the lists are empty exactly when every reduce has been accepted. */
    lemma ReducesCounted()
      requires Valid() && reducesReady
      ensures pending.nodes == running.nodes == [] <==> forall r: nat :: r < nReduce ==> r in reduced
    {
      if pending.nodes == running.nodes == [] {
        forall r: nat | r < nReduce ensures r in reduced {
          assert r in reduceTask ==> Active(reduceTask[r]);
        }
      } else {
        var n := if pending.nodes != [] then pending.nodes[0] else running.nodes[0];
        assert Active(n) && Owned(n);
      }
    }

    ghost function ReducesFrom(i: nat): set<Task> {
      set r | i <= r < nReduce :: ReduceOf(r)
    }

    ghost function AllReduces(): seq<Task> {
      seq(nReduce, (r: nat) => ReduceOf(r))
    }

    lemma NextReduce(i: nat)
      requires i < nReduce
      ensures ReducesFrom(i) - {ReduceOf(i)} == ReducesFrom(i + 1) && ReduceOf(i) in ReducesFrom(i)
    {
    }

    lemma NoMoreReduces()
      ensures ReducesFrom(nReduce) == {}
    {
    }

    lemma NothingLeft()
      requires Valid() && !reducesReady && forall f :: f in files ==> f in mapDone
      ensures Waiting() == Out() == [] && Since() == [] && !done && reduced == {}
    {
      assert pending.nodes != [] ==> Owned(pending.nodes[0]);
      assert running.nodes != [] ==> Owned(running.nodes[0]);
    }

    twostate lemma Switched()
      requires old(Valid())
      requires old(Waiting()) == old(Out()) == [] && reducesReady && !done && lost == ReducesFrom(0)
      requires forall f :: f in files ==> f in mapDone
      requires ListsOk() && pending.nodes == old(pending.nodes) && running.nodes == old(running.nodes)
      requires mapDone == old(mapDone) && mapTask == old(mapTask) && reduceTask == old(reduceTask) && mapFiles == old(mapFiles)
      requires !old(reducesReady) && reduced == old(reduced) && accepted == old(accepted) && done == old(done) && clock == old(clock)
      ensures Inv()
    {
      hide ListsOk;
    }

    /** Queues every reduce task with the files that the maps have left for it. */
    method StartReducePhase()
      requires Valid() && !reducesReady && forall f :: f in files ==> f in mapDone
      modifies `reducesReady, `lost, `mapTask, `reduceTask, `free, `generation, `reduceGen, pending, NodeSet()
      ensures Valid() && reducesReady && Waiting() == AllReduces() && !done
      ensures Out() == old(Out()) == [] && Since() == old(Since()) == []
      ensures forall m :: m in NodeSet() ==> m in old(NodeSet()) || fresh(m)
    {
      hide Inv, ListsOk, ReducesFrom, Waiting, Out, Since, NodeSet;
      NothingLeft();
      InvLists();
      reducesReady := true;
      lost := ReducesFrom(0);
      Switched();
      for r := 0 to nReduce
        invariant Inv() && reducesReady && lost == ReducesFrom(r) && Waiting() == AllReduces()[..r] && Out() == []
        invariant forall m :: m in NodeSet() ==> m in old(NodeSet()) || fresh(m)
      {
        NextReduce(r);
        Enqueue(ReduceOf(r), FilesFor(mapFiles, r));
      }
      NoMoreReduces();
      InOrder();
    }

    lemma FirstWaiting()
      requires Inv() && pending.nodes != []
      ensures pending.head.next == pending.nodes[0] && TaskOf(pending.nodes[0]) !in lost && pending.nodes[0] in NodeSet() && !done
      ensures |Waiting()| == |pending.nodes| && Waiting()[0] == TaskOf(pending.nodes[0])
    {
      var c := pending.Chain();
      assert ListsOk();
      assert c[0].next == c[1];
      pending.InAll(pending.nodes[0]);
    }

    lemma FilesAre(n: Node)
      requires Inv() && Owned(n) && n.kind == ReduceTask
      ensures n.files == Collected(accepted, n.id) && n.id < nReduce
    {
      assert ReportsOk();
    }

    lemma OutIsOwned(n: Node)
      requires Inv() && n in running.nodes
      ensures Owned(n)
    {
    }

    /** The first node of one list has become the last of the other. */
    twostate lemma HeadMoved()
      requires |old(pending.nodes)| > 0 && pending.nodes == old(pending.nodes)[1..]
      requires running.nodes == old(running.nodes) + [old(pending.nodes)[0]]
      requires forall m :: m in pending.nodes || m in old(running.nodes) ==> Same(m)
      requires TaskOf(old(pending.nodes)[0]) == old(TaskOf(pending.nodes[0])) && old(pending.nodes)[0].startTime == clock
      ensures Waiting() == old(Waiting())[1..] && Out() == old(Out()) + [old(Waiting())[0]] && Since() == old(Since()) + [clock]
    {
      forall i | 0 <= i < |pending.nodes| ensures TaskOf(pending.nodes[i]) == old(TaskOf(pending.nodes[i + 1])) {
        assert Same(pending.nodes[i]);
      }
      forall j | 0 <= j < |old(running.nodes)|
        ensures TaskOf(running.nodes[j]) == old(TaskOf(running.nodes[j])) && running.nodes[j].startTime == old(running.nodes[j].startTime)
      {
        assert Same(running.nodes[j]);
      }
    }

    /** The first waiting task goes out. */
    method MoveFirst(n: Node, now: int)
      requires Valid() && |pending.nodes| > 0 && n == pending.nodes[0] && clock <= now
      modifies `moved, `movedAt, `lost, `clock, pending, running, pending.All(), running.All()
      ensures Valid() && Waiting() == old(Waiting())[1..] && Out() == old(Out()) + [old(Waiting())[0]] && Since() == old(Since()) + [now]
      ensures n in running.nodes && TaskOf(n) == old(Waiting())[0] && clock == now
      ensures NodeSet() <= old(NodeSet())
    {
      hide Inv, ListsOk, Owned, Waiting, Out, Since, TaskOf, NodeSet;
      FirstWaiting();
      DetachWaiting(n, 0);
      HandOut(n, now);
      HeadMoved();
    }

    /** The first waiting task goes out, to whoever asked. */
    method HandFirst(now: int) returns (a: Assignment)
      requires Valid() && |pending.nodes| > 0 && clock <= now
      modifies `moved, `movedAt, `lost, `clock, pending, running, NodeSet()
      ensures Valid() && Waiting() == old(Waiting())[1..] && Out() == old(Out()) + [old(Waiting())[0]] && Since() == old(Since()) + [now]
      ensures match old(Waiting())[0]
              case MapOf(f) => a == DoMap(f)
              case ReduceOf(r) => a == DoReduce(r, Collected(accepted, r))
      ensures clock == now
      ensures NodeSet() <= old(NodeSet())
    {
      hide Inv, ListsOk, Owned, Waiting, Out, Since;
      FirstWaiting();
      var n := pending.head.next;
      MoveFirst(n, now);
      OutIsOwned(n);
      if n.kind == MapTask {
        a := DoMap(n.fileName);
      } else {
        FilesAre(n);
        a := DoReduce(n.id, n.files);
      }
    }

    /** The job is over: both lists are empty in the reduce phase. */
    method Finish()
      requires Valid() && reducesReady && pending.nodes == running.nodes == []
      modifies `done
      ensures Valid() && done && Waiting() == Out() == []
    {
      hide ListsOk, NodesOk, TasksOk, ReportsOk, TimesOk;
      done := true;
    }

    lemma Sizes()
      requires Inv()
      ensures pending.size == |pending.nodes| == |Waiting()| && running.size == |running.nodes| == |Out()|
    {
      assert ListsOk();
    }

    /** All maps are done and all reduces too. */
    ghost predicate AllAccepted()
      reads `mapDone, `reduced
    {
      (forall f :: f in files ==> f in mapDone) && forall r: nat :: r < nReduce ==> r in reduced
    }

    /** The tasks that wait once the reduce phase has begun, if it is time. */
    ghost function Ready(): seq<Task>
      reads `mapDone, `reducesReady, pending`nodes, pending.Members()`kind, pending.Members()`id, pending.Members()`fileName
    {
      if !reducesReady && forall f :: f in files ==> f in mapDone then AllReduces() else Waiting()
    }

    /**
     Answers a worker: exit exactly when everything has been accepted, else the task that has
     waited longest, with its files, else wait. Reduces are handed out only after all maps are done.
     */
    method GetTask(now: int) returns (a: Assignment)
      requires Valid() && clock <= now
      modifies `reducesReady, `done, `moved, `movedAt, `lost, `clock, `mapTask, `reduceTask, `free, `generation, `reduceGen, pending, running, NodeSet()
      ensures Valid() && (reducesReady <==> forall f :: f in files ==> f in mapDone)
      ensures a.Exit? <==> AllAccepted()
      ensures a.Exit? ==> done
      ensures (!a.Exit? ==> done == old(done)) && clock <= now
      ensures a.Wait? <==> old(Ready()) == [] && !AllAccepted()
      ensures a.Exit? || a.Wait? ==> Waiting() == old(Ready()) == [] && Out() == old(Out())
      ensures a.DoMap? || a.DoReduce? ==>
                && Waiting() == old(Ready())[1..] && Out() == old(Out()) + [old(Ready())[0]] && Since() == old(Since()) + [now]
                && a == match old(Ready())[0]
                        case MapOf(f) => DoMap(f)
                        case ReduceOf(r) => DoReduce(r, Collected(accepted, r))
      ensures forall m :: m in NodeSet() ==> m in old(NodeSet()) || fresh(m)
    {
      hide Inv, Waiting, Out, Since, NodeSet;
      MapsCounted();
      ReadyMeans();
      if !reducesReady && |mapDone| == |files| {
        StartReducePhase();
      }
      Sizes();
      if reducesReady {
        ReducesCounted();
      }
      if reducesReady && pending.Empty() && running.Empty() {
        assert Waiting() == Out() == [];
        Finish();
        return Exit;
      }
      if pending.Empty() {
        assert Waiting() == [];
        return Wait;
      }
      assert Waiting() == old(Ready());
      a := HandFirst(now);
    }

    lemma ReadyMeans()
      requires Valid()
      ensures reducesReady ==> forall f :: f in files ==> f in mapDone
    {
      assert PhasesOk();
    }

    method Done() returns (r: bool)
      requires Valid()
      ensures r ==> AllAccepted()
    {
      r := done;
      if done {
        ReadyMeans();
        DoneMeansAll();
        assert PhasesOk();
      }
    }
  }
}
