/** The coordinator's task nodes and its doubly linked lists of them. */
module TaskList {

  datatype Kind = MapTask | ReduceTask

  datatype State = Pending | Running

  class Node {
    var prev: Node?
    var next: Node?
    var kind: Kind
    var id: nat
    var fileName: string
    var files: seq<string>
    var startTime: int
    var state: State
    var generation: nat

    constructor ()
      ensures prev == next == null
    {
      prev, next := null, null;
      kind, id, fileName, files, startTime, state, generation := MapTask, 0, [], [], 0, Pending, 0;
    }
  }

  ghost predicate Distinct<T>(s: seq<T>) {
    forall i, j :: 0 <= i < j < |s| ==> s[i] != s[j]
  }

  lemma DistinctWithout<T>(s: seq<T>, i: nat)
    requires Distinct(s) && i < |s|
    ensures Distinct(s[..i] + s[i + 1..]) && s[i] !in s[..i] + s[i + 1..]
  {
  }

  lemma {:induction false} CountDistinct<T>(s: seq<T>, x: T)
    requires Distinct(s)
    ensures multiset(s)[x] == if x in s then 1 else 0
  {
    if s != [] {
      var n := |s| - 1;
      assert s == s[..n] + [s[n]];
      CountDistinct(s[..n], x);
    }
  }

  ghost function SetOf<T>(s: seq<T>): set<T> {
    set x | x in s
  }

  lemma SetWithout<T>(s: seq<T>, i: nat)
    requires Distinct(s) && i < |s|
    ensures SetOf(s[..i] + s[i + 1..]) == SetOf(s) - {s[i]}
  {
    DistinctWithout(s, i);
    assert s == s[..i] + [s[i]] + s[i + 1..];
  }

  lemma SetWithoutInner<T>(s: seq<T>, h: T, t: T, i: nat)
    requires Distinct([h] + s + [t]) && i < |s|
    ensures SetOf(s[..i] + s[i + 1..]) == SetOf(s) - {s[i]}
  {
    var c := [h] + s + [t];
    forall j, k | 0 <= j < k < |s| ensures s[j] != s[k] {
      assert c[j + 1] != c[k + 1];
    }
    SetWithout(s, i);
  }

  lemma ChainWithout<T>(h: T, s: seq<T>, t: T, i: nat)
    requires i < |s|
    ensures var c := [h] + s + [t]; [h] + (s[..i] + s[i + 1..]) + [t] == c[..i + 1] + c[i + 2..]
  {
  }

  lemma DistinctMore<T>(s: seq<T>, last: T, x: T)
    requires Distinct(s + [last]) && x !in s + [last]
    ensures Distinct(s + [x] + [last])
  {
    forall i | 0 <= i < |s| ensures s[i] != last {
      assert (s + [last])[i] != (s + [last])[|s|];
    }
    assert forall i, j :: 0 <= i < j < |s| ==> (s + [last])[i] == s[i] && (s + [last])[j] == s[j];
  }

  /** Consecutive nodes point at each other. */
  ghost predicate Linked(c: seq<Node>)
    reads (set n | n in c)`prev, (set n | n in c)`next
  {
    forall i :: 0 <= i < |c| - 1 ==> c[i].next == c[i + 1] && c[i + 1].prev == c[i]
  }

  /** A doubly linked list between two sentinels. `nodes` is what it contains, in order. */
  class NodeList {
    const head: Node
    const tail: Node
    var size: nat
    ghost var nodes: seq<Node>

    ghost function Chain(): seq<Node>
      reads `nodes
    {
      [head] + nodes + [tail]
    }

    ghost function All(): set<Node>
      reads `nodes
    {
      SetOf(Chain())
    }

    lemma InAll(n: Node)
      requires n in nodes
      ensures n in All()
    {
    }

    ghost function Members(): set<Node>
      reads `nodes
    {
      SetOf(nodes)
    }

    ghost predicate Valid()
      reads this, All()`prev, All()`next
    {
      size == |nodes| && Distinct(Chain()) && Linked(Chain())
    }

    constructor ()
      ensures Valid() && nodes == [] && fresh(All())
    {
      var h := new Node();
      var t := new Node();
      head, tail, size, nodes := h, t, 0, [];
      new;
      head.next := tail;
      tail.prev := head;
    }

    predicate Empty()
      reads `size
    {
      size == 0
    }

    method PushBack(n: Node)
      requires Valid() && n !in Chain()
      modifies this, n`prev, n`next, All()`prev, All()`next
      ensures Valid() && nodes == old(nodes) + [n] && Members() == old(Members()) + {n} && All() == old(All()) + {n}
    {
      ghost var c := Chain();
      var last := tail.prev;
      Ends(c);
      assert c[|c| - 1] == tail && c[|c| - 2] == last;
      assert c[..|c| - 1] + [tail] == c;
      DistinctMore(c[..|c| - 1], tail, n);
      n.prev := last;
      n.next := tail;
      last.next := n;
      tail.prev := n;
      size := size + 1;
      nodes := nodes + [n];
      ghost var m := |c| - 1;
      assert Chain() == c[..m] + [n] + [tail];
      forall i | 0 <= i < m + 1
        ensures Chain()[i].next == Chain()[i + 1] && Chain()[i + 1].prev == Chain()[i]
      {
        if i < m - 1 {
          assert c[i] != c[m - 1] && c[i + 1] != c[m] && c[i] in c && c[i + 1] in c;
        }
      }
    }

    lemma Ends(c: seq<Node>)
      requires Valid() && c == Chain()
      ensures c[|c| - 2] == tail.prev && c[0].next == c[1]
    {
      assert c[|c| - 2].next == c[|c| - 2 + 1];
    }

    method Remove(n: Node, ghost i: nat)
      requires Valid() && i < |nodes| && nodes[i] == n
      modifies this, All()`prev, All()`next
      ensures Valid() && nodes == old(nodes[..i] + nodes[i + 1..]) && n.prev == n.next == null
      ensures Members() == old(Members()) - {n} && All() == old(All()) - {n}
    {
      ghost var c := Chain();
      assert c[i].next == c[i + 1] && c[i + 1].prev == c[i];
      assert c[i + 1].next == c[i + 2] && c[i + 2].prev == c[i + 1];
      n.prev.next := n.next;
      n.next.prev := n.prev;
      n.prev := null;
      n.next := null;
      size := size - 1;
      nodes := nodes[..i] + nodes[i + 1..];
      DistinctWithout(c, i + 1);
      assert nodes == old(nodes)[..i] + old(nodes)[i + 1..];
      ChainWithout(head, old(nodes), tail, i);
      SetWithout(c, i + 1);
      assert old(nodes)[i] == c[i + 1];
      SetWithoutInner(old(nodes), head, tail, i);
      forall j | 0 <= j < |c| - 2
        ensures Chain()[j].next == Chain()[j + 1] && Chain()[j + 1].prev == Chain()[j]
      {
        assert c[j] != c[i] || j == i;
        assert c[j] != c[i + 2] || j == i + 2;
        assert Chain()[j] == if j <= i then c[j] else c[j + 1];
        assert Chain()[j + 1] == if j + 1 <= i then c[j + 1] else c[j + 2];
        assert c[j + 1] in c && c[j + 2] in c && c[j] in c;
      }
    }
  }
}
