/** Intermediate records of MapReduce, their order, and the text format of intermediate files. */
module MrText {

  type Text = string

  datatype KeyValue = KeyValue(key: Text, value: Text)

  datatype Option<T> = None | Some(value: T)

  // ---------- Order of keys ----------

  /** Go's `<` on strings. */
  predicate Less(a: Text, b: Text) {
    if b == [] then false
    else if a == [] then true
    else if a[0] != b[0] then a[0] < b[0]
    else Less(a[1..], b[1..])
  }

  lemma {:induction false} LessTransitive(a: Text, b: Text, c: Text)
    requires Less(a, b) && Less(b, c)
    ensures Less(a, c)
  {
    if a != [] && a[0] == b[0] && b[0] == c[0] {
      LessTransitive(a[1..], b[1..], c[1..]);
    }
  }

  lemma {:induction false} LessTotal(a: Text, b: Text)
    ensures a == b || Less(a, b) || Less(b, a)
    ensures !(Less(a, b) && Less(b, a)) && !Less(a, a)
  {
    if a != [] && b != [] {
      LessTotal(a[1..], b[1..]);
      assert a == [a[0]] + a[1..] && b == [b[0]] + b[1..];
      LessTotal(a[1..], a[1..]);
    } else if a != [] {
      LessTotal(a[1..], a[1..]);
    }
  }

  /** No key is smaller than one before it. */
  ghost predicate Sorted(r: seq<KeyValue>) {
    forall i, j :: 0 <= i < j < |r| ==> !Less(r[j].key, r[i].key)
  }

  lemma NotLessTransitive(a: Text, b: Text, c: Text)
    requires !Less(b, a) && !Less(c, b)
    ensures !Less(c, a)
  {
    if Less(c, a) {
      LessTotal(a, b);
      if a != b {
        LessTransitive(c, a, b);
      }
    }
  }

  // ---------- Text format ----------

  /** `fmt.Fprintf(w, "%v %v\\n", key, value)`. */
  function Line(kv: KeyValue): Text {
    kv.key + " " + kv.value + "\n"
  }

  function Print(r: seq<KeyValue>): Text {
    if r == [] then [] else Line(r[0]) + Print(r[1..])
  }

  /** What the format can carry: keys without newlines, values without spaces and newlines. */
  predicate Clean(kv: KeyValue) {
    '\n' !in kv.key && '\n' !in kv.value && ' ' !in kv.value
  }

  /** Position of the first newline, or the length of the text. */
  function LineEnd(t: Text): (i: nat)
    ensures i <= |t| && (i < |t| ==> t[i] == '\n') && forall j :: 0 <= j < i ==> t[j] != '\n'
  {
    if t == [] || t[0] == '\n' then 0
    else LineEnd(t[1..]) + 1
  }

  function AfterLine(t: Text): (rest: Text)
    ensures t != [] ==> |rest| < |t|
  {
    if LineEnd(t) < |t| then t[LineEnd(t) + 1..] else []
  }

  /** Position of the last space, or -1. */
  function LastSpace(t: Text): (i: int)
    ensures -1 <= i < |t| && (i >= 0 ==> t[i] == ' ') && forall j :: i < j < |t| ==> t[j] != ' '
  {
    if t == [] then -1
    else if t[|t| - 1] == ' ' then |t| - 1
    else LastSpace(t[..|t| - 1])
  }

  /** `parseKV`: a line is split at its last space. */
  function Parse(line: Text): Option<KeyValue> {
    var i := LastSpace(line);
    if i < 0 then None else Some(KeyValue(line[..i], line[i + 1..]))
  }

  function FirstRecord(t: Text): seq<KeyValue> {
    match Parse(t[..LineEnd(t)])
    case None => []
    case Some(kv) => [kv]
  }

  /** The records of a text: its lines, parsed; lines without a space are skipped. */
  function Records(t: Text): seq<KeyValue>
    decreases |t|
  {
    if t == [] then [] else FirstRecord(t) + Records(AfterLine(t))
  }

  // ---------- Round trip ----------

  lemma LineParses(kv: KeyValue, t: Text)
    requires Clean(kv)
    ensures FirstRecord(Line(kv) + t) == [kv] && AfterLine(Line(kv) + t) == t
  {
    var line := kv.key + " " + kv.value;
    var all := Line(kv) + t;
    LineOfLine(kv, t);
    assert all[..|line|] == line && all[|line| + 1..] == t;
    assert line[|kv.key|] == ' ' && forall j :: |kv.key| < j < |line| ==> line[j] == kv.value[j - |kv.key| - 1];
    assert LastSpace(line) == |kv.key|;
    assert line[..|kv.key|] == kv.key && line[|kv.key| + 1..] == kv.value;
  }

  lemma LineOfLine(kv: KeyValue, t: Text)
    requires Clean(kv)
    ensures LineEnd(Line(kv) + t) == |kv.key| + 1 + |kv.value|
  {
    var all, n := Line(kv) + t, |kv.key| + 1 + |kv.value|;
    assert all[n] == '\n';
    forall j | 0 <= j < n ensures all[j] != '\n' {
      if j < |kv.key| {
        assert all[j] == kv.key[j];
      } else if j > |kv.key| {
        assert all[j] == kv.value[j - |kv.key| - 1];
      }
    }
  }

  /** Reading a printed file back gives the records that were printed. */
  lemma {:induction false} PrintParses(r: seq<KeyValue>)
    requires forall i :: 0 <= i < |r| ==> Clean(r[i])
    ensures Records(Print(r)) == r
  {
    if r != [] {
      LineParses(r[0], Print(r[1..]));
      PrintParses(r[1..]);
      assert r == [r[0]] + r[1..];
    }
  }

  lemma {:induction false} PrintAppend(a: seq<KeyValue>, b: seq<KeyValue>)
    ensures Print(a + b) == Print(a) + Print(b)
  {
    if a == [] {
      assert a + b == b;
    } else {
      assert (a + b)[1..] == a[1..] + b;
      PrintAppend(a[1..], b);
    }
  }

  /** The text ends with a complete line. */
  predicate Whole(t: Text) {
    t == [] || t[|t| - 1] == '\n'
  }

  lemma FirstLineAppend(a: Text, b: Text)
    requires a != [] && Whole(a)
    ensures FirstRecord(a + b) == FirstRecord(a) && AfterLine(a + b) == AfterLine(a) + b && Whole(AfterLine(a))
  {
    var i := LineEnd(a);
    assert i < |a|;
    assert LineEnd(a + b) == i by {
      assert (a + b)[i] == '\n' && forall j :: 0 <= j < i ==> (a + b)[j] == a[j];
    }
    assert (a + b)[..i] == a[..i] && (a + b)[i + 1..] == a[i + 1..] + b;
  }

  /** A text may be cut behind any newline. */
  lemma {:induction false} RecordsAppend(a: Text, b: Text)
    requires Whole(a)
    ensures Records(a + b) == Records(a) + Records(b)
    decreases |a|
  {
    hide FirstRecord, AfterLine, Whole;
    if a == [] {
      assert a + b == b;
    } else {
      FirstLineAppend(a, b);
      RecordsAppend(AfterLine(a), b);
      assert Records(a + b) == FirstRecord(a + b) + Records(AfterLine(a + b));
    }
  }
}
