/** Reading lines and records through a block buffer, and cutting a file into sorted runs. */
module MrReader {
  import opened MrText

  /** Reads [off, end) of a file, `buf` bytes at a time. */
  class LineReader {
    const file: Text
    const end: nat
    const buf: nat
    var off: nat

    ghost predicate Valid()
      reads `off
    {
      off <= end <= |file| && buf >= 1
    }

    ghost function Rest(): Text
      requires Valid()
      reads `off
    {
      file[off..end]
    }

    constructor (file: Text, start: nat, end: nat, buf: nat)
      requires start <= end <= |file| && buf >= 1
      ensures Valid() && this.file == file && off == start && this.end == end && this.buf == buf
    {
      this.file, this.off, this.end, this.buf := file, start, end, buf;
    }

    /** The next line, whatever its length and wherever the blocks fall. */
    method ReadLine() returns (line: Text, ok: bool)
      requires Valid()
      modifies `off
      ensures Valid() && ok == (old(Rest()) != [])
      ensures ok ==> line == old(Rest())[..LineEnd(old(Rest()))] && Rest() == AfterLine(old(Rest()))
      ensures !ok ==> off == old(off)
      ensures ok ==> old(off) < off
    {
      if off >= end {
        return [], false;
      }
      hide Records, FirstRecord, Parse, LineEnd, AfterLine;
      ghost var rest := Rest();
      var scratch: Text := [];
      ghost var from := off;
      while off < end
        invariant Valid() && from <= off && scratch == file[from..off]
        invariant forall j :: from <= j < off ==> file[j] != '\n'
        decreases end - off
      {
        var n := if end - off > buf then buf else end - off;
        var block := file[off..off + n];
        var i := LineEnd(block);
        BlockAppended(file, from, off, block, i);
        if i < n {
          line := scratch + block[..i];
          off := off + i + 1;
          LineFound(file, from, end, off - 1, line);
          return line, true;
        }
        scratch := scratch + block;
        off := off + n;
      }
      assert scratch == rest;
      LastLine(rest);
      return scratch, true;
    }

    /** The next line that is a record, and where it starts. */
    method Next() returns (start: nat, kv: KeyValue, ok: bool)
      requires Valid()
      modifies `off
      ensures Valid() && old(off) <= off
      ensures Records(old(Rest())) == (if ok then [kv] else []) + Records(Rest())
      ensures !ok ==> off == end
      ensures ok ==> && old(off) <= start < off
                     && Records(file[old(off)..start]) == [] && Whole(file[old(off)..start])
                     && FirstRecord(file[start..end]) == [kv] && Rest() == AfterLine(file[start..end])
    {
      ghost var from := off;
      while off < end
        invariant Valid() && from <= off && Records(old(Rest())) == Records(Rest())
        invariant Records(file[from..off]) == []
        invariant off < end ==> Whole(file[from..off])
        decreases end - off
      {
        start := off;
        ghost var rest := Rest();
        var line, more := ReadLine();
        assert rest == file[start..end];
        assert Records(rest) == FirstRecord(rest) + Records(AfterLine(rest));
        var p := Parse(line);
        if p.Some? {
          return start, p.value, true;
        }
        Skipped(file, from, start, off, end);
      }
      kv, ok, start := KeyValue([], []), false, 0;
    }
  }

  /** A block without newline before its position i extends what was read so far. */
  lemma BlockAppended(file: Text, from: nat, off: nat, block: Text, i: nat)
    requires from <= off && off + |block| <= |file| && i <= |block| && block == file[off..off + |block|]
    requires forall j :: from <= j < off ==> file[j] != '\n'
    requires forall j :: 0 <= j < i ==> block[j] != '\n'
    ensures file[from..off] + block[..i] == file[from..off + i] && block[..|block|] == block
    ensures forall j :: from <= j < off + i ==> file[j] != '\n'
    ensures i < |block| ==> file[off + i] == block[i]
  {
    forall j | from <= j < off + i ensures file[j] != '\n' {
      if j >= off { assert block[j - off] == file[j]; }
    }
  }

  lemma LastLine(t: Text)
    requires forall j :: 0 <= j < |t| ==> t[j] != '\n'
    ensures LineEnd(t) == |t| && t[..|t|] == t && AfterLine(t) == []
  {
  }

  lemma LineFound(file: Text, from: nat, end: nat, at: nat, line: Text)
    requires from <= at < end <= |file| && file[at] == '\n' && line == file[from..at]
    requires forall j :: from <= j < at ==> file[j] != '\n'
    ensures LineEnd(file[from..end]) == at - from && file[from..end][..at - from] == line
    ensures AfterLine(file[from..end]) == file[at + 1..end]
  {
    var t := file[from..end];
    assert t[at - from] == '\n' && forall j :: 0 <= j < at - from ==> t[j] == file[from + j];
  }

  /** A line without a record adds none to what was read before it. */
  lemma Skipped(file: Text, from: nat, start: nat, off: nat, end: nat)
    requires from <= start < off <= end <= |file| && Whole(file[from..start]) && Records(file[from..start]) == []
    requires file[off..end] == AfterLine(file[start..end]) && FirstRecord(file[start..end]) == []
    ensures Records(file[from..off]) == [] && (off < end ==> Whole(file[from..off]))
  {
    hide FirstRecord, AfterLine, Whole, Records;
    LineOnly(file, start, off, end);
    Joined(file, from, start, off);
  }

  lemma Joined(file: Text, from: nat, start: nat, off: nat)
    requires from <= start < off <= |file| && Whole(file[from..start])
    ensures Records(file[from..off]) == Records(file[from..start]) + Records(file[start..off])
    ensures Whole(file[start..off]) ==> Whole(file[from..off])
  {
    hide Records;
    assert file[from..off] == file[from..start] + file[start..off];
    RecordsAppend(file[from..start], file[start..off]);
  }

  /** The text up to where the reader stands after a line is just that line. */
  lemma LineOnly(file: Text, start: nat, off: nat, end: nat)
    requires start < off <= end <= |file| && file[off..end] == AfterLine(file[start..end])
    ensures Records(file[start..off]) == FirstRecord(file[start..end])
    ensures off < end ==> Whole(file[start..off])
  {
    var t, u := file[start..end], file[start..off];
    var i := LineEnd(t);
    assert |AfterLine(t)| == end - off;
    if i < |t| {
      assert off == start + i + 1 && u == t[..i + 1];
      OneLine(t, i);
    } else {
      assert u == t;
      OneRecord(u);
    }
  }

  lemma OneLine(t: Text, i: nat)
    requires i < |t| && LineEnd(t) == i
    ensures Records(t[..i + 1]) == FirstRecord(t) && Whole(t[..i + 1])
  {
    hide Records;
    var u := t[..i + 1];
    assert u[i] == t[i] && forall j :: 0 <= j < i ==> u[j] == t[j];
    assert LineEnd(u) == i && u[..i] == t[..i];
    OneRecord(u);
  }

  lemma OneRecord(u: Text)
    requires u != [] && AfterLine(u) == []
    ensures Records(u) == FirstRecord(u)
  {
    hide FirstRecord, AfterLine;
    assert Records([]) == [];
    assert Records(u) == FirstRecord(u) + Records(AfterLine(u));
  }
}
