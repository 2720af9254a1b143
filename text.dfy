/** The lint text API: formatted lines buffered in an array, sorted with
    `strcmp` and written out, and direct writes of text to the destination. */
module Text {
  import opened Wrappers
  import opened Host
  import opened StrOrder
  import opened Fsio

  /** `struct lint_buffered_line`. */
  datatype BufferedLine = BufferedLine(text: string, textsz: nat)

  /** The entry a successful add stores for a formatted line. */
  function Line(text: string): BufferedLine {
    BufferedLine(text, |text|)
  }

  /** Every entry records its own text's length. */
  predicate WellSized(lines: seq<BufferedLine>) {
    forall bl :: bl in lines ==> bl.textsz == |bl.text|
  }

  /** Non-decreasing `strcmp` order of the texts. */
  predicate Sorted(lines: seq<BufferedLine>) {
    forall i, j {:trigger StrLe(lines[i].text, lines[j].text)} ::
      0 <= i < j < |lines| ==> StrLe(lines[i].text, lines[j].text)
  }

  /** The texts of the entries, in order. */
  function Texts(lines: seq<BufferedLine>): (r: seq<string>)
    ensures |r| == |lines| && forall i :: 0 <= i < |lines| ==> r[i] == lines[i].text
  {
    if lines == [] then [] else [lines[0].text] + Texts(lines[1..])
  }

  /** Inserts an entry into a buffer before the first entry it does not
      sort after. */
  function Insert(bl: BufferedLine, lines: seq<BufferedLine>): (r: seq<BufferedLine>)
    ensures multiset(r) == multiset(lines) + multiset{bl}
  {
    if lines == [] then [bl]
    else if StrLe(bl.text, lines[0].text) then [bl] + lines
    else
      assert lines == [lines[0]] + lines[1..];
      [lines[0]] + Insert(bl, lines[1..])
  }

  /** Inserting into a sorted buffer keeps it sorted. */
  lemma {:induction false} InsertSorted(bl: BufferedLine, lines: seq<BufferedLine>)
    requires Sorted(lines)
    ensures Sorted(Insert(bl, lines))
  {
    if lines == [] {
    } else if StrLe(bl.text, lines[0].text) {
      var r := [bl] + lines;
      forall i, j | 0 <= i < j < |r| ensures StrLe(r[i].text, r[j].text) {
        if i == 0 {
          if j > 1 {
            assert StrLe(lines[0].text, lines[j - 1].text);
            StrLeTransitive(bl.text, lines[0].text, lines[j - 1].text);
          }
        } else {
          assert StrLe(lines[i - 1].text, lines[j - 1].text);
        }
      }
    } else {
      var tail := Insert(bl, lines[1..]);
      var r := [lines[0]] + tail;
      TailSorted(lines);
      InsertSorted(bl, lines[1..]);
      StrLeTotal(bl.text, lines[0].text);
      forall i, j | 0 <= i < j < |r| ensures StrLe(r[i].text, r[j].text) {
        if i == 0 {
          var x := tail[j - 1];
          assert x in multiset(tail);
          if x != bl {
            assert x in multiset(lines[1..]);
            var k :| 0 <= k < |lines[1..]| && lines[1..][k] == x;
            assert StrLe(lines[0].text, lines[k + 1].text);
          }
        } else {
          assert StrLe(tail[i - 1].text, tail[j - 1].text);
        }
      }
    }
  }

  /** Dropping the first entry of a sorted buffer keeps it sorted. */
  lemma TailSorted(a: seq<BufferedLine>)
    requires Sorted(a) && a != []
    ensures Sorted(a[1..])
  {
    forall i, j | 0 <= i < j < |a[1..]| ensures StrLe(a[1..][i].text, a[1..][j].text) {
      assert StrLe(a[i + 1].text, a[j + 1].text);
    }
  }

  /** What `qsort` with `buffered_linecmp` leaves in the buffer: the same
      entries in non-decreasing `strcmp` order of their texts. */
  function SortLines(lines: seq<BufferedLine>): (r: seq<BufferedLine>)
    ensures Sorted(r)
    ensures multiset(r) == multiset(lines)
    ensures WellSized(lines) ==> WellSized(r)
  {
    if lines == [] then []
    else
      assert lines == [lines[0]] + lines[1..];
      var rest := SortLines(lines[1..]);
      InsertSorted(lines[0], rest);
      var r := Insert(lines[0], rest);
      assert WellSized(lines) ==> WellSized(r) by {
        forall bl | bl in r ensures bl in lines {
          assert bl in multiset(r);
        }
      }
      r
  }

  /** Two sorted arrangements of the same well-sized entries start alike. */
  lemma SortedHeads(a: seq<BufferedLine>, b: seq<BufferedLine>)
    requires Sorted(a) && Sorted(b) && WellSized(a)
    requires multiset(a) == multiset(b) && a != []
    ensures b != [] && a[0] == b[0]
  {
    assert |a| == |multiset(a)| == |multiset(b)| == |b|;
    assert b[0] in multiset(a) && a[0] in multiset(b);
    var i :| 0 <= i < |a| && a[i] == b[0];
    var j :| 0 <= j < |b| && b[j] == a[0];
    assert StrLe(a[0].text, b[0].text) by {
      if i == 0 { assert StrCmp(a[0].text, b[0].text) == 0; } else { assert StrLe(a[0].text, a[i].text); }
    }
    assert StrLe(b[0].text, a[0].text) by {
      if j == 0 { assert StrCmp(b[0].text, a[0].text) == 0; } else { assert StrLe(b[0].text, b[j].text); }
    }
    StrLeAntisymmetric(a[0].text, b[0].text);
    assert b[0] in a;
  }

  /** The order is total on well-sized entries, so a sorted arrangement of a
      buffer is unique: equal texts mean equal entries. */
  lemma {:induction false} SortedUnique(a: seq<BufferedLine>, b: seq<BufferedLine>)
    requires Sorted(a) && Sorted(b) && WellSized(a)
    requires multiset(a) == multiset(b)
    ensures a == b
  {
    if a == [] {
      assert |b| == |multiset(b)| == 0;
    } else {
      SortedHeads(a, b);
      assert a == [a[0]] + a[1..] && b == [b[0]] + b[1..];
      assert multiset(a) == multiset{a[0]} + multiset(a[1..]);
      assert multiset(b) == multiset{b[0]} + multiset(b[1..]);
      TailSorted(a);
      TailSorted(b);
      assert WellSized(a[1..]) by {
        forall bl | bl in a[1..] ensures bl in a { }
      }
      assert Sorted(a[1..]);
      assert Sorted(b[1..]);
      assert multiset(a[1..]) == multiset(a) - multiset{a[0]};
      assert multiset(b[1..]) == multiset(b) - multiset{b[0]};
      SortedUnique(a[1..], b[1..]);
    }
  }

  /** Buffers holding the same lines in any order sort to the same buffer, so
      they are written out as the same bytes under the same write outcomes. */
  lemma SortDeterministic(a: seq<BufferedLine>, b: seq<BufferedLine>, accepts: nat -> bool, calls: nat)
    requires WellSized(a) && multiset(a) == multiset(b)
    ensures SortLines(a) == SortLines(b)
    ensures WriteAll(Texts(SortLines(a)), accepts, calls) == WriteAll(Texts(SortLines(b)), accepts, calls)
  {
    SortedUnique(SortLines(a), SortLines(b));
  }

  /** An `array_header` of buffered lines. */
  class LineList {
    var elts: seq<BufferedLine>

    /** `make_array`: an empty list. */
    constructor ()
      ensures elts == []
    {
      elts := [];
    }

    /** `push_array` and the store into the new slot. */
    method Push(bl: BufferedLine)
      modifies this
      ensures elts == old(elts) + [bl]
    {
      elts := elts + [bl];
    }

    /** `qsort` of the list with `buffered_linecmp`. */
    method Sort()
      modifies this
      ensures elts == SortLines(old(elts))
    {
      elts := SortLines(elts);
    }
  }

  /** The texts of two buffers end to end. */
  lemma TextsAppend(a: seq<BufferedLine>, b: seq<BufferedLine>)
    ensures Texts(a + b) == Texts(a) + Texts(b)
  {
    assert forall i :: 0 <= i < |a + b| ==> Texts(a + b)[i] == (a + b)[i].text;
  }

  /** `lint_text_write_text`: EINVAL for a NULL handle or text; a zero length
      writes nothing and succeeds; otherwise one write of the first `textsz`
      characters. */
  method WriteText(fh: FileHandle?, text: Option<string>, textsz: nat) returns (r: Result<nat, Errno>)
    requires text.Some? ==> textsz <= |text.value|
    modifies fh
    ensures fh == null || text.None? ==> r == Failure(EINVAL)
    ensures fh != null && text.None? ==> unchanged(fh)
    ensures fh != null && text.Some? ==>
      Wrote(fh, old(fh.output), old(fh.calls), [text.value[..textsz]], r.Success?) && fh.closed == old(fh.closed)
    ensures r.Success? ==> r.value == textsz
    ensures fh != null && text.Some? && r.Failure? ==> r.error == EIO
  {
    if fh == null || text.None? {
      return Failure(EINVAL);
    }
    if textsz == 0 {
      return Success(0);
    }
    var ok := fh.Write(text.value[..textsz]);
    r := if ok then Success(textsz) else Failure(EIO);
  }

  /** `lint_text_write_msg`: EINVAL for a NULL handle or format; otherwise
      writes the formatted text. A format and its arguments are represented
      by the text they format to. */
  method WriteMsg(fh: FileHandle?, fmt: Option<string>) returns (r: Result<nat, Errno>)
    modifies fh
    ensures fh == null || fmt.None? ==> r == Failure(EINVAL)
    ensures fh != null && fmt.None? ==> unchanged(fh)
    ensures fh != null && fmt.Some? ==>
      Wrote(fh, old(fh.output), old(fh.calls), [fmt.value], r.Success?) && fh.closed == old(fh.closed)
    ensures fh != null && fmt.Some? && r.Failure? ==> r.error == EIO
  {
    if fh == null || fmt.None? {
      return Failure(EINVAL);
    }
    assert fmt.value[..|fmt.value|] == fmt.value;
    r := WriteText(fh, fmt, |fmt.value|);
  }

  /** `lint_text_write_fmt`: the same guards, then `lint_text_write_msg`. */
  method WriteFmt(fh: FileHandle?, fmt: Option<string>) returns (r: Result<nat, Errno>)
    modifies fh
    ensures fh == null || fmt.None? ==> r == Failure(EINVAL)
    ensures fh != null && fmt.None? ==> unchanged(fh)
    ensures fh != null && fmt.Some? ==>
      Wrote(fh, old(fh.output), old(fh.calls), [fmt.value], r.Success?) && fh.closed == old(fh.closed)
    ensures fh != null && fmt.Some? && r.Failure? ==> r.error == EIO
  {
    if fh == null || fmt.None? {
      return Failure(EINVAL);
    }
    r := WriteMsg(fh, fmt);
  }

  /** `lint_text_add_msg`: EINVAL, with the list untouched, for a NULL pool,
      list or format; otherwise appends one entry holding the formatted text
      and its length. */
  method AddMsg(p: Option<Pool>, list: LineList?, fmt: Option<string>) returns (r: Result<(), Errno>)
    modifies list
    ensures r.Success? <==> p.Some? && list != null && fmt.Some?
    ensures r.Failure? ==> r.error == EINVAL && (list != null ==> unchanged(list))
    ensures r.Success? ==> list.elts == old(list.elts) + [Line(fmt.value)]
  {
    if p.None? || list == null || fmt.None? {
      return Failure(EINVAL);
    }
    list.Push(Line(fmt.value));
    r := Success(());
  }

  /** `lint_text_add_fmt`: the same guards, then `lint_text_add_msg`. */
  method AddFmt(p: Option<Pool>, list: LineList?, fmt: Option<string>) returns (r: Result<(), Errno>)
    modifies list
    ensures r.Success? <==> p.Some? && list != null && fmt.Some?
    ensures r.Failure? ==> r.error == EINVAL && (list != null ==> unchanged(list))
    ensures r.Success? ==> list.elts == old(list.elts) + [Line(fmt.value)]
  {
    if p.None? || list == null || fmt.None? {
      return Failure(EINVAL);
    }
    r := AddMsg(p, list, fmt);
  }

  /** `lint_text_write_buffered_lines`: a NULL list succeeds without writing
      (whatever the handle); a NULL handle is EINVAL; otherwise the list is
      sorted in place and its lines written in that order, stopping at the
      first failed write. */
  method WriteBufferedLines(fh: FileHandle?, list: LineList?) returns (r: Result<(), Errno>)
    requires list != null ==> WellSized(list.elts)
    modifies fh, list
    ensures list == null ==> r == Success(()) && (fh != null ==> unchanged(fh))
    ensures list != null && fh == null ==> r == Failure(EINVAL) && unchanged(list)
    ensures list != null && fh != null ==>
      && list.elts == SortLines(old(list.elts))
      && Wrote(fh, old(fh.output), old(fh.calls), Texts(list.elts), r.Success?)
      && fh.closed == old(fh.closed)
    ensures list != null && fh != null && r.Failure? ==> r.error == EIO
  {
    if list == null {
      return Success(());
    }
    if fh == null {
      return Failure(EINVAL);
    }
    list.Sort();
    r := WriteLines(fh, list.elts);
  }

  /** The loop of `lint_text_write_buffered_lines`: each entry's text in
      turn, stopping at the first failed write. */
  method WriteLines(fh: FileHandle, lines: seq<BufferedLine>) returns (r: Result<(), Errno>)
    requires WellSized(lines)
    modifies fh
    ensures Wrote(fh, old(fh.output), old(fh.calls), Texts(lines), r.Success?)
    ensures fh.closed == old(fh.closed)
    ensures r.Failure? ==> r.error == EIO
  {
    ghost var out0, calls0 := fh.output, fh.calls;
    var i := 0;
    while i < |lines|
      invariant 0 <= i <= |lines| && fh.closed == old(fh.closed)
      invariant Ran(out0, calls0, Texts(lines[..i]), fh.accepts, fh.output, fh.calls, true)
    {
      var bl := lines[i];
      assert bl in lines;
      assert bl.text[..bl.textsz] == bl.text;
      ghost var outMid, callsMid := fh.output, fh.calls;
      var res := WriteText(fh, Some(bl.text), bl.textsz);
      RanChain(out0, calls0, Texts(lines[..i]), [bl.text], fh.accepts, outMid, callsMid, fh.output, fh.calls, res.Success?);
      assert Texts(lines[..i]) + [bl.text] == Texts(lines[..i + 1]);
      if res.Failure? {
        assert lines == lines[..i + 1] + lines[i + 1..];
        TextsAppend(lines[..i + 1], lines[i + 1..]);
        RanStops(out0, calls0, Texts(lines[..i + 1]), Texts(lines[i + 1..]), fh.accepts, fh.output, fh.calls);
        return Failure(res.error);
      }
      i := i + 1;
    }
    assert lines[..i] == lines;
    r := Success(());
  }
}
