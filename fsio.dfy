/** The destination file as the lint core sees it: a handle that accepts or
    refuses each `pr_fsio_write`, and the specification of writing a sequence
    of texts with the first failure ending the sequence. */
module Fsio {

  /** An open `pr_fh_t`. Whether the n-th write call (counting from 0) is
      accepted, and whether closing succeeds, are fixed by the file system and
      given as oracles. A refused write adds nothing to the file. */
  class FileHandle {
    const accepts: nat -> bool
    const closeSucceeds: bool
    var output: string
    var calls: nat
    var closed: bool

    /** A freshly opened, empty file. */
    constructor (accepts: nat -> bool, closeSucceeds: bool)
      ensures this.accepts == accepts && this.closeSucceeds == closeSucceeds
      ensures output == [] && calls == 0 && !closed
    {
      this.accepts := accepts;
      this.closeSucceeds := closeSucceeds;
      output := [];
      calls := 0;
      closed := false;
    }

    /** `pr_fsio_write`. */
    method Write(text: string) returns (ok: bool)
      modifies this
      ensures ok == accepts(old(calls)) && calls == old(calls) + 1
      ensures output == old(output) + (if ok then text else [])
      ensures closed == old(closed)
    {
      ok := accepts(calls);
      if ok {
        output := output + text;
      }
      calls := calls + 1;
    }

    /** `pr_fsio_close`. */
    method Close() returns (ok: bool)
      modifies this
      ensures ok == closeSucceeds && closed
      ensures output == old(output) && calls == old(calls)
    {
      ok := closeSucceeds;
      closed := true;
    }
  }

  /** What a run of writes did: the bytes that reached the file, the write
      calls made, and whether every write succeeded. */
  datatype Outcome = Outcome(written: string, calls: nat, ok: bool)

  /** A file holding `out1` after `calls1` write calls is what writing
      `chunks` onto `out0` from call number `calls0` leaves, and `ok` says
      whether that run succeeded. */
  ghost predicate Ran(out0: string, calls0: nat, chunks: seq<string>, accepts: nat -> bool,
                      out1: string, calls1: nat, ok: bool)
  {
    var o := WriteAll(chunks, accepts, calls0);
    out1 == out0 + o.written && calls1 == o.calls && ok == o.ok
  }

  /** `Ran` for the handle's current state. */
  ghost predicate Wrote(fh: FileHandle, out0: string, calls0: nat, chunks: seq<string>, ok: bool)
    reads fh
  {
    Ran(out0, calls0, chunks, fh.accepts, fh.output, fh.calls, ok)
  }

  /** A successful run followed by another run is one run of both chunk
      sequences. */
  lemma RanChain(out0: string, c0: nat, a: seq<string>, b: seq<string>, accepts: nat -> bool,
                 out1: string, c1: nat, out2: string, c2: nat, ok: bool)
    requires Ran(out0, c0, a, accepts, out1, c1, true)
    requires Ran(out1, c1, b, accepts, out2, c2, ok)
    ensures Ran(out0, c0, a + b, accepts, out2, c2, ok)
  {
    WriteAllAppend(a, b, accepts, c0);
    var oa := WriteAll(a, accepts, c0);
    var ob := WriteAll(b, accepts, c1);
    assert out2 == out0 + (oa.written + ob.written);
  }

  /** Writing nothing leaves the file as it is. */
  lemma RanNothing(out0: string, c0: nat, accepts: nat -> bool)
    ensures Ran(out0, c0, [], accepts, out0, c0, true)
  {
    assert out0 + [] == out0;
  }

  /** A failed run stays failed whatever was meant to follow it. */
  lemma RanStops(out0: string, c0: nat, a: seq<string>, b: seq<string>, accepts: nat -> bool, out1: string, c1: nat)
    requires Ran(out0, c0, a, accepts, out1, c1, false)
    ensures Ran(out0, c0, a + b, accepts, out1, c1, false)
  {
    WriteAllAppend(a, b, accepts, c0);
  }

  /** `text` written before whatever `o` describes. */
  function Then(text: string, o: Outcome): Outcome {
    Outcome(text + o.written, o.calls, o.ok)
  }

  /** All chunks, end to end. */
  function Concat(chunks: seq<string>): (r: string)
  {
    if chunks == [] then [] else chunks[0] + Concat(chunks[1..])
  }

  /** Writing `chunks` in order through the zero-length-skipping text writer,
      starting at write call number `calls`: an empty chunk makes no call, and
      the first refused write ends the run. */
  function WriteAll(chunks: seq<string>, accepts: nat -> bool, calls: nat): (o: Outcome)
    ensures o.calls >= calls
    ensures o.calls == calls ==> o.ok && o.written == []
  {
    if chunks == [] then Outcome([], calls, true)
    else if chunks[0] == [] then WriteAll(chunks[1..], accepts, calls)
    else if !accepts(calls) then Outcome([], calls + 1, false)
    else Then(chunks[0], WriteAll(chunks[1..], accepts, calls + 1))
  }

  /** Continues run `o` with `rest`, unless `o` already failed. */
  function AndThen(o: Outcome, rest: seq<string>, accepts: nat -> bool): Outcome {
    if !o.ok then o else Then(o.written, WriteAll(rest, accepts, o.calls))
  }

  /** One step of `WriteAll`, for a sequence given as head and tail. */
  lemma WriteAllCons(x: string, rest: seq<string>, accepts: nat -> bool, calls: nat)
    ensures WriteAll([x] + rest, accepts, calls) ==
      if x == [] then WriteAll(rest, accepts, calls)
      else if !accepts(calls) then Outcome([], calls + 1, false)
      else Then(x, WriteAll(rest, accepts, calls + 1))
  {
    assert ([x] + rest)[0] == x && ([x] + rest)[1..] == rest;
  }

  /** Writing a single chunk: nothing for an empty one, otherwise one call
      whose acceptance decides whether the chunk lands. */
  lemma WriteOne(x: string, accepts: nat -> bool, calls: nat)
    ensures WriteAll([x], accepts, calls) ==
      if x == [] then Outcome([], calls, true)
      else if !accepts(calls) then Outcome([], calls + 1, false)
      else Outcome(x, calls + 1, true)
  {
    assert [x] == [x] + [];
    WriteAllCons(x, [], accepts, calls);
  }

  /** Writing `a + b` is writing `a` and then, if that succeeded, `b`. */
  lemma {:induction false} WriteAllAppend(a: seq<string>, b: seq<string>, accepts: nat -> bool, calls: nat)
    ensures WriteAll(a + b, accepts, calls) == AndThen(WriteAll(a, accepts, calls), b, accepts)
  {
    if a == [] {
      assert a + b == b;
    } else {
      assert (a + b)[0] == a[0] && (a + b)[1..] == a[1..] + b;
      if a[0] == [] {
        WriteAllAppend(a[1..], b, accepts, calls);
      } else if accepts(calls) {
        WriteAllAppend(a[1..], b, accepts, calls + 1);
      }
    }
  }

  /** A run that succeeds has written every chunk, in order. */
  lemma {:induction false} WriteAllComplete(chunks: seq<string>, accepts: nat -> bool, calls: nat)
    requires WriteAll(chunks, accepts, calls).ok
    ensures WriteAll(chunks, accepts, calls).written == Concat(chunks)
  {
    if chunks != [] {
      if chunks[0] == [] {
        WriteAllComplete(chunks[1..], accepts, calls);
      } else {
        WriteAllComplete(chunks[1..], accepts, calls + 1);
      }
    }
  }

  /** The run over `chunks` stopped at chunk `k`: every chunk before it was
      written, its own write was refused, and nothing after it was attempted. */
  ghost predicate StoppedAt(chunks: seq<string>, accepts: nat -> bool, calls: nat, k: nat)
    requires k < |chunks|
  {
    var before := WriteAll(chunks[..k], accepts, calls);
    && chunks[k] != []
    && before.ok
    && !accepts(before.calls)
    && WriteAll(chunks, accepts, calls) == Outcome(Concat(chunks[..k]), before.calls + 1, false)
  }

  /** A run that fails stops at some non-empty chunk whose write was refused. */
  lemma {:induction false} WriteAllStops(chunks: seq<string>, accepts: nat -> bool, calls: nat)
    requires !WriteAll(chunks, accepts, calls).ok
    ensures exists k :: 0 <= k < |chunks| && StoppedAt(chunks, accepts, calls, k)
  {
    if chunks[0] != [] && !accepts(calls) {
      assert chunks[..0] == [];
      assert StoppedAt(chunks, accepts, calls, 0);
    } else {
      var c' := if chunks[0] == [] then calls else calls + 1;
      WriteAllStops(chunks[1..], accepts, c');
      var k :| 0 <= k < |chunks[1..]| && StoppedAt(chunks[1..], accepts, c', k);
      assert chunks[..k + 1] == [chunks[0]] + chunks[1..][..k];
      WriteAllCons(chunks[0], chunks[1..][..k], accepts, calls);
      assert Concat(chunks[..k + 1]) == chunks[0] + Concat(chunks[1..][..k]);
      assert chunks[k + 1] == chunks[1..][k];
      assert StoppedAt(chunks, accepts, calls, k + 1);
    }
  }
}
