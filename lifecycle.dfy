/** The module's own state across a configuration pass: `lint_init`, the
    `core.parsed-line` listener that records every directive line, the
    `core.postparse` listener that writes the document and forgets the
    lines, and the `core.restart` listener that starts recording again. */
module Lifecycle {
  import opened Wrappers
  import opened Fsio
  import opened ParsedLines
  import opened Document
  import opened Writer

  /** The log after one more line is recorded at its end; recording the
      first line creates the log. */
  function Recorded(log: Log, pl: ParsedLine): Log {
    if log.None? then Some([pl]) else Some(log.value + [pl])
  }

  /** Recording never changes what an earlier lookup found, and a directive
      recorded for the first time is found as that line. */
  lemma RecordedLookup(log: Log, pl: ParsedLine, directive: string)
    ensures FirstParsedLine(log, directive).Some? ==>
      FirstParsedLine(Recorded(log, pl), directive) == FirstParsedLine(log, directive)
    ensures FirstParsedLine(log, directive).None? ==>
      FirstParsedLine(Recorded(log, pl), directive) == (if pl.directive == directive then Some(pl) else None)
  {
    var lines := if log.None? then [] else log.value;
    assert log.None? ==> [] + [pl] == [pl];
    assert Recorded(log, pl) == Some(lines + [pl]);
    FirstMatchKept(lines, pl, directive);
    if FirstParsedLine(log, directive).None? && pl.directive != directive {
      assert forall i :: 0 <= i < |lines| ==> lines[i].directive != directive;
      assert forall i :: 0 <= i < |lines + [pl]| ==> (lines + [pl])[i].directive != directive by {
        forall i | 0 <= i < |lines + [pl]|
          ensures (lines + [pl])[i].directive != directive
        {
          if i < |lines| {
            assert (lines + [pl])[i] == lines[i];
          }
        }
      }
    }
  }

  /** The module's globals: whether `lint_pool` exists, the recorded lines
      (`parsed_lines`), `lint_engine`, and whether the `core.parsed-line`
      listener is registered. */
  class LintModule {
    var poolLive: bool
    var parsedLines: Log
    var engine: bool
    var recording: bool

    /** `lint_init`: the pool is created and the listeners registered;
        nothing is recorded yet and the engine is on. */
    constructor ()
      ensures poolLive && parsedLines.None? && engine && recording
    {
      poolLive := true;
      parsedLines := None;
      engine := true;
      recording := true;
    }

    /** `lint_parsed_line_ev`: records the line with its leading white
        space skipped, at the end of the log, creating the pool and the
        log when they are gone. The event reaches the module only while
        the listener is registered. */
    method ParsedLineEv(directive: string, text: string, sourceFile: string, sourceLineno: nat)
      requires recording
      modifies this
      ensures poolLive
      ensures parsedLines == Recorded(old(parsedLines),
                                      ParsedLine(directive, StripLeadingSpace(text), sourceFile, sourceLineno))
      ensures engine == old(engine) && recording == old(recording)
    {
      var stripped := SkipLeadingSpace(text);
      Record(ParsedLine(directive, stripped, sourceFile, sourceLineno));
    }

    /** Creates the pool when it is gone, then `xaset_create` when there is
        no log yet and `xaset_insert_end`. */
    method Record(pl: ParsedLine)
      modifies this
      ensures poolLive
      ensures parsedLines == Recorded(old(parsedLines), pl)
      ensures engine == old(engine) && recording == old(recording)
    {
      // the pool is created when it is gone and kept when it exists
      poolLive := true;
      if parsedLines.None? {
        parsedLines := Some([pl]);
      } else {
        parsedLines := Some(parsedLines.value + [pl]);
      }
    }

    /** `lint_postparse_ev`. `lintEngine` and `configFile` are the
        `LintEngine` and `LintConfigFile` parameters found in the main
        server's configuration, and `fh` what opening `configFile` gave.
        The result is `None` when nothing was attempted and otherwise what
        `lint_write_config` returned. */
    method PostparseEv(lintEngine: Option<bool>, configFile: Option<string>, h: HostState, fh: FileHandle?)
      returns (written: Option<int>)
      requires ValidHost(h)
      modifies this, fh
      ensures !recording && parsedLines.None? && !poolLive
      ensures engine == (if lintEngine.Some? then lintEngine.value else old(engine))
      ensures written.Some? <==> lintEngine != Some(false) && configFile.Some?
      ensures written.None? && fh != null ==> unchanged(fh)
      ensures written.Some? && fh == null ==> written.value == -1
      ensures written.Some? && fh != null ==>
        var o := WriteAll(DocumentChunks(h, old(parsedLines)), fh.accepts, old(fh.calls));
        fh.closed && fh.output == old(fh.output) + o.written && fh.calls == o.calls
        && (written.value == 0 <==> o.ok && fh.closeSucceeds)
    {
      recording := false;
      if lintEngine.Some? {
        engine := lintEngine.value;
        if !lintEngine.value {
          poolLive := false;
          parsedLines := None;
          return None;
        }
      }
      if configFile.None? {
        poolLive := false;
        parsedLines := None;
        return None;
      }
      var res := WriteConfig(fh, h, parsedLines);
      written := Some(res);
      poolLive := false;
      parsedLines := None;
    }

    /** `lint_restart_ev`: listens for parsed lines again and turns the
        engine back on. */
    method RestartEv()
      modifies this
      ensures recording && engine
      ensures poolLive == old(poolLive) && parsedLines == old(parsedLines)
    {
      recording := true;
      engine := true;
    }
  }
}
