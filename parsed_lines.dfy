/** The log of raw configuration lines that `mod_lint` records while the
    host parses its configuration, and the lookup the serializer uses to
    recover a directive's original text. */
module ParsedLines {
  import opened Wrappers

  /** `struct lint_parsed_line`: the directive keyword, the line's text with
      leading whitespace removed, and where it came from. */
  datatype ParsedLine = ParsedLine(directive: string, text: string, sourceFile: string, sourceLineno: nat)

  /** The recorded lines in order of appearance; `None` while nothing has
      been recorded (`parsed_lines == NULL`). */
  type Log = Option<seq<ParsedLine>>

  /** Index of the earliest entry recorded for `directive`. */
  function FirstIndex(lines: seq<ParsedLine>, directive: string): (r: Option<nat>)
    ensures r.None? <==> forall i :: 0 <= i < |lines| ==> lines[i].directive != directive
    ensures r.Some? ==> r.value < |lines| && lines[r.value].directive == directive
    ensures r.Some? ==> forall j :: 0 <= j < r.value ==> lines[j].directive != directive
  {
    if lines == [] then None
    else if lines[0].directive == directive then Some(0)
    else
      var rest := FirstIndex(lines[1..], directive);
      assert forall i :: 1 <= i < |lines| ==> lines[i] == lines[1..][i - 1];
      if rest.None? then None else Some(rest.value + 1)
  }

  /** `lint_find_parsed_line`: nothing when no line has been recorded,
      otherwise the earliest line recorded for exactly this directive. */
  function FirstParsedLine(log: Log, directive: string): (r: Option<ParsedLine>)
    ensures log.None? ==> r.None?
    ensures log.Some? ==> (r.None? <==> forall i :: 0 <= i < |log.value| ==> log.value[i].directive != directive)
    ensures r.Some? ==> r.value.directive == directive && r.value in log.value
  {
    if log.None? then None
    else
      var i := FirstIndex(log.value, directive);
      if i.None? then None else Some(log.value[i.value])
  }

  /** The scan of `lint_find_parsed_line`, entry by entry in insertion
      order, stopping at the first whose directive compares equal. */
  method FindParsedLine(log: Log, directive: string) returns (r: Option<ParsedLine>)
    ensures r == FirstParsedLine(log, directive)
  {
    if log.None? {
      return None;
    }
    var lines := log.value;
    var i := 0;
    while i < |lines|
      invariant 0 <= i <= |lines|
      invariant forall j :: 0 <= j < i ==> lines[j].directive != directive
    {
      if lines[i].directive == directive {
        return Some(lines[i]);
      }
      i := i + 1;
    }
    r := None;
  }

  /** Recording more lines never changes what a lookup already finds: the
      first match wins, not the last. A directive seen for the first time
      is found as the line just recorded. */
  lemma {:induction false} FirstMatchKept(lines: seq<ParsedLine>, pl: ParsedLine, directive: string)
    ensures FirstParsedLine(Some(lines), directive).Some? ==>
      FirstParsedLine(Some(lines + [pl]), directive) == FirstParsedLine(Some(lines), directive)
    ensures FirstParsedLine(Some(lines), directive).None? && pl.directive == directive ==>
      FirstParsedLine(Some(lines + [pl]), directive) == Some(pl)
  {
    var all := lines + [pl];
    assert forall j :: 0 <= j < |lines| ==> all[j] == lines[j];
    assert all[|lines|] == pl;
  }

  /** `PR_ISSPACE`: the ASCII white-space characters of `isspace`. */
  predicate IsSpace(ch: char) {
    ch == ' ' || ch == '\t' || ch == '\n' || ch == '\U{0B}' || ch == '\U{0C}' || ch == '\r'
  }

  /** The text with its leading white space skipped. */
  function StripLeadingSpace(text: string): (r: string)
    ensures |r| <= |text| && r == text[|text| - |r|..]
    ensures forall i :: 0 <= i < |text| - |r| ==> IsSpace(text[i])
    ensures r != [] ==> !IsSpace(r[0])
  {
    if text != [] && IsSpace(text[0]) then
      var r := StripLeadingSpace(text[1..]);
      assert forall i :: 1 <= i < |text| ==> text[i] == text[1..][i - 1];
      r
    else text
  }

  /** The skipping loop of `lint_parsed_line_ev`. */
  method SkipLeadingSpace(text: string) returns (r: string)
    ensures r == StripLeadingSpace(text)
  {
    var i := 0;
    while i < |text| && IsSpace(text[i])
      invariant 0 <= i <= |text|
      invariant StripLeadingSpace(text[i..]) == StripLeadingSpace(text)
    {
      assert text[i..][1..] == text[i + 1..];
      i := i + 1;
    }
    r := text[i..];
  }
}
