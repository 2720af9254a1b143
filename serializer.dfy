/** The walk of `mod_lint` over a configuration tree: each `CONF_PARAM`
    record is turned back into the text of the line that created it, found
    in the parsed-line log, indented two spaces per nesting level, and
    pushed into a buffer that is later sorted and written. */
module Serializer {
  import opened Wrappers
  import opened Host
  import CoreCop
  import opened ParsedLines
  import opened Text

  /** The rename table `lint_add_config_rec` applies on its own: the record
      names `GroupID` and `UserID` have no line of their own, `GroupName` and
      `UserName` were written as `Group` and `User`. It agrees, name for name,
      with the core resolver. */
  function InlineDirective(name: string): (r: Option<string>)
    ensures r.None? <==> CoreCop.DirectiveFor(name).Failure?
    ensures r.Some? ==> r.value == CoreCop.DirectiveFor(name).value
  {
    if name == "GroupID" || name == "UserID" then None
    else if name == "GroupName" then Some("Group")
    else if name == "UserName" then Some("User")
    else Some(name)
  }

  /** The line `lint_add_config_rec` pushes for one record, if any. */
  function RecLine(log: Log, c: ConfigRec, indent: string): (r: Option<string>)
    requires c.configType == ConfParam ==> c.name.Some?
    ensures r.Some? <==>
      && c.configType == ConfParam && !IsPrivateName(c.name)
      && CoreCop.DirectiveFor(c.name.value).Success?
      && FirstParsedLine(log, CoreCop.DirectiveFor(c.name.value).value).Some?
    ensures r.Some? ==>
      r.value == indent + FirstParsedLine(log, CoreCop.DirectiveFor(c.name.value).value).value.text + "\n"
  {
    if IsPrivateName(c.name) || c.configType != ConfParam then None
    else
      var directive := InlineDirective(c.name.value);
      if directive.None? then None
      else
        var pl := FirstParsedLine(log, directive.value);
        if pl.None? then None else Some(indent + pl.value.text + "\n")
  }

  /** Every line is well sized, starts with `indent` and ends with a
      newline. */
  predicate Indented(lines: seq<BufferedLine>, indent: string) {
    forall bl :: bl in lines ==>
      && bl.textsz == |bl.text|
      && |indent| < |bl.text|
      && bl.text[..|indent|] == indent
      && bl.text[|bl.text| - 1] == '\n'
  }

  /** The lines pushed for one record and, two spaces further in, for
      everything in its `subset`. */
  function NodeLines(log: Log, c: ConfigRec, indent: string): seq<BufferedLine>
    requires RecNamed(c)
    decreases c
  {
    var own := RecLine(log, c, indent);
    (if own.Some? then [Line(own.value)] else [])
    + (if c.subset.Some? then SetLines(log, c.subset.value, 0, indent + "  ") else [])
  }

  /** The lines pushed for the records of `s` from position `i` on, each
      record followed by its nested records. */
  function SetLines(log: Log, s: ConfigSet, i: nat, indent: string): seq<BufferedLine>
    requires SetNamed(s) && i <= |s.list|
    decreases s, |s.list| - i
  {
    if i == |s.list| then []
    else NodeLines(log, s.list[i], indent) + SetLines(log, s, i + 1, indent)
  }

  /** `SetLines` peels off the record at position `i`. */
  lemma SetLinesStep(log: Log, s: ConfigSet, i: nat, indent: string)
    requires SetNamed(s) && i < |s.list|
    ensures RecNamed(s.list[i])
    ensures s.list[i].subset.Some? ==> SetNamed(s.list[i].subset.value) && s.list[i].subset.value < s
    ensures SetLines(log, s, i, indent) == NodeLines(log, s.list[i], indent) + SetLines(log, s, i + 1, indent)
  {
  }

  /** Pushing a record's own line and then its nested lines moves the walk
      of `s` on by one record. */
  lemma AdvanceSet(mark: seq<BufferedLine>, now: seq<BufferedLine>, log: Log, s: ConfigSet, i: nat, indent: string)
    requires SetNamed(s) && i < |s.list| && RecNamed(s.list[i])
    requires now == mark
      + (if RecLine(log, s.list[i], indent).Some? then [Line(RecLine(log, s.list[i], indent).value)] else [])
      + (if s.list[i].subset.Some? then SetLines(log, s.list[i].subset.value, 0, indent + "  ") else [])
    ensures mark + SetLines(log, s, i, indent) == now + SetLines(log, s, i + 1, indent)
  {
    SetLinesStep(log, s, i, indent);
  }

  /** Every line pushed for a record starts with the record's indent and
      ends with a newline. */
  lemma {:induction false} NodeIndented(log: Log, c: ConfigRec, indent: string)
    requires RecNamed(c)
    ensures Indented(NodeLines(log, c, indent), indent)
    decreases c
  {
    if c.subset.Some? {
      var nested := SetLines(log, c.subset.value, 0, indent + "  ");
      SetIndented(log, c.subset.value, 0, indent + "  ");
      forall bl | bl in nested
        ensures bl.text[..|indent|] == indent
      {
        assert bl.text[..|indent| + 2][..|indent|] == (indent + "  ")[..|indent|];
      }
    }
  }

  /** `NodeIndented` for the records of a set from position `i` on. */
  lemma {:induction false} SetIndented(log: Log, s: ConfigSet, i: nat, indent: string)
    requires SetNamed(s) && i <= |s.list|
    ensures Indented(SetLines(log, s, i, indent), indent)
    decreases s, |s.list| - i
  {
    if i < |s.list| {
      NodeIndented(log, s.list[i], indent);
      SetIndented(log, s, i + 1, indent);
    }
  }

  /** The lines pushed for a server's configuration, at the outermost
      indent. */
  function ServerLines(log: Log, s: Server): seq<BufferedLine>
    requires ServerNamed(s)
  {
    if s.conf.None? then [] else SetLines(log, s.conf.value, 0, "")
  }

  /** Every line pushed for a server is well sized and ends with a
      newline. */
  lemma ServerIndented(log: Log, s: Server)
    requires ServerNamed(s)
    ensures Indented(ServerLines(log, s), "") && WellSized(ServerLines(log, s))
  {
    if s.conf.Some? {
      SetIndented(log, s.conf.value, 0, "");
    }
  }

  /** Records that all satisfy `RecNamed`. */
  predicate AllNamed(recs: seq<ConfigRec>) {
    forall i :: 0 <= i < |recs| ==> RecNamed(recs[i])
  }

  /** The lines pushed for a list of sibling records. */
  function Flat(log: Log, recs: seq<ConfigRec>, indent: string): seq<BufferedLine>
    requires AllNamed(recs)
  {
    SetLines(log, ConfigSet(recs), 0, indent)
  }

  /** The walk from a position depends only on the records from there on. */
  lemma {:induction false} SetLinesShift(log: Log, s: ConfigSet, i: nat, t: ConfigSet, j: nat, indent: string)
    requires SetNamed(s) && SetNamed(t) && i <= |s.list| && j <= |t.list|
    requires s.list[i..] == t.list[j..]
    ensures SetLines(log, s, i, indent) == SetLines(log, t, j, indent)
    decreases |s.list| - i
  {
    if i < |s.list| {
      assert s.list[i] == s.list[i..][0] == t.list[j];
      assert s.list[i + 1..] == s.list[i..][1..] == t.list[j + 1..];
      SetLinesShift(log, s, i + 1, t, j + 1, indent);
    }
  }

  /** The lines of `a + b` are those of `a` followed by those of `b`. */
  lemma {:induction false} FlatAppend(log: Log, a: seq<ConfigRec>, b: seq<ConfigRec>, indent: string)
    requires AllNamed(a) && AllNamed(b)
    ensures AllNamed(a + b)
    ensures Flat(log, a + b, indent) == Flat(log, a, indent) + Flat(log, b, indent)
    decreases |a|
  {
    assert AllNamed(a + b) by {
      forall i | 0 <= i < |a + b| ensures RecNamed((a + b)[i]) {
        if i < |a| { assert (a + b)[i] == a[i]; } else { assert (a + b)[i] == b[i - |a|]; }
      }
    }
    if a == [] {
      assert a + b == b;
    } else {
      assert AllNamed(a[1..]) by {
        forall i | 0 <= i < |a[1..]| ensures RecNamed(a[1..][i]) { assert a[1..][i] == a[i + 1]; }
      }
      assert (a + b)[0] == a[0];
      assert (a + b)[1..] == a[1..] + b;
      FlatAppend(log, a[1..], b, indent);
      SetLinesShift(log, ConfigSet(a + b), 1, ConfigSet(a[1..] + b), 0, indent);
      SetLinesShift(log, ConfigSet(a), 1, ConfigSet(a[1..]), 0, indent);
    }
  }

  /** The lines of a single record are its node's lines. */
  lemma FlatSingle(log: Log, c: ConfigRec, indent: string)
    requires RecNamed(c)
    ensures AllNamed([c]) && Flat(log, [c], indent) == NodeLines(log, c, indent)
  {
    assert SetLines(log, ConfigSet([c]), 1, indent) == [];
  }

  /** Taking one record out of a list takes its node's lines out of the
      list's lines. */
  lemma FlatRemove(log: Log, left: seq<ConfigRec>, x: ConfigRec, right: seq<ConfigRec>, indent: string)
    requires AllNamed(left) && RecNamed(x) && AllNamed(right)
    ensures AllNamed(left + ([x] + right)) && AllNamed(left + right)
    ensures multiset(Flat(log, left + ([x] + right), indent)) ==
      multiset(NodeLines(log, x, indent)) + multiset(Flat(log, left + right, indent))
  {
    FlatSingle(log, x, indent);
    FlatAppend(log, [x], right, indent);
    FlatAppend(log, left, [x] + right, indent);
    FlatAppend(log, left, right, indent);
  }

  /** The records of `b` other than the one at `k` are all named. */
  lemma AllNamedWithout(b: seq<ConfigRec>, k: nat)
    requires AllNamed(b) && k < |b|
    ensures AllNamed(b[..k]) && AllNamed(b[k + 1..]) && RecNamed(b[k])
  {
    forall i | 0 <= i < |b[..k]| ensures RecNamed(b[..k][i]) {
      assert b[..k][i] == b[i];
    }
    var right := b[k + 1..];
    forall i | 0 <= i < |right| ensures RecNamed(right[i]) {
      assert right[i] == b[k + 1 + i];
    }
  }

  /** Removing the first element of `a` and its counterpart in `b` keeps
      the two multisets equal. */
  lemma MultisetWithout<T>(a: seq<T>, b: seq<T>, k: nat)
    requires multiset(a) == multiset(b) && a != [] && k < |b| && b[k] == a[0]
    ensures multiset(a[1..]) == multiset(b[..k] + b[k + 1..])
  {
    assert a == [a[0]] + a[1..];
    assert b == b[..k] + [b[k]] + b[k + 1..];
    assert multiset(a[1..]) == multiset(a) - multiset{a[0]};
  }

  /** Every record of a reordering has a name when every record had one. */
  lemma AllNamedPermuted(a: seq<ConfigRec>, b: seq<ConfigRec>)
    requires AllNamed(a) && multiset(a) == multiset(b)
    ensures AllNamed(b)
  {
    forall i | 0 <= i < |b| ensures RecNamed(b[i]) {
      assert b[i] in multiset(a);
      var k :| 0 <= k < |a| && a[k] == b[i];
    }
  }

  /** Reordering sibling records reorders the pushed lines but pushes the
      same lines, each as many times. */
  lemma {:induction false} FlatPermutation(log: Log, a: seq<ConfigRec>, b: seq<ConfigRec>, indent: string)
    requires AllNamed(a) && multiset(a) == multiset(b)
    ensures AllNamed(b)
    ensures multiset(Flat(log, a, indent)) == multiset(Flat(log, b, indent))
    decreases |a|
  {
    AllNamedPermuted(a, b);
    if a == [] {
      assert |b| == |multiset(b)| == 0;
      assert b == [];
    } else {
      var x := a[0];
      AllNamedWithout(a, 0);
      assert a == [] + ([x] + a[1..]) && [] + a[1..] == a[1..];
      FlatRemove(log, [], x, a[1..], indent);
      var rest := FlatSplit(log, a, b, indent);
      FlatPermutation(log, a[1..], rest, indent);
    }
  }

  /** Takes the first record of `a` out of its reordering `b`: what remains
      is a reordering of `a[1..]`, and `b` flattens to that record's lines
      and the lines of what remains. */
  lemma FlatSplit(log: Log, a: seq<ConfigRec>, b: seq<ConfigRec>, indent: string)
    returns (rest: seq<ConfigRec>)
    requires AllNamed(b) && multiset(a) == multiset(b) && a != [] && RecNamed(a[0])
    ensures AllNamed(rest) && multiset(a[1..]) == multiset(rest)
    ensures multiset(Flat(log, b, indent)) == multiset(NodeLines(log, a[0], indent)) + multiset(Flat(log, rest, indent))
  {
    var x := a[0];
    assert x in multiset(b);
    var k :| 0 <= k < |b| && b[k] == x;
    var left, right := b[..k], b[k + 1..];
    assert b == left + ([x] + right);
    AllNamedWithout(b, k);
    FlatRemove(log, left, x, right, indent);
    MultisetWithout(a, b, k);
    rest := left + right;
  }

  /** The order of sibling records in the configuration tree does not change
      what a flush writes: the buffered lines are sorted before they are
      written, and equal multisets of lines sort to the same buffer. */
  lemma SiblingOrderIrrelevant(log: Log, s: ConfigSet, t: ConfigSet, indent: string)
    requires SetNamed(s) && multiset(s.list) == multiset(t.list)
    ensures SetNamed(t)
    ensures SortLines(SetLines(log, s, 0, indent)) == SortLines(SetLines(log, t, 0, indent))
  {
    assert s == ConfigSet(s.list) && t == ConfigSet(t.list);
    assert AllNamed(s.list);
    FlatPermutation(log, s.list, t.list, indent);
    SetIndented(log, s, 0, indent);
    SortDeterministic(SetLines(log, s, 0, indent), SetLines(log, t, 0, indent), _ => true, 0);
  }

  /** `lint_add_config_rec`: pushes the line `RecLine` describes, and always
      returns 0 (the `mod_lint` copy of `lint_add_fmt` cannot fail). */
  method AddConfigRec(list: LineList, log: Log, c: ConfigRec, indent: string) returns (res: int)
    requires c.configType == ConfParam ==> c.name.Some?
    modifies list
    ensures res == 0
    ensures list.elts == old(list.elts) +
      (if RecLine(log, c, indent).Some? then [Line(RecLine(log, c, indent).value)] else [])
  {
    if IsPrivateName(c.name) {
      return 0;
    }
    if c.configType != ConfParam {
      return 0;
    }
    var name := c.name.value;
    if name == "GroupID" || name == "UserID" {
      return 0;
    }
    var directive := name;
    if name == "GroupName" {
      directive := "Group";
    } else if name == "UserName" {
      directive := "User";
    }
    var pl := FindParsedLine(log, directive);
    if pl.Some? {
      var _ := AddFmt(Some(Pool), list, Some(indent + pl.value.text + "\n"));
    }
    res := 0;
  }

  /** `lint_add_config_set`: walks the records in list order, pushing each
      record's line and then, with the indent two spaces deeper, its
      `subset`'s lines. A NULL indent is the empty one. Only appends, and
      returns 0: no child can fail. */
  method AddConfigSet(list: LineList, log: Log, s: ConfigSet, indent: Option<string>) returns (res: int)
    requires SetNamed(s)
    modifies list
    ensures res == 0
    ensures list.elts == old(list.elts) + SetLines(log, s, 0, if indent.None? then "" else indent.value)
    decreases s
  {
    if s.list == [] {
      return 0;
    }
    var ind := if indent.None? then "" else indent.value;
    var i := 0;
    while i < |s.list|
      invariant 0 <= i <= |s.list|
      invariant old(list.elts) + SetLines(log, s, 0, ind) == list.elts + SetLines(log, s, i, ind)
    {
      var c := s.list[i];
      SetLinesStep(log, s, i, ind);
      ghost var mark := list.elts;
      var r := AddConfigRec(list, log, c, ind);
      if c.subset.Some? {
        r := AddConfigSet(list, log, c.subset.value, Some(ind + "  "));
      }
      AdvanceSet(mark, list.elts, log, s, i, ind);
      i := i + 1;
    }
    res := 0;
  }

  /** `lint_add_server_rec`: nothing for a server without configuration,
      otherwise its whole configuration at the outermost indent. */
  method AddServerRec(list: LineList, log: Log, s: Server) returns (res: int)
    requires ServerNamed(s)
    modifies list
    ensures res == 0
    ensures list.elts == old(list.elts) + ServerLines(log, s)
  {
    if s.conf.None? || s.conf.value.list == [] {
      return 0;
    }
    res := AddConfigSet(list, log, s.conf.value, None);
  }
}
