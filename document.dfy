/** The configuration file `mod_lint` writes: a header, the loaded modules,
    the main server's settings, the classes, the controls heading and the
    virtual hosts, in that order, stopping at the first failed write. */
module Document {
  import opened Wrappers
  import opened Host
  import opened Text
  import opened ParsedLines
  import opened Serializer
  import opened Decimal

  /** `MOD_LINT_VERSION`. */
  const Version: string := "mod_lint/0.0"

  /** `ServerType`: `SERVER_STANDALONE` or not. */
  datatype ServerType = ServerInetd | ServerStandalone

  /** A `pr_class_t`: its name, the text of each of its ACLs, and whether it
      is satisfied by any ACL (`PR_CLASS_SATISFY_ANY`) or needs all. */
  datatype ClassRec = ClassRec(name: string, acls: seq<string>, satisfyAny: bool)

  /** Everything of the host the writer reads. `servers` is `server_list`
      and `mainIndex` the position of `main_server` in it; `timestamp` is
      the formatted time, or `None` when `pr_gmtime` fails; `sharedModule`
      and `useCtrls` are the build flags `PR_SHARED_MODULE` and
      `PR_USE_CTRLS`. */
  datatype HostState = HostState(
    servers: seq<Server>,
    mainIndex: nat,
    maxInstances: nat,
    pidFile: string,
    scoreboardFile: string,
    scoreboardMutex: string,
    serverType: ServerType,
    socketBindTight: bool,
    tcpBacklog: int,
    useIPv6: bool,
    useReverseDNS: bool,
    classes: seq<ClassRec>,
    loadedModules: seq<string>,
    staticModules: seq<string>,
    sharedModule: bool,
    useCtrls: bool,
    timestamp: Option<string>)

  /** `main_server` is one of the servers, and every `CONF_PARAM` record has
      a name. */
  predicate ValidHost(h: HostState) {
    && h.mainIndex < |h.servers|
    && forall s :: s in h.servers ==> ServerNamed(s)
  }

  function MainServer(h: HostState): Server
    requires ValidHost(h)
  {
    h.servers[h.mainIndex]
  }

  // ---------------------------------------------------------------- header

  /** The first line of the file. */
  function HeaderText(timestamp: Option<string>): string {
    if timestamp.Some? then "# AUTO-GENERATED BY " + Version + " on " + timestamp.value + "\n"
    else "# AUTO-GENERATED BY " + Version + "\n"
  }

  function HeaderChunks(h: HostState): seq<string> {
    [HeaderText(h.timestamp)]
  }

  // --------------------------------------------------------------- modules

  /** `is_static_module`: whether a module of that name is compiled in. */
  function IsStaticModule(statics: seq<string>, name: string): (r: bool)
    ensures r <==> name in statics
  {
    if statics == [] then false
    else if statics[0] == name then true
    else
      assert statics == [statics[0]] + statics[1..];
      IsStaticModule(statics[1..], name)
  }

  /** The `LoadModule` line of a module. */
  function LoadLine(name: string): string {
    "  LoadModule mod_" + name + ".c\n"
  }

  /** One `LoadModule` line per loaded module that is not static, in list
      order. */
  function LoadLines(loaded: seq<string>, statics: seq<string>): (r: seq<string>)
    ensures forall i :: 0 <= i < |r| ==> exists j :: 0 <= j < |loaded| && loaded[j] !in statics && r[i] == LoadLine(loaded[j])
  {
    if loaded == [] then []
    else
      var rest := LoadLines(loaded[1..], statics);
      assert forall j :: 0 <= j < |loaded[1..]| ==> loaded[1..][j] == loaded[j + 1];
      (if IsStaticModule(statics, loaded[0]) then [] else [LoadLine(loaded[0])]) + rest
  }

  /** The lines of two runs of loaded modules are the lines of each. */
  lemma {:induction false} LoadLinesAppend(a: seq<string>, b: seq<string>, statics: seq<string>)
    ensures LoadLines(a + b, statics) == LoadLines(a, statics) + LoadLines(b, statics)
  {
    if a == [] {
      assert a + b == b;
    } else {
      assert (a + b)[0] == a[0] && (a + b)[1..] == a[1..] + b;
      LoadLinesAppend(a[1..], b, statics);
    }
  }

  /** Visiting one more loaded module adds its line unless it is static. */
  lemma LoadLinesPrefix(loaded: seq<string>, statics: seq<string>, j: nat)
    requires j < |loaded|
    ensures LoadLines(loaded[..j + 1], statics) ==
      LoadLines(loaded[..j], statics) + (if loaded[j] in statics then [] else [LoadLine(loaded[j])])
  {
    assert loaded[..j + 1] == loaded[..j] + [loaded[j]];
    LoadLinesAppend(loaded[..j], [loaded[j]], statics);
    assert [loaded[j]][1..] == [];
  }

  /** Every loaded module that is not static gets its line, right after
      the lines of the modules loaded before it: the lines come in list
      order and none is missing. */
  lemma LoadLinesComplete(loaded: seq<string>, statics: seq<string>, j: nat)
    requires j < |loaded| && loaded[j] !in statics
    ensures |LoadLines(loaded[..j], statics)| < |LoadLines(loaded, statics)|
    ensures LoadLines(loaded, statics)[|LoadLines(loaded[..j], statics)|] == LoadLine(loaded[j])
  {
    LoadLinesPrefix(loaded, statics, j);
    assert loaded == loaded[..j + 1] + loaded[j + 1..];
    LoadLinesAppend(loaded[..j + 1], loaded[j + 1..], statics);
  }

  /** A static module gets no line. */
  lemma LoadLinesSkipsStatic(loaded: seq<string>, statics: seq<string>, j: nat)
    requires j < |loaded| && loaded[j] in statics
    ensures LoadLines(loaded[..j + 1], statics) == LoadLines(loaded[..j], statics)
  {
    LoadLinesPrefix(loaded, statics, j);
    assert LoadLines(loaded[..j], statics) + [] == LoadLines(loaded[..j], statics);
  }

  const ModulesHeading: string := "\n# Modules\n\n"
  const OpenDso: string := "<IfModule mod_dso.c>\n"
  const CloseBlock: string := "</IfModule>\n"
  /** What `lint_write_modules` actually writes to end the block. */
  const CloseBlockAsWritten: string := "<IfModule>\n"

  /** The modules section, closing the `<IfModule>` block properly. */
  function ModuleChunks(h: HostState): seq<string> {
    if !h.sharedModule then []
    else [ModulesHeading + OpenDso] + LoadLines(h.loadedModules, h.staticModules) + [CloseBlock]
  }

  /** The modules section as `lint_write_modules` writes it. */
  function ModuleChunksAsWritten(h: HostState): seq<string> {
    if !h.sharedModule then []
    else [ModulesHeading + OpenDso] + LoadLines(h.loadedModules, h.staticModules) + [CloseBlockAsWritten]
  }

  /** Whether `s` starts with `p`. */
  predicate StartsWith(s: string, p: string) {
    |p| <= |s| && s[..|p|] == p
  }

  /** Opening `<IfModule` lines minus closing `</IfModule>` lines: zero for
      a balanced sequence of lines. */
  function TagBalance(lines: seq<string>): int {
    if lines == [] then 0
    else
      (if StartsWith(lines[0], "<IfModule") then 1 else if StartsWith(lines[0], "</IfModule") then -1 else 0)
      + TagBalance(lines[1..])
  }

  lemma TagBalanceAppend(a: seq<string>, b: seq<string>)
    ensures TagBalance(a + b) == TagBalance(a) + TagBalance(b)
  {
    if a != [] {
      assert (a + b)[0] == a[0] && (a + b)[1..] == a[1..] + b;
      TagBalanceAppend(a[1..], b);
    } else {
      assert a + b == b;
    }
  }

  /** `LoadModule` lines neither open nor close a block. */
  lemma {:induction false} LoadLinesNeutral(loaded: seq<string>, statics: seq<string>)
    ensures TagBalance(LoadLines(loaded, statics)) == 0
  {
    if loaded != [] {
      LoadLinesNeutral(loaded[1..], statics);
      var own := if IsStaticModule(statics, loaded[0]) then [] else [LoadLine(loaded[0])];
      TagBalanceAppend(own, LoadLines(loaded[1..], statics));
      if own != [] {
        assert own[0][..|"<IfModule"|] != "<IfModule" by { assert own[0][0] == ' '; }
        assert own[0][..|"</IfModule"|] != "</IfModule" by { assert own[0][0] == ' '; }
      }
    }
  }

  /** The lines of the `<IfModule>` block, from its opening line on. */
  function BlockLines(h: HostState, closer: string): seq<string> {
    [OpenDso] + LoadLines(h.loadedModules, h.staticModules) + [closer]
  }

  /** The block's first line opens it. */
  lemma OpenDsoOpens()
    ensures TagBalance([OpenDso]) == 1
  {
    assert [OpenDso][1..] == [];
    assert OpenDso[..|"<IfModule"|] == "<IfModule";
  }

  /** With the closing tag corrected, the block is balanced. */
  lemma ModuleBlockBalanced(h: HostState)
    ensures TagBalance(BlockLines(h, CloseBlock)) == 0
    ensures h.sharedModule ==> ModuleChunks(h)[|ModuleChunks(h)| - 1] == CloseBlock
  {
    LoadLinesNeutral(h.loadedModules, h.staticModules);
    OpenDsoOpens();
    TagBalanceAppend([OpenDso], LoadLines(h.loadedModules, h.staticModules));
    TagBalanceAppend([OpenDso] + LoadLines(h.loadedModules, h.staticModules), [CloseBlock]);
    assert TagBalance([CloseBlock]) == -1 by {
      assert [CloseBlock][1..] == [];
      assert CloseBlock[..|"<IfModule"|][1] != "<IfModule"[1];
      assert CloseBlock[..|"</IfModule"|] == "</IfModule";
    }
  }

  /** As written, the block ends by opening a second one: two blocks are
      open at the end of the section and neither is ever closed. */
  lemma ModuleBlockAsWrittenUnbalanced(h: HostState)
    ensures TagBalance(BlockLines(h, CloseBlockAsWritten)) == 2
    ensures h.sharedModule ==> ModuleChunksAsWritten(h)[|ModuleChunksAsWritten(h)| - 1] == CloseBlockAsWritten
  {
    LoadLinesNeutral(h.loadedModules, h.staticModules);
    OpenDsoOpens();
    TagBalanceAppend([OpenDso], LoadLines(h.loadedModules, h.staticModules));
    TagBalanceAppend([OpenDso] + LoadLines(h.loadedModules, h.staticModules), [CloseBlockAsWritten]);
    assert TagBalance([CloseBlockAsWritten]) == 1 by {
      assert [CloseBlockAsWritten][1..] == [];
      assert CloseBlockAsWritten[..|"<IfModule"|] == "<IfModule";
    }
  }

  // --------------------------------------------------------- server config

  /** The line for a directive copied from the parsed-line log: present
      exactly when the directive was logged, and then the text of the
      earliest line logged for it, with a newline. */
  function ParsedSlot(log: Log, directive: string): (r: Option<string>)
    ensures r.Some? <==> log.Some? && exists i :: 0 <= i < |log.value| && log.value[i].directive == directive
    ensures r.Some? ==> exists i :: 0 <= i < |log.value| && log.value[i].directive == directive
                                   && (forall j :: 0 <= j < i ==> log.value[j].directive != directive)
                                   && r.value == log.value[i].text + "\n"
  {
    var pl := FirstParsedLine(log, directive);
    if pl.Some? then
      var i := FirstIndex(log.value, directive).value;
      assert log.value[i].directive == directive;
      Some(pl.value.text + "\n")
    else None
  }

  /** How many lines `lint_write_server_config` may synthesize. */
  const SlotCount: nat := 18

  /** The `k`-th line `lint_write_server_config` synthesizes, in the order
      it pushes them; `None` where that line is left out. */
  function Slot(h: HostState, log: Log, k: nat): (r: Option<string>)
    requires ValidHost(h) && k < SlotCount
    ensures k == 2 ==> (r.Some? <==> h.maxInstances > 0)
    ensures k == 7 ==> (r.Some? <==> MainServer(h).admin.Some?)
    ensures k == 8 ==> (r.Some? <==> MainServer(h).serverName.Some?)
    ensures k in {1, 11, 13, 14, 15} ==> (r.Some? <==> FirstParsedLine(log, SlotDirective(k)).Some?)
    ensures k !in {1, 2, 7, 8, 11, 13, 14, 15} ==> r.Some?
  {
    var s := MainServer(h);
    if k == 0 then Some("DefaultAddress " + s.address + "\n")
    else if k == 1 then ParsedSlot(log, "MaxConnectionRate")
    else if k == 2 then (if h.maxInstances > 0 then Some("MaxInstances " + NatToString(h.maxInstances) + "\n") else None)
    else if k == 3 then Some("PidFile " + h.pidFile + "\n")
    else if k == 4 then Some("Port " + NatToString(s.port) + "\n")
    else if k == 5 then Some("ScoreboardFile " + h.scoreboardFile + "\n")
    else if k == 6 then Some("ScoreboardMutex " + h.scoreboardMutex + "\n")
    else if k == 7 then (if s.admin.Some? then Some("ServerAdmin \"" + s.admin.value + "\"\n") else None)
    else if k == 8 then (if s.serverName.Some? then Some("ServerName \"" + s.serverName.value + "\"\n") else None)
    else if k == 9 then Some(if h.serverType == ServerStandalone then "ServerType standalone\n" else "ServerType inetd\n")
    else if k == 10 then Some(if h.socketBindTight then "SocketBindTight on\n" else "SocketBindTight off\n")
    else if k == 11 then ParsedSlot(log, "SocketOptions")
    else if k == 12 then Some("TCPBacklog " + IntToString(h.tcpBacklog) + "\n")
    else if k == 13 then ParsedSlot(log, "TraceLog")
    else if k == 14 then ParsedSlot(log, "Trace")
    else if k == 15 then ParsedSlot(log, "TraceOptions")
    else if k == 16 then Some(if h.useIPv6 then "UseIPv6 on\n" else "UseIPv6 off\n")
    else Some(if h.useReverseDNS then "UseReverseDNS on\n" else "UseReverseDNS off\n")
  }

  /** The directive a copied slot looks up in the parsed-line log. */
  function SlotDirective(k: nat): string {
    if k == 1 then "MaxConnectionRate"
    else if k == 11 then "SocketOptions"
    else if k == 13 then "TraceLog"
    else if k == 14 then "Trace"
    else "TraceOptions"
  }

  /** The entries pushed for the first `n` slots. */
  function SlotLines(h: HostState, log: Log, n: nat): (r: seq<BufferedLine>)
    requires ValidHost(h) && n <= SlotCount
    ensures WellSized(r)
  {
    if n == 0 then []
    else
      var o := Slot(h, log, n - 1);
      SlotLines(h, log, n - 1) + (if o.Some? then [Line(o.value)] else [])
  }

  /** The buffer `lint_write_server_config` flushes: the synthesized lines,
      then the main server's configuration. */
  function ServerConfigLines(h: HostState, log: Log): seq<BufferedLine>
    requires ValidHost(h)
  {
    SlotLines(h, log, SlotCount) + ServerLines(log, MainServer(h))
  }

  lemma ServerConfigWellSized(h: HostState, log: Log)
    requires ValidHost(h)
    ensures WellSized(ServerConfigLines(h, log))
  {
    ServerIndented(log, MainServer(h));
  }

  const ServerHeading: string := "\n# Server Config\n\n"

  function ServerChunks(h: HostState, log: Log): seq<string>
    requires ValidHost(h)
  {
    [ServerHeading] + Texts(SortLines(ServerConfigLines(h, log)))
  }

  // --------------------------------------------------------------- classes

  function AclChunks(acls: seq<string>): (r: seq<string>)
    ensures |r| == |acls| && forall i :: 0 <= i < |acls| ==> r[i] == "  # From " + acls[i] + "\n"
  {
    if acls == [] then [] else ["  # From " + acls[0] + "\n"] + AclChunks(acls[1..])
  }

  function SatisfyLine(c: ClassRec): string {
    "  Satisfy " + (if c.satisfyAny then "any" else "all") + "\n"
  }

  /** One `<Class>` block. */
  function ClassBlock(c: ClassRec): seq<string> {
    ["\n<Class " + c.name + ">\n"] + AclChunks(c.acls) + [SatisfyLine(c), "</Class>\n"]
  }

  function ClassBlocks(cs: seq<ClassRec>): seq<string> {
    if cs == [] then [] else ClassBlock(cs[0]) + ClassBlocks(cs[1..])
  }

  const ClassesHeading: string := "\n# Classes\n"

  function ClassChunks(h: HostState): seq<string> {
    [ClassesHeading] + ClassBlocks(h.classes)
  }

  // -------------------------------------------------------------- controls

  function CtrlsChunks(h: HostState): seq<string> {
    if h.useCtrls then ["\n# Controls\n\n"] else []
  }

  // --------------------------------------------------------- virtual hosts

  /** The shared buffer after `lint_write_vhosts` has visited the first `n`
      servers: every server but `main_server` adds its configuration. */
  function VhostLinesUpTo(h: HostState, log: Log, n: nat): seq<BufferedLine>
    requires ValidHost(h) && n <= |h.servers|
  {
    if n == 0 then []
    else
      VhostLinesUpTo(h, log, n - 1)
      + (if n - 1 == h.mainIndex then [] else ServerLines(log, h.servers[n - 1]))
  }

  function VhostLines(h: HostState, log: Log): seq<BufferedLine>
    requires ValidHost(h)
  {
    VhostLinesUpTo(h, log, |h.servers|)
  }

  /** The configuration lines of a list of servers, end to end. */
  function ServersLines(log: Log, ss: seq<Server>): seq<BufferedLine>
    requires forall s :: s in ss ==> ServerNamed(s)
  {
    if ss == [] then []
    else ServersLines(log, ss[..|ss| - 1]) + ServerLines(log, ss[|ss| - 1])
  }

  lemma ServersLinesSnoc(log: Log, ss: seq<Server>, x: Server)
    requires forall s :: s in ss ==> ServerNamed(s)
    requires ServerNamed(x)
    ensures ServersLines(log, ss + [x]) == ServersLines(log, ss) + ServerLines(log, x)
  {
    assert (ss + [x])[..|ss|] == ss;
  }

  /** The virtual-host buffer holds exactly the lines of every server other
      than `main_server`, in list order. */
  lemma {:induction false} VhostsSkipMain(h: HostState, log: Log, n: nat)
    requires ValidHost(h) && n <= |h.servers|
    ensures n <= h.mainIndex ==> VhostLinesUpTo(h, log, n) == ServersLines(log, h.servers[..n])
    ensures n > h.mainIndex ==>
      VhostLinesUpTo(h, log, n) == ServersLines(log, h.servers[..h.mainIndex] + h.servers[h.mainIndex + 1..n])
  {
    var m := h.mainIndex;
    if n > 0 {
      VhostsSkipMain(h, log, n - 1);
      if n - 1 < m {
        VisitBeforeMain(h, log, n);
      } else if n - 1 == m {
        VisitMain(h, log);
      } else {
        VisitAfterMain(h, log, n);
      }
    }
  }

  lemma VisitBeforeMain(h: HostState, log: Log, n: nat)
    requires ValidHost(h) && 0 < n <= h.mainIndex
    requires VhostLinesUpTo(h, log, n - 1) == ServersLines(log, h.servers[..n - 1])
    ensures VhostLinesUpTo(h, log, n) == ServersLines(log, h.servers[..n])
  {
    var x := h.servers[n - 1];
    assert x in h.servers;
    assert h.servers[..n] == h.servers[..n - 1] + [x];
    ServersLinesSnoc(log, h.servers[..n - 1], x);
  }

  lemma VisitMain(h: HostState, log: Log)
    requires ValidHost(h)
    requires VhostLinesUpTo(h, log, h.mainIndex) == ServersLines(log, h.servers[..h.mainIndex])
    ensures VhostLinesUpTo(h, log, h.mainIndex + 1)
      == ServersLines(log, h.servers[..h.mainIndex] + h.servers[h.mainIndex + 1..h.mainIndex + 1])
  {
    var m := h.mainIndex;
    assert h.servers[..m] + h.servers[m + 1..m + 1] == h.servers[..m];
  }

  lemma VisitAfterMain(h: HostState, log: Log, n: nat)
    requires ValidHost(h) && h.mainIndex + 1 < n <= |h.servers|
    requires VhostLinesUpTo(h, log, n - 1)
      == ServersLines(log, h.servers[..h.mainIndex] + h.servers[h.mainIndex + 1..n - 1])
    ensures VhostLinesUpTo(h, log, n)
      == ServersLines(log, h.servers[..h.mainIndex] + h.servers[h.mainIndex + 1..n])
  {
    var m := h.mainIndex;
    var x := h.servers[n - 1];
    assert x in h.servers;
    SkipSnoc(h.servers, m, n);
    ServersLinesSnoc(log, h.servers[..m] + h.servers[m + 1..n - 1], x);
  }

  /** Extending a list with one element skipped by its next element. */
  lemma SkipSnoc<T>(s: seq<T>, m: nat, n: nat)
    requires m + 1 < n <= |s|
    ensures s[..m] + s[m + 1..n] == (s[..m] + s[m + 1..n - 1]) + [s[n - 1]]
    ensures forall x :: x in s[..m] + s[m + 1..n - 1] ==> x in s
  {
    assert s[m + 1..n] == s[m + 1..n - 1] + [s[n - 1]];
    forall x | x in s[..m] + s[m + 1..n - 1]
      ensures x in s
    {
      if x in s[..m] {
        var i :| 0 <= i < m && s[..m][i] == x;
        assert s[i] == x;
      } else {
        var i :| 0 <= i < |s[m + 1..n - 1]| && s[m + 1..n - 1][i] == x;
        assert s[m + 1 + i] == x;
      }
    }
  }

  lemma {:induction false} VhostLinesWellSized(h: HostState, log: Log, n: nat)
    requires ValidHost(h) && n <= |h.servers|
    ensures WellSized(VhostLinesUpTo(h, log, n))
  {
    if n > 0 {
      VhostLinesWellSized(h, log, n - 1);
      ServerIndented(log, h.servers[n - 1]);
    }
  }

  const VhostsHeading: string := "\n# VirtualHosts\n"

  function VhostChunks(h: HostState, log: Log): seq<string>
    requires ValidHost(h)
  {
    [VhostsHeading] + Texts(SortLines(VhostLines(h, log)))
  }

  // -------------------------------------------------------------- document

  /** Everything `lint_write_config` writes, in order. */
  function DocumentChunks(h: HostState, log: Log): seq<string>
    requires ValidHost(h)
  {
    HeaderChunks(h) + ModuleChunks(h) + ServerChunks(h, log) + ClassChunks(h) + CtrlsChunks(h) + VhostChunks(h, log)
  }

  /** Everything `lint_write_config` writes as the code stands, with the
      modules block ended by `CloseBlockAsWritten`. */
  function DocumentChunksAsWritten(h: HostState, log: Log): seq<string>
    requires ValidHost(h)
  {
    HeaderChunks(h) + ModuleChunksAsWritten(h) + ServerChunks(h, log) + ClassChunks(h) + CtrlsChunks(h) + VhostChunks(h, log)
  }

  /** Without shared modules there is no modules block, and the file as
      the code writes it is the file with the closing tag corrected. */
  lemma DocumentAsWrittenSame(h: HostState, log: Log)
    requires ValidHost(h) && !h.sharedModule
    ensures DocumentChunksAsWritten(h, log) == DocumentChunks(h, log)
  {
    assert ModuleChunksAsWritten(h) == ModuleChunks(h);
  }

  /** With shared modules, the file as the code writes it and the file with
      the closing tag corrected agree everywhere but at the one chunk that
      ends the modules block: `</IfModule>` there, `<IfModule>` as written. */
  lemma DocumentAsWrittenDiffers(h: HostState, log: Log)
    requires ValidHost(h) && h.sharedModule
    ensures |HeaderChunks(h)| + |ModuleChunks(h)| - 1 < |DocumentChunks(h, log)|
    ensures DocumentChunks(h, log)[|HeaderChunks(h)| + |ModuleChunks(h)| - 1] == CloseBlock
    ensures DocumentChunksAsWritten(h, log) == DocumentChunks(h, log)[|HeaderChunks(h)| + |ModuleChunks(h)| - 1 := CloseBlockAsWritten]
  {
    var pre := [ModulesHeading + OpenDso] + LoadLines(h.loadedModules, h.staticModules);
    ReplaceLast(pre, CloseBlock, CloseBlockAsWritten);
    SixReplace(HeaderChunks(h), ModuleChunks(h), ModuleChunksAsWritten(h), ServerChunks(h, log), ClassChunks(h), CtrlsChunks(h), VhostChunks(h, log), |pre|, CloseBlockAsWritten);
  }

  /** Replacing one element of the second of six pieces replaces it in
      their concatenation. */
  lemma SixReplace<T>(a: seq<T>, m: seq<T>, m': seq<T>, c: seq<T>, d: seq<T>, e: seq<T>, f: seq<T>, j: nat, x: T)
    requires j < |m| && m' == m[j := x]
    ensures |a| + j < |a + m + c + d + e + f|
    ensures (a + m + c + d + e + f)[|a| + j] == m[j]
    ensures a + m' + c + d + e + f == (a + m + c + d + e + f)[|a| + j := x]
  {
    var k := |a| + j;
    ReplaceInSuffix(a, m, j, x);
    ReplaceInPrefix(a + m, c, k, x);
    ReplaceInPrefix(a + m + c, d, k, x);
    ReplaceInPrefix(a + m + c + d, e, k, x);
    ReplaceInPrefix(a + m + c + d + e, f, k, x);
  }

  lemma ReplaceLast<T>(p: seq<T>, y: T, x: T)
    ensures (p + [y])[|p| := x] == p + [x]
  {
  }

  lemma ReplaceInPrefix<T>(p: seq<T>, q: seq<T>, k: nat, x: T)
    requires k < |p|
    ensures p[k := x] + q == (p + q)[k := x]
  {
  }

  lemma ReplaceInSuffix<T>(p: seq<T>, q: seq<T>, k: nat, x: T)
    requires k < |q|
    ensures p + q[k := x] == (p + q)[|p| + k := x]
  {
  }
}
