/** The section writers of `mod_lint` and `lint_write_config`, which opens
    the destination, writes the sections in order and closes it. Each
    writer returns 0 or -1 and is proved to write exactly its section's
    chunks, stopping at the first failed write. */
module Writer {
  import opened Wrappers
  import opened Host
  import opened Fsio
  import opened Text
  import opened ParsedLines
  import opened Serializer
  import opened Decimal
  import opened Document

  /** `lint_write_fmt` on an open handle; `done` are the chunks written
      since the file held `out0` after `calls0` calls. */
  method Put(fh: FileHandle, text: string, ghost out0: string, ghost calls0: nat, ghost done: seq<string>)
    returns (ok: bool)
    requires Ran(out0, calls0, done, fh.accepts, fh.output, fh.calls, true)
    modifies fh
    ensures Ran(out0, calls0, done + [text], fh.accepts, fh.output, fh.calls, ok)
    ensures fh.closed == old(fh.closed)
  {
    ghost var outMid, callsMid := fh.output, fh.calls;
    var r := WriteFmt(fh, Some(text));
    ok := r.Success?;
    RanChain(out0, calls0, done, [text], fh.accepts, outMid, callsMid, fh.output, fh.calls, ok);
  }

  /** `lint_write_buffered_lines` on an open handle, tracked like `Put`. */
  method Flush(fh: FileHandle, list: LineList, ghost out0: string, ghost calls0: nat, ghost done: seq<string>)
    returns (ok: bool)
    requires Ran(out0, calls0, done, fh.accepts, fh.output, fh.calls, true)
    requires WellSized(list.elts)
    modifies fh, list
    ensures list.elts == SortLines(old(list.elts))
    ensures Ran(out0, calls0, done + Texts(SortLines(old(list.elts))), fh.accepts, fh.output, fh.calls, ok)
    ensures fh.closed == old(fh.closed)
  {
    ghost var outMid, callsMid := fh.output, fh.calls;
    var r := WriteBufferedLines(fh, list);
    ok := r.Success?;
    RanChain(out0, calls0, done, Texts(list.elts), fh.accepts, outMid, callsMid, fh.output, fh.calls, ok);
  }

  /** `lint_write_header`: the header line written by `lint_write_text`,
      whose result it returns: the number of bytes written, or -1. */
  method WriteHeader(fh: FileHandle, h: HostState) returns (res: int)
    modifies fh
    ensures res == |HeaderText(h.timestamp)| || res == -1
    ensures Wrote(fh, old(fh.output), old(fh.calls), HeaderChunks(h), res >= 0)
    ensures fh.closed == old(fh.closed)
  {
    RanNothing(fh.output, fh.calls, fh.accepts);
    var ok := Put(fh, HeaderText(h.timestamp), fh.output, fh.calls, []);
    assert [] + [HeaderText(h.timestamp)] == HeaderChunks(h);
    res := if ok then |HeaderText(h.timestamp)| else -1;
  }

  /** What `lint_write_modules` writes for one loaded module. */
  function LoadChunk(name: string, statics: seq<string>): seq<string> {
    if IsStaticModule(statics, name) then [] else [LoadLine(name)]
  }

  /** Moving past module `i` of the modules section. */
  lemma ModulesAdvance(full: seq<string>, done: seq<string>, loaded: seq<string>, statics: seq<string>, i: nat)
    requires i < |loaded|
    requires full == done + LoadLines(loaded[i..], statics) + [CloseBlock]
    ensures full == (done + LoadChunk(loaded[i], statics)) + LoadLines(loaded[i + 1..], statics) + [CloseBlock]
  {
    assert loaded[i..][0] == loaded[i] && loaded[i..][1..] == loaded[i + 1..];
  }

  /** `lint_write_modules`, with the block closed by `</IfModule>`. */
  method WriteModules(fh: FileHandle, h: HostState) returns (res: int)
    modifies fh
    ensures res == 0 || res == -1
    ensures Wrote(fh, old(fh.output), old(fh.calls), ModuleChunks(h), res == 0)
    ensures fh.closed == old(fh.closed)
  {
    if !h.sharedModule {
      RanNothing(fh.output, fh.calls, fh.accepts);
      assert ModuleChunks(h) == [];
      return 0;
    }
    ghost var out0, calls0 := fh.output, fh.calls;
    ghost var full := ModuleChunks(h);
    var loaded := h.loadedModules;
    RanNothing(out0, calls0, fh.accepts);
    var ok := Put(fh, ModulesHeading + OpenDso, out0, calls0, []);
    ghost var done: seq<string> := [ModulesHeading + OpenDso];
    assert [] + done == done && full == done + full[1..];
    if !ok {
      RanStops(out0, calls0, done, full[1..], fh.accepts, fh.output, fh.calls);
      return -1;
    }
    var i := 0;
    while i < |loaded|
      invariant 0 <= i <= |loaded| && fh.closed == old(fh.closed)
      invariant full == done + LoadLines(loaded[i..], h.staticModules) + [CloseBlock]
      invariant Ran(out0, calls0, done, fh.accepts, fh.output, fh.calls, true)
    {
      var name := loaded[i];
      ModulesAdvance(full, done, loaded, h.staticModules, i);
      var isStatic := IsStaticModule(h.staticModules, name);
      if !isStatic {
        ok := Put(fh, LoadLine(name), out0, calls0, done);
        if !ok {
          assert full == (done + [LoadLine(name)]) + (LoadLines(loaded[i + 1..], h.staticModules) + [CloseBlock]);
          RanStops(out0, calls0, done + [LoadLine(name)], LoadLines(loaded[i + 1..], h.staticModules) + [CloseBlock],
            fh.accepts, fh.output, fh.calls);
          return -1;
        }
      } else {
        assert done + LoadChunk(name, h.staticModules) == done;
      }
      done := done + LoadChunk(name, h.staticModules);
      i := i + 1;
    }
    assert loaded[i..] == [] && done + [] + [CloseBlock] == done + [CloseBlock];
    ok := Put(fh, CloseBlock, out0, calls0, done);
    res := if ok then 0 else -1;
  }

  /** One step of `lint_write_server_config`'s buffering: `line`, the
      text for slot `k` or `None` where that slot is left out, is pushed
      when present. */
  method PushSlot(list: LineList, h: HostState, log: Log, k: nat, line: Option<string>)
    requires ValidHost(h) && k < SlotCount
    requires line == Slot(h, log, k) && list.elts == SlotLines(h, log, k)
    modifies list
    ensures list.elts == SlotLines(h, log, k + 1)
  {
    if line.Some? {
      var added := AddFmt(Some(Pool), list, Some(line.value));
    }
  }

  /** A copied step of `lint_write_server_config`: the first parsed line
      for the slot's directive is pushed when there is one. */
  method PushParsedSlot(list: LineList, h: HostState, log: Log, k: nat)
    requires ValidHost(h) && k in {1, 11, 13, 14, 15}
    requires list.elts == SlotLines(h, log, k)
    modifies list
    ensures list.elts == SlotLines(h, log, k + 1)
  {
    var pl := FindParsedLine(log, SlotDirective(k));
    PushSlot(list, h, log, k, if pl.Some? then Some(pl.value.text + "\n") else None);
  }

  /** The first six lines `lint_write_server_config` synthesizes: the
      main server's address, connection rate, instance limit, pid file,
      port and scoreboard file. */
  method BufferAddressSlots(list: LineList, h: HostState, log: Log)
    requires ValidHost(h) && list.elts == []
    modifies list
    ensures list.elts == SlotLines(h, log, 6)
  {
    var s := h.servers[h.mainIndex];
    PushSlot(list, h, log, 0, Some("DefaultAddress " + s.address + "\n"));
    PushParsedSlot(list, h, log, 1);
    PushSlot(list, h, log, 2,
      if h.maxInstances > 0 then Some("MaxInstances " + NatToString(h.maxInstances) + "\n") else None);
    PushSlot(list, h, log, 3, Some("PidFile " + h.pidFile + "\n"));
    PushSlot(list, h, log, 4, Some("Port " + NatToString(s.port) + "\n"));
    PushSlot(list, h, log, 5, Some("ScoreboardFile " + h.scoreboardFile + "\n"));
  }

  /** The next six: scoreboard mutex, administrator, server name, server
      type, socket binding and socket options. */
  method BufferServerSlots(list: LineList, h: HostState, log: Log)
    requires ValidHost(h) && list.elts == SlotLines(h, log, 6)
    modifies list
    ensures list.elts == SlotLines(h, log, 12)
  {
    var s := h.servers[h.mainIndex];
    PushSlot(list, h, log, 6, Some("ScoreboardMutex " + h.scoreboardMutex + "\n"));
    PushSlot(list, h, log, 7, if s.admin.Some? then Some("ServerAdmin \"" + s.admin.value + "\"\n") else None);
    PushSlot(list, h, log, 8,
      if s.serverName.Some? then Some("ServerName \"" + s.serverName.value + "\"\n") else None);
    PushSlot(list, h, log, 9,
      Some(if h.serverType == ServerStandalone then "ServerType standalone\n" else "ServerType inetd\n"));
    PushSlot(list, h, log, 10, Some(if h.socketBindTight then "SocketBindTight on\n" else "SocketBindTight off\n"));
    PushParsedSlot(list, h, log, 11);
  }

  /** The next four: listen backlog and the three trace directives. */
  method BufferTraceSlots(list: LineList, h: HostState, log: Log)
    requires ValidHost(h) && list.elts == SlotLines(h, log, 12)
    modifies list
    ensures list.elts == SlotLines(h, log, 16)
  {
    PushSlot(list, h, log, 12, Some("TCPBacklog " + IntToString(h.tcpBacklog) + "\n"));
    PushParsedSlot(list, h, log, 13);
    PushParsedSlot(list, h, log, 14);
    PushParsedSlot(list, h, log, 15);
  }

  /** The last two: IPv6 and reverse DNS. */
  method BufferSwitchSlots(list: LineList, h: HostState, log: Log)
    requires ValidHost(h) && list.elts == SlotLines(h, log, 16)
    modifies list
    ensures list.elts == SlotLines(h, log, SlotCount)
  {
    PushSlot(list, h, log, 16, Some(if h.useIPv6 then "UseIPv6 on\n" else "UseIPv6 off\n"));
    PushSlot(list, h, log, 17, Some(if h.useReverseDNS then "UseReverseDNS on\n" else "UseReverseDNS off\n"));
  }

  /** `lint_write_server_config`: the heading, then the synthesized lines
      and the main server's configuration through one sorted buffer. */
  method WriteServerConfig(fh: FileHandle, h: HostState, log: Log) returns (res: int)
    requires ValidHost(h)
    modifies fh
    ensures res == 0 || res == -1
    ensures Wrote(fh, old(fh.output), old(fh.calls), ServerChunks(h, log), res == 0)
    ensures fh.closed == old(fh.closed)
  {
    ghost var out0, calls0 := fh.output, fh.calls;
    RanNothing(out0, calls0, fh.accepts);
    var ok := Put(fh, ServerHeading, out0, calls0, []);
    assert [] + [ServerHeading] == [ServerHeading];
    if !ok {
      RanStops(out0, calls0, [ServerHeading], Texts(SortLines(ServerConfigLines(h, log))), fh.accepts, fh.output, fh.calls);
      return -1;
    }
    var list := new LineList();
    BufferServerConfig(list, h, log);
    ServerConfigWellSized(h, log);
    ok := Flush(fh, list, out0, calls0, [ServerHeading]);
    res := if ok then 0 else -1;
  }

  /** What `lint_write_server_config` buffers: the synthesized lines, then
      the main server's configuration tree. */
  method BufferServerConfig(list: LineList, h: HostState, log: Log)
    requires ValidHost(h) && list.elts == []
    modifies list
    ensures list.elts == ServerConfigLines(h, log)
  {
    BufferAddressSlots(list, h, log);
    BufferServerSlots(list, h, log);
    BufferTraceSlots(list, h, log);
    BufferSwitchSlots(list, h, log);
    var added := AddServerRec(list, log, h.servers[h.mainIndex]);
  }

  /** A write that failed once `done` was written fails the whole of
      `full` that `done` begins. */
  lemma StopsAt(out0: string, calls0: nat, done: seq<string>, rest: seq<string>, full: seq<string>,
                accepts: nat -> bool, out1: string, calls1: nat)
    requires full == done + rest
    requires Ran(out0, calls0, done, accepts, out1, calls1, false)
    ensures Ran(out0, calls0, full, accepts, out1, calls1, false)
  {
    RanStops(out0, calls0, done, rest, accepts, out1, calls1);
  }

  /** Moving past class `i`: its block opens the rest. */
  lemma ClassesAdvance(full: seq<string>, done: seq<string>, cs: seq<ClassRec>, i: nat)
    requires i < |cs|
    requires full == done + ClassBlocks(cs[i..])
    ensures full == (done + ClassBlock(cs[i])) + ClassBlocks(cs[i + 1..])
  {
    assert cs[i..][0] == cs[i] && cs[i..][1..] == cs[i + 1..];
  }

  /** Moving past ACL `j` of a class. */
  lemma AclsAdvance(full: seq<string>, done: seq<string>, acls: seq<string>, tail: seq<string>, j: nat)
    requires j < |acls|
    requires full == done + AclChunks(acls[j..]) + tail
    ensures full == (done + ["  # From " + acls[j] + "\n"]) + (AclChunks(acls[j + 1..]) + tail)
  {
    assert acls[j..][0] == acls[j] && acls[j..][1..] == acls[j + 1..];
  }

  /** One pass of `lint_write_classes`' loop: the `<Class>` block of `c`. */
  method WriteClassBlock(fh: FileHandle, c: ClassRec, ghost out0: string, ghost calls0: nat, ghost done: seq<string>)
    returns (ok: bool)
    requires Ran(out0, calls0, done, fh.accepts, fh.output, fh.calls, true)
    modifies fh
    ensures Ran(out0, calls0, done + ClassBlock(c), fh.accepts, fh.output, fh.calls, ok)
    ensures fh.closed == old(fh.closed)
  {
    ghost var full := done + ClassBlock(c);
    ghost var tail := [SatisfyLine(c), "</Class>\n"];
    ghost var sofar := done + ["\n<Class " + c.name + ">\n"];
    var acls := c.acls;
    assert acls[0..] == acls && full == sofar + AclChunks(acls[0..]) + tail;
    ok := Put(fh, "\n<Class " + c.name + ">\n", out0, calls0, done);
    if !ok {
      StopsAt(out0, calls0, sofar, AclChunks(acls) + tail, full, fh.accepts, fh.output, fh.calls);
      return;
    }
    var j := 0;
    while j < |acls|
      invariant 0 <= j <= |acls| && fh.closed == old(fh.closed)
      invariant full == sofar + AclChunks(acls[j..]) + tail
      invariant Ran(out0, calls0, sofar, fh.accepts, fh.output, fh.calls, true)
    {
      AclsAdvance(full, sofar, acls, tail, j);
      ok := Put(fh, "  # From " + acls[j] + "\n", out0, calls0, sofar);
      sofar := sofar + ["  # From " + acls[j] + "\n"];
      if !ok {
        StopsAt(out0, calls0, sofar, AclChunks(acls[j + 1..]) + tail, full, fh.accepts, fh.output, fh.calls);
        return;
      }
      j := j + 1;
    }
    assert acls[j..] == [] && full == sofar + [SatisfyLine(c)] + ["</Class>\n"];
    ok := Put(fh, SatisfyLine(c), out0, calls0, sofar);
    sofar := sofar + [SatisfyLine(c)];
    if !ok {
      StopsAt(out0, calls0, sofar, ["</Class>\n"], full, fh.accepts, fh.output, fh.calls);
      return;
    }
    ok := Put(fh, "</Class>\n", out0, calls0, sofar);
  }

  /** `lint_write_classes`. */
  method WriteClasses(fh: FileHandle, h: HostState) returns (res: int)
    modifies fh
    ensures res == 0 || res == -1
    ensures Wrote(fh, old(fh.output), old(fh.calls), ClassChunks(h), res == 0)
    ensures fh.closed == old(fh.closed)
  {
    ghost var out0, calls0 := fh.output, fh.calls;
    ghost var full := ClassChunks(h);
    RanNothing(out0, calls0, fh.accepts);
    var ok := Put(fh, ClassesHeading, out0, calls0, []);
    ghost var done: seq<string> := [ClassesHeading];
    assert [] + done == done;
    if !ok {
      StopsAt(out0, calls0, done, ClassBlocks(h.classes), full, fh.accepts, fh.output, fh.calls);
      return -1;
    }
    var cs := h.classes;
    assert cs[0..] == cs;
    var i := 0;
    while i < |cs|
      invariant 0 <= i <= |cs| && fh.closed == old(fh.closed)
      invariant full == done + ClassBlocks(cs[i..])
      invariant Ran(out0, calls0, done, fh.accepts, fh.output, fh.calls, true)
    {
      ClassesAdvance(full, done, cs, i);
      ok := WriteClassBlock(fh, cs[i], out0, calls0, done);
      done := done + ClassBlock(cs[i]);
      if !ok {
        StopsAt(out0, calls0, done, ClassBlocks(cs[i + 1..]), full, fh.accepts, fh.output, fh.calls);
        return -1;
      }
      i := i + 1;
    }
    assert cs[i..] == [] && done + [] == done;
    res := 0;
  }

  /** `lint_write_ctrls`: a heading when controls are compiled in. */
  method WriteCtrls(fh: FileHandle, h: HostState) returns (res: int)
    modifies fh
    ensures res == 0 || res == -1
    ensures Wrote(fh, old(fh.output), old(fh.calls), CtrlsChunks(h), res == 0)
    ensures fh.closed == old(fh.closed)
  {
    RanNothing(fh.output, fh.calls, fh.accepts);
    res := 0;
    if h.useCtrls {
      var ok := Put(fh, "\n# Controls\n\n", fh.output, fh.calls, []);
      assert [] + ["\n# Controls\n\n"] == CtrlsChunks(h);
      res := if ok then 0 else -1;
    }
  }

  /** One pass of `lint_write_vhosts`' loop: server `i` adds its lines
      unless it is `main_server`. */
  method VisitServer(list: LineList, h: HostState, log: Log, i: nat)
    requires ValidHost(h) && i < |h.servers|
    requires list.elts == VhostLinesUpTo(h, log, i)
    modifies list
    ensures list.elts == VhostLinesUpTo(h, log, i + 1)
  {
    if i != h.mainIndex {
      assert h.servers[i] in h.servers;
      var added := AddServerRec(list, log, h.servers[i]);
    }
  }

  /** The loop of `lint_write_vhosts`: every server but `main_server`
      adds its configuration to the shared buffer, in list order. */
  method BufferVhosts(list: LineList, h: HostState, log: Log)
    requires ValidHost(h) && list.elts == []
    modifies list
    ensures list.elts == VhostLines(h, log)
  {
    var i := 0;
    while i < |h.servers|
      invariant 0 <= i <= |h.servers|
      invariant list.elts == VhostLinesUpTo(h, log, i)
    {
      VisitServer(list, h, log, i);
      i := i + 1;
    }
  }

  /** `lint_write_vhosts`: every server but `main_server` into one shared
      buffer, flushed sorted after the heading. */
  method WriteVhosts(fh: FileHandle, h: HostState, log: Log) returns (res: int)
    requires ValidHost(h)
    modifies fh
    ensures res == 0 || res == -1
    ensures Wrote(fh, old(fh.output), old(fh.calls), VhostChunks(h, log), res == 0)
    ensures fh.closed == old(fh.closed)
  {
    ghost var out0, calls0 := fh.output, fh.calls;
    RanNothing(out0, calls0, fh.accepts);
    var ok := Put(fh, VhostsHeading, out0, calls0, []);
    assert [] + [VhostsHeading] == [VhostsHeading];
    if !ok {
      StopsAt(out0, calls0, [VhostsHeading], Texts(SortLines(VhostLines(h, log))), VhostChunks(h, log),
        fh.accepts, fh.output, fh.calls);
      return -1;
    }
    var list := new LineList();
    BufferVhosts(list, h, log);
    VhostLinesWellSized(h, log, |h.servers|);
    ok := Flush(fh, list, out0, calls0, [VhostsHeading]);
    res := if ok then 0 else -1;
  }

  /** The document's sections in the order `lint_write_config` writes
      them. */
  function DocumentSections(h: HostState, log: Log): (r: seq<seq<string>>)
    requires ValidHost(h)
    ensures |r| == 6
  {
    [HeaderChunks(h), ModuleChunks(h), ServerChunks(h, log), ClassChunks(h), CtrlsChunks(h), VhostChunks(h, log)]
  }

  /** Which section is which. */
  lemma SectionsAt(h: HostState, log: Log)
    requires ValidHost(h)
    ensures var secs := DocumentSections(h, log);
      && secs[0] == HeaderChunks(h) && secs[1] == ModuleChunks(h) && secs[2] == ServerChunks(h, log)
      && secs[3] == ClassChunks(h) && secs[4] == CtrlsChunks(h) && secs[5] == VhostChunks(h, log)
  {
    SixAt(HeaderChunks(h), ModuleChunks(h), ServerChunks(h, log), ClassChunks(h), CtrlsChunks(h), VhostChunks(h, log));
  }

  lemma SixAt<T>(a: T, b: T, c: T, d: T, e: T, f: T)
    ensures var s := [a, b, c, d, e, f];
      s[0] == a && s[1] == b && s[2] == c && s[3] == d && s[4] == e && s[5] == f
  {
  }

  /** Sections written one after another. */
  function Joined(secs: seq<seq<string>>): seq<string> {
    if secs == [] then [] else Joined(secs[..|secs| - 1]) + secs[|secs| - 1]
  }

  /** Six sections joined are the six concatenated. */
  lemma JoinedSix(a: seq<string>, b: seq<string>, c: seq<string>, d: seq<string>, e: seq<string>, f: seq<string>)
    ensures Joined([a, b, c, d, e, f]) == a + b + c + d + e + f
  {
    assert [a][..0] == [] && [] + a == a;
    assert Joined([a]) == a;
    assert [a, b][..1] == [a];
    assert Joined([a, b]) == a + b;
    assert [a, b, c][..2] == [a, b];
    assert Joined([a, b, c]) == a + b + c;
    assert [a, b, c, d][..3] == [a, b, c];
    assert Joined([a, b, c, d]) == a + b + c + d;
    assert [a, b, c, d, e][..4] == [a, b, c, d];
    assert Joined([a, b, c, d, e]) == a + b + c + d + e;
    assert [a, b, c, d, e, f][..5] == [a, b, c, d, e];
  }

  /** The document is its sections, joined. */
  lemma DocumentJoined(h: HostState, log: Log)
    requires ValidHost(h)
    ensures Joined(DocumentSections(h, log)) == DocumentChunks(h, log)
  {
    JoinedSix(HeaderChunks(h), ModuleChunks(h), ServerChunks(h, log), ClassChunks(h), CtrlsChunks(h), VhostChunks(h, log));
  }

  /** A failure inside the first `k` sections fails them all. */
  lemma {:induction false} JoinedStops(out0: string, calls0: nat, secs: seq<seq<string>>, k: nat,
                                       accepts: nat -> bool, out1: string, calls1: nat)
    requires k <= |secs|
    requires Ran(out0, calls0, Joined(secs[..k]), accepts, out1, calls1, false)
    ensures Ran(out0, calls0, Joined(secs), accepts, out1, calls1, false)
    decreases |secs| - k
  {
    if k < |secs| {
      assert secs[..k + 1][..k] == secs[..k];
      RanStops(out0, calls0, Joined(secs[..k]), secs[k], accepts, out1, calls1);
      JoinedStops(out0, calls0, secs, k + 1, accepts, out1, calls1);
    } else {
      assert secs[..k] == secs;
    }
  }

  /** Writing section `k` after the first `k` either extends a successful
      run by one section or fails the whole. */
  lemma JoinedStep(out0: string, calls0: nat, secs: seq<seq<string>>, k: nat, accepts: nat -> bool,
                   outMid: string, callsMid: nat, out1: string, calls1: nat, ok: bool)
    requires k < |secs|
    requires Ran(out0, calls0, Joined(secs[..k]), accepts, outMid, callsMid, true)
    requires Ran(outMid, callsMid, secs[k], accepts, out1, calls1, ok)
    ensures ok ==> Ran(out0, calls0, Joined(secs[..k + 1]), accepts, out1, calls1, true)
    ensures !ok ==> Ran(out0, calls0, Joined(secs), accepts, out1, calls1, false)
  {
    assert secs[..k + 1][..k] == secs[..k] && secs[..k + 1][k] == secs[k];
    assert Joined(secs[..k + 1]) == Joined(secs[..k]) + secs[k];
    RanChain(out0, calls0, Joined(secs[..k]), secs[k], accepts, outMid, callsMid, out1, calls1, ok);
    if !ok {
      JoinedStops(out0, calls0, secs, k + 1, accepts, out1, calls1);
    }
  }

  /** The sections of `lint_write_config` in order, up to the first that
      fails. */
  method WriteSections(fh: FileHandle, h: HostState, log: Log) returns (ok: bool)
    requires ValidHost(h)
    modifies fh
    ensures Wrote(fh, old(fh.output), old(fh.calls), DocumentChunks(h, log), ok)
    ensures fh.closed == old(fh.closed)
  {
    DocumentJoined(h, log);
    ok := WriteSectionList(fh, h, log, DocumentSections(h, log));
  }

  /** The source makes the six calls one after another, each followed by
      the same failure check; here they are one pass each of a loop over
      the section index. */
  method WriteSectionList(fh: FileHandle, h: HostState, log: Log, ghost secs: seq<seq<string>>) returns (ok: bool)
    requires ValidHost(h) && secs == DocumentSections(h, log)
    modifies fh
    ensures Wrote(fh, old(fh.output), old(fh.calls), Joined(secs), ok)
    ensures fh.closed == old(fh.closed)
  {
    ghost var out0, calls0 := fh.output, fh.calls;
    RanNothing(out0, calls0, fh.accepts);
    assert secs[..0] == [];
    var k := 0;
    while k < 6
      invariant 0 <= k <= 6 && fh.closed == old(fh.closed)
      invariant Ran(out0, calls0, Joined(secs[..k]), fh.accepts, fh.output, fh.calls, true)
    {
      ghost var outMid, callsMid := fh.output, fh.calls;
      var res := WriteSection(fh, h, log, k, secs);
      JoinedStep(out0, calls0, secs, k, fh.accepts, outMid, callsMid, fh.output, fh.calls, res == 0);
      if res < 0 {
        return false;
      }
      k := k + 1;
    }
    assert secs[..k] == secs;
    ok := true;
  }

  /** Section `k` of `lint_write_config`, by its writer, followed by the
      `< 0` test `lint_write_config` applies to it: 0 when the section was
      written, -1 when it failed. */
  method WriteSection(fh: FileHandle, h: HostState, log: Log, k: nat, ghost secs: seq<seq<string>>)
    returns (res: int)
    requires ValidHost(h) && k < 6 && secs == DocumentSections(h, log)
    modifies fh
    ensures res == 0 || res == -1
    ensures Wrote(fh, old(fh.output), old(fh.calls), secs[k], res == 0)
    ensures fh.closed == old(fh.closed)
  {
    SectionsAt(h, log);
    if k == 0 {
      var n := WriteHeader(fh, h);
      res := if n < 0 then -1 else 0;
    } else if k == 1 {
      res := WriteModules(fh, h);
    } else if k == 2 {
      res := WriteServerConfig(fh, h, log);
    } else if k == 3 {
      res := WriteClasses(fh, h);
    } else if k == 4 {
      res := WriteCtrls(fh, h);
    } else {
      res := WriteVhosts(fh, h, log);
    }
  }

  /** `lint_write_config` once `pr_fsio_open` has run: `fh` is null when
      the open failed. The sections are written in order; the first that
      fails ends the writing, the file is closed either way, and a failed
      section or a failed close fails the whole. */
  method WriteConfig(fh: FileHandle?, h: HostState, log: Log) returns (res: int)
    requires ValidHost(h)
    modifies fh
    ensures res == 0 || res == -1
    ensures fh == null ==> res == -1
    ensures fh != null ==> fh.closed
    ensures fh != null ==>
      var o := WriteAll(DocumentChunks(h, log), fh.accepts, old(fh.calls));
      fh.output == old(fh.output) + o.written && fh.calls == o.calls
      && (res == 0 <==> o.ok && fh.closeSucceeds)
  {
    if fh == null {
      return -1;
    }
    var ok := WriteSections(fh, h, log);
    var closedOk := fh.Close();
    res := if ok && closedOk then 0 else -1;
  }
}
