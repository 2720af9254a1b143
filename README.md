# mod_lint, modelled in Dafny

`mod_lint` is a ProFTPD module that records every configuration line the
server parses (the `core.parsed-line` event). Once parsing is over
(`core.postparse`), it writes one normalised configuration file, built
from two things: the merged configuration tree and that log of lines.

The file has six sections, written in this order:

- a header;
- the dynamically loaded modules;
- the main server's settings;
- the classes;
- a controls heading;
- the virtual hosts.

The lines of the main-server and virtual-host sections are collected in a
buffer and sorted with `strcmp` before they are written. The first write
that fails ends the file.

The library beside the module has two parts:

- the *cops*, which map a `config_rec` name back to the directive that
  created it (`lib/lint/cop.c`, `lib/lint/cop/core.c`);
- the text helpers that write formatted text and sorted line buffers
  (`lib/lint/text.c`).

The modules of the model follow the program:

| Dafny module | models |
|---|---|
| `Wrappers` | `Option` and `Result` |
| `Host` | the ProFTPD values read: `config_rec`, `xaset_t`, `server_rec`, `module`, errno values |
| `StrOrder` | `strcmp`, the ordering the buffered lines are sorted by |
| `Decimal` | the `%u`, `%lu` and `%d` conversions |
| `CoreCop` | `lib/lint/cop/core.c` |
| `Cops` | `lib/lint/cop.c`: the provider tables, the two cops (a `class` whose module field is updated in place), the lookups |
| `Fsio` | the file handle (`pr_fsio_write`/`pr_fsio_close` as a class whose writes succeed or fail as an oracle decides) and `WriteAll`, the specification of writing a sequence of chunks until the first failure |
| `Text` | `lib/lint/text.c`: the buffered-line array as a class, sorting, the write and add helpers |
| `ParsedLines` | the parsed-line log, `lint_find_parsed_line` and the leading-space skip |
| `Serializer` | `lint_add_config_rec`, `lint_add_config_set`, `lint_add_server_rec`: the tree walk |
| `Document` | what each section of the file contains, as functions of the host's state and the log |
| `Writer` | the `lint_write_*` functions of `mod_lint.c`, as methods proved to write exactly `Document`'s chunks |
| `Lifecycle` | the module's globals and its event handlers, as a class |

A lookup in the parsed-line log (`lint_find_parsed_line`,
`mod_lint.c:96-101`) returns the earliest line recorded for the directive.

Writing is specified by `Fsio.WriteAll(chunks, accepts, calls)`. It is the
text produced, the number of `pr_fsio_write` calls and whether every call
succeeded, when each chunk is written in order, empty chunks are skipped,
and the run stops at the first call that `accepts` refuses.

Every writer ensures `Wrote(fh, old(fh.output), old(fh.calls), C, ok)` for
its section's chunks `C`. The top-level
`Writer.WriteConfig` therefore states the whole output of `lint_write_config`
in terms of `Document.DocumentChunks`: for every pattern of write
failures, it gives what was written, how many writes were made, and
whether the result is 0. The writers end the modules block with the
corrected tag `</IfModule>` (see "## Findings"). The file as the code
writes it is `Document.DocumentChunksAsWritten`, and
`Document.DocumentAsWrittenSame` and `Document.DocumentAsWrittenDiffers`
state how it relates to `Document.DocumentChunks`: it is the same file
without shared modules, and otherwise differs only in that one chunk.

## Model

| member | source | states |
|---|---|---|
| StrOrder.StrCmp | lib/lint/text.c:143-149 | the comparison is 0 exactly when the two texts are equal, and otherwise -1 or 1 |
| StrOrder.StrCmpFlip | lib/lint/text.c:143-149 | swapping the operands negates the comparison |
| StrOrder.StrLeTotal | lib/lint/text.c:163-165 | any two lines are ordered one way or the other, so `qsort` has a total order to sort by |
| StrOrder.StrLeAntisymmetric | lib/lint/text.c:163-165 | two lines ordered both ways are the same text |
| StrOrder.StrLeTransitive | lib/lint/text.c:163-165 | the order is transitive |
| Decimal.NatToString | mod_lint.c:461-480 | the `%u`/`%lu` conversion yields at least one digit, only digits, and no leading zero unless the number is 0 |
| Decimal.IntToString | mod_lint.c:538 | the `%d` conversion is never empty, starts with a minus sign exactly for a negative number, and is all digits after it |
| Decimal.ParseIntToString | mod_lint.c:538 | the digits after the sign read back as the number's magnitude, so `%d` loses nothing |
| Decimal.ParseNatToString | mod_lint.c:461-480 | reading the written digits back gives the number |
| Decimal.NatToStringInjective | mod_lint.c:461-480 | different numbers are written differently |
| CoreCop.DirectiveFor | lib/lint/cop/core.c:28-44 | `GroupID` and `UserID` fail with ENOENT and only they fail; `GroupName` becomes `Group` and `UserName` becomes `User`; every other name is its own directive; a result is never one of the four internal names |
| CoreCop.DirectiveIdempotent | lib/lint/cop/core.c:28-44 | a resolved directive resolves to itself |
| Cops.Cop.constructor | lib/lint/cop/core.c:46-48 | a cop has its name and strategy, and no module yet |
| Cops.Provider | lib/lint/cop.c:73-77 | the table's first entry with the name, if any, and none exactly when no entry has the name |
| Cops.ModuleStrategy | lib/lint/cop.c:92-101 | module `core` gets the core cop and every other module the default cop |
| Cops.ConfigCopChoice | lib/lint/cop.c:53-81 | EINVAL exactly for a missing record, a missing name or a record that is not `CONF_PARAM`; a name in the symbol table goes to its module's cop; otherwise the core cop exactly for the four internal names, and ENOENT for the rest |
| Cops.Registry.constructor | lib/lint/cop.c:29-30 | the core and default cops exist, are distinct, and have no module |
| Cops.Registry.CopFor | lib/lint/cop.c:29-30 | the cop for a strategy has that strategy |
| Cops.Registry.GetCoreCop | lib/lint/cop/core.c:50-52 | returns the one core cop, named `core` |
| Cops.Registry.GetModuleCop | lib/lint/cop.c:83-105 | EINVAL for no module with nothing changed; otherwise the cop for the module's strategy, with its module field set to the module, and the other cop untouched |
| Cops.Registry.GetConfigCop | lib/lint/cop.c:53-81 | fails exactly as `ConfigCopChoice` does with nothing changed; otherwise returns the chosen cop, sets its module only when found through the symbol table, where the other cop's module stays as it was, and leaves both cops untouched when found through the provider table |
| Cops.GetDirective | lib/lint/cop.c:107-117 | EINVAL exactly when the cop, the pool or the record is missing; otherwise the core cop resolves the record's name as `CoreCop.DirectiveFor` and the default cop returns the name unchanged |
| Text.Texts | lib/lint/text.c:167-176 | the texts written for a buffer, one per entry, in order |
| Text.Insert | lib/lint/text.c:163-165 | inserting adds exactly that entry |
| Text.InsertSorted | lib/lint/text.c:163-165 | inserting into a sorted buffer keeps it sorted |
| Text.SortLines | lib/lint/text.c:163-165 | the sorted buffer is ordered by `strcmp` and is a permutation of the buffer |
| Text.SortedUnique | lib/lint/text.c:163-165 | two sorted permutations of a buffer are equal, so the order `qsort` produces does not depend on how it sorts |
| Text.SortDeterministic | lib/lint/text.c:151-179 | buffers holding the same lines, in any order, write the same text |
| Text.LineList.Push | lib/lint/text.c:118 | appends the entry at the end of the array |
| Text.LineList.Sort | lib/lint/text.c:163-165 | the array becomes its sorted permutation |
| Text.TextsAppend | lib/lint/text.c:167-176 | the texts of two buffers joined are the two lists of texts joined |
| Text.WriteText | lib/lint/text.c:32-57 | EINVAL for a missing handle or text, with nothing written; otherwise one write of the text's first `textsz` characters, skipped when `textsz` is 0; the result is `textsz` on success and EIO on failure |
| Text.WriteMsg | lib/lint/text.c:59-75 | EINVAL for a missing handle or format; otherwise the formatted text is written as one chunk |
| Text.WriteFmt | lib/lint/text.c:77-94 | the same outcome as `WriteMsg` |
| Text.AddMsg | lib/lint/text.c:96-120 | succeeds exactly when the pool, the array and the format are all present, and then appends one line with its length; otherwise EINVAL with the array unchanged |
| Text.AddFmt | lib/lint/text.c:122-141 | the same outcome as `AddMsg` |
| Text.WriteBufferedLines | lib/lint/text.c:151-179 | no array: success, with nothing written; no handle: EINVAL, with the array unchanged; otherwise the array is sorted and its texts are written in order, stopping at the first failed write with EIO |
| Text.WriteLines | lib/lint/text.c:167-176 | the loop writes the entries' texts in order and stops at the first failure |
| Fsio.FileHandle.constructor | mod_lint.c:725 | a freshly opened handle has written nothing and is open |
| Fsio.FileHandle.Write | lib/lint/text.c:47 | a write appends its text exactly when the oracle accepts that call, and counts the call |
| Fsio.FileHandle.Close | mod_lint.c:782 | closing succeeds as the handle decides, and writes nothing |
| Fsio.WriteAllComplete | lib/lint/text.c:167-176 | when every write succeeds, the output is all the chunks concatenated |
| Fsio.WriteAllStops | lib/lint/text.c:173-175 | a run that fails stopped at one chunk: everything before it was written and nothing after it |
| Fsio.WriteAllAppend | mod_lint.c:719-792 | writing two chunk sequences one after the other is writing their concatenation, with the second skipped once the first has failed |
| ParsedLines.FirstIndex | mod_lint.c:96-101 | the position of the first line for the directive; none exactly when no line has it |
| ParsedLines.FirstParsedLine | mod_lint.c:89-105 | no log gives nothing; otherwise nothing exactly when no line has the directive, and a found line has the directive and is in the log |
| ParsedLines.FindParsedLine | mod_lint.c:89-105 | the loop returns the first matching line |
| ParsedLines.FirstMatchKept | mod_lint.c:96-101 | appending a line never changes a lookup that already succeeded, and a first line for a directive is found once appended |
| ParsedLines.StripLeadingSpace | mod_lint.c:875-877 | the result is a suffix of the text, everything dropped is white space, and the result does not start with white space |
| ParsedLines.SkipLeadingSpace | mod_lint.c:875-877 | the loop computes `StripLeadingSpace` |
| Serializer.InlineDirective | mod_lint.c:291-304 | the rename table inlined in `lint_add_config_rec` agrees with the core cop, name for name |
| Serializer.RecLine | mod_lint.c:265-332 | a record gives a line exactly when it is `CONF_PARAM`, does not start with `_`, has a directive, and that directive is in the log; the line is the indent, the logged text and a newline |
| Serializer.AddConfigRec | mod_lint.c:265-332 | appends exactly `RecLine`'s line, if any, and returns 0 |
| Serializer.AddConfigSet | mod_lint.c:334-370 | appends the set's lines in list order, each record followed by its subset two spaces further in, and returns 0 |
| Serializer.AddServerRec | mod_lint.c:372-387 | appends the server's configuration at the outermost indent, or nothing when it has none, and returns 0 |
| Serializer.NodeIndented | mod_lint.c:334-370 | every line pushed for a record is well sized, starts with its indent and ends with a newline |
| Serializer.SetIndented | mod_lint.c:334-370 | the same for every line pushed for a set |
| Serializer.ServerIndented | mod_lint.c:372-387 | a server's lines are well sized and end with a newline |
| Serializer.FlatAppend | mod_lint.c:347-368 | walking two runs of sibling records is walking each in turn |
| Serializer.FlatPermutation | mod_lint.c:347-368 | reordering sibling records pushes the same lines, each as many times |
| Serializer.SiblingOrderIrrelevant | mod_lint.c:347-368 | reordering sibling records leaves the sorted buffer, and so the written section, unchanged |
| Document.IsStaticModule | mod_lint.c:249-262 | a module is static exactly when its name is in the static table |
| Document.LoadLines | mod_lint.c:401-413 | every `LoadModule` line names a loaded module that is not static |
| Document.LoadLinesAppend | mod_lint.c:401-413 | the lines of two runs of loaded modules are the lines of the first run followed by those of the second |
| Document.LoadLinesPrefix | mod_lint.c:401-413 | visiting one more loaded module adds its `LoadModule` line exactly when it is not static |
| Document.LoadLinesComplete | mod_lint.c:401-413 | every loaded module that is not static has its line, placed right after the lines of the modules before it, so the lines are in list order and none is missing |
| Document.LoadLinesSkipsStatic | mod_lint.c:403-406 | a static module gets no line |
| Document.TagBalanceAppend | mod_lint.c:396-415 | the open-minus-close tag count of joined lines is the sum of the counts |
| Document.LoadLinesNeutral | mod_lint.c:401-413 | `LoadModule` lines neither open nor close a block |
| Document.ModuleBlockBalanced | mod_lint.c:396-415 | with the intended closing tag the modules block is balanced and ends with `</IfModule>` |
| Document.ModuleBlockAsWrittenUnbalanced | mod_lint.c:415 | with the closing line as written the block is left two opens short of balanced |
| Document.ParsedSlot | mod_lint.c:451-456 | a copied line is present exactly when some logged line has the directive, and is then the text of the earliest such line with a newline |
| Document.Slot | mod_lint.c:443-583 | which of the eighteen synthesized lines are always present, which depend on the host (`MaxInstances`, `ServerAdmin`, `ServerName`), and which on the log |
| Document.SlotLines | mod_lint.c:443-583 | every synthesized entry is well sized |
| Document.ServerConfigWellSized | mod_lint.c:436-589 | every entry of the main server's buffer is well sized |
| Document.AclChunks | mod_lint.c:638-643 | one `  # From` line per ACL, in order |
| Document.ServersLinesSnoc | mod_lint.c:694-706 | visiting one more server appends its lines |
| Document.VhostsSkipMain | mod_lint.c:694-706 | the virtual-host buffer holds the lines of every server visited so far except `main_server` |
| Document.VhostLinesWellSized | mod_lint.c:694-706 | every entry of the virtual-host buffer is well sized |
| Writer.Put | mod_lint.c:136-147 | one chunk written, the run so far extended by it, and true exactly when the write succeeded |
| Writer.Flush | mod_lint.c:190-214 | the list is left sorted, its sorted texts are written in order up to the first failed write, and true exactly when all were written |
| Writer.WriteHeader | mod_lint.c:216-246 | writes the header line, with the time when it is known, and returns the number of bytes written when the write succeeded and -1 when it failed |
| Document.DocumentAsWrittenSame | mod_lint.c:389-421 | without shared modules no modules block is written, so the file as written equals the corrected file |
| Document.DocumentAsWrittenDiffers | mod_lint.c:415 | with shared modules the file as written is the corrected file with exactly one chunk changed, the one closing the modules block, from `</IfModule>` to `<IfModule>` |
| Writer.WriteModules | mod_lint.c:389-422 | without shared modules writes nothing and returns 0; otherwise writes the heading and opening tag, one `LoadModule` line per non-static loaded module and the closing tag, stopping at the first failed write, and returns 0 exactly when all succeeded |
| Writer.PushSlot | mod_lint.c:443-583 | pushes the next synthesized line when it is present |
| Writer.PushParsedSlot | mod_lint.c:451-566 | pushes the next copied line when its directive was logged |
| Writer.BufferAddressSlots | mod_lint.c:443-494 | the buffer holds the first six synthesized lines |
| Writer.BufferServerSlots | mod_lint.c:459-534 | the buffer holds the first twelve synthesized lines |
| Writer.BufferTraceSlots | mod_lint.c:538-569 | the buffer holds the first sixteen synthesized lines |
| Writer.BufferSwitchSlots | mod_lint.c:571-583 | the buffer holds all eighteen synthesized lines |
| Writer.BufferServerConfig | mod_lint.c:436-589 | the buffer holds the synthesized lines, then the main server's configuration |
| Writer.WriteServerConfig | mod_lint.c:424-599 | writes the heading, then the sorted buffer, stopping at the first failed write, and returns 0 exactly when all succeeded |
| Writer.WriteClassBlock | mod_lint.c:621-655 | writes a class's opening line, its ACL lines, its `Satisfy` line and its closing line, stopping at the first failure |
| Writer.WriteClasses | mod_lint.c:601-661 | writes the heading, then every class block in order, stopping at the first failed write, and returns 0 exactly when all succeeded |
| Writer.WriteCtrls | mod_lint.c:663-676 | writes the controls heading only when controls are built in, and returns 0 exactly when nothing failed |
| Writer.VisitServer | mod_lint.c:694-706 | one step of the server loop: the main server is skipped, every other server's configuration is appended |
| Writer.BufferVhosts | mod_lint.c:686-706 | the buffer holds the configuration of every server but the main one, in list order |
| Writer.WriteVhosts | mod_lint.c:678-717 | writes the heading, then the sorted buffer of virtual-host lines, stopping at the first failed write, and returns 0 exactly when all succeeded |
| Writer.DocumentJoined | mod_lint.c:735-780 | the six sections joined in order are the whole document |
| Writer.WriteSection | mod_lint.c:734-780 | the section at a position is written as that section's writer writes it, and the result is 0 when it was written and -1 when the `< 0` test fails |
| Writer.WriteSections | mod_lint.c:735-780 | the sections are written in order and the first failure ends the writing, so the output is `WriteAll` of the whole document |
| Writer.WriteSectionList | mod_lint.c:735-780 | the six sections are written in order, each only after the ones before it succeeded; the output is `WriteAll` of the sections joined, and the result is true exactly when every write succeeded |
| Writer.WriteConfig | mod_lint.c:719-792 | a failed open returns -1; otherwise the handle is closed either way, the output is exactly `WriteAll` of the document, and the result is 0 exactly when every write and the close succeeded |
| Lifecycle.RecordedLookup | mod_lint.c:883 | recording a line never changes what a lookup already found, and a directive's first line is found as soon as it is recorded |
| Lifecycle.LintModule.constructor | mod_lint.c:948-962 | after `lint_init` the pool exists, nothing is recorded, the engine is on and parsed lines are listened for |
| Lifecycle.LintModule.ParsedLineEv | mod_lint.c:847-884 | called only while the listener is registered; the pool exists afterwards and the log is the old log with the line appended, with its leading white space stripped; the engine and the listener are unchanged |
| Lifecycle.LintModule.Record | mod_lint.c:856-883 | creates the pool and the log when they are missing, and appends the line at the end of the log |
| Lifecycle.LintModule.PostparseEv | mod_lint.c:886-934 | stops listening, takes `LintEngine` when it is set, and writes the file exactly when the engine is not off and `LintConfigFile` is set; the file is then exactly `WriteConfig` of the recorded log, and the pool and log are gone on every path |
| Lifecycle.LintModule.RestartEv | mod_lint.c:936-943 | listens again and turns the engine on, leaving the log and the pool alone |

## Left out

- Formatting is not modelled as `printf`. Each `lint_write_fmt`/`lint_add_fmt` call takes its already formatted text. The `LINT_BUFFER_SIZE` truncation of a formatted line is not modelled: every line is assumed to fit.
- `mod_lint.c` carries its own copies of the text helpers, at lines 107-214. They differ from `lib/lint/text.c` in two ways: they have no NULL checks on the handle or the text, and they do not skip a zero-length write. The writers use the `Text` and `Fsio` models with handles and texts that are always present, and every chunk they write is non-empty, so the two behave the same. `Writer.Put` and `Writer.Flush` are the points where the module's copies are used.
- `qsort` itself is not modelled. `Text.SortLines` is an insertion sort, and `Text.SortedUnique` proves that any sort by `strcmp` gives the same buffer.
- I/O:
  - `pr_fsio_open` is the `fh` parameter of `Writer.WriteConfig` and `Lifecycle.LintModule.PostparseEv`, null when the open failed.
  - Partial writes and `errno` are not modelled. A write succeeds or fails as the handle's `accepts` oracle says, and the model does not distinguish among the errno values of a failed close.
- The clock is a parameter: `HostState.timestamp` is the formatted time, or `None` when `pr_gmtime` fails.
- The build flags `PR_SHARED_MODULE` and `PR_USE_CTRLS` are host fields.
- The default cop's own `get_directive` (`lib/lint/cop/default.c`) is not part of this model. It is taken to return the record's name.
- Pools are reduced to whether `lint_pool` exists. Memory and `destroy_pool` are not modelled.
- Trace logging and `pr_signals_handle` are left out.
- The event API is reduced to a `recording` flag for the `core.parsed-line` listener. `Lifecycle.LintModule.ParsedLineEv` requires it, because the event reaches only a registered listener.
- `lint_mod_unload_ev` is left out, because it only unregisters listeners and frees the pool.
- The configuration directive handlers (`set_lintconfigfile`, `set_lintengine`) are left out. `find_config` of `LintEngine` and `LintConfigFile` in the main server are the `lintEngine` and `configFile` parameters of `PostparseEv`.
- The `res < 0` branches after `lint_add_fmt`, `lint_add_config_rec`, `lint_add_config_set` and `lint_add_server_rec` in `mod_lint.c` cannot be taken, because the module's copy of `lint_add_msg` always returns 0. The model proves the result is 0 rather than keeping dead branches.
- Writer.Put: it returns whether the write succeeded, where `lint_write_fmt` returns the byte count or -1. Every caller in `mod_lint.c` only tests the result for `< 0`. `Writer.Flush` likewise returns a boolean for the 0 or -1 of `lint_write_buffered_lines`.
- Cops.GetDirective: a record passed in is required to have a name. `lint_cop_get_directive` hands a record with a NULL name on to the cop; the core cop then calls `strcmp` on NULL, and the default cop's `get_directive` is not part of this model.
- Serializer.RecLine: a `CONF_PARAM` record is required to have a name. `lint_add_config_rec` calls `strcmp` on a `CONF_PARAM` record's name, so the source depends on the same fact.
- The `lib/lint/text.c` test at `t/api/text.c:176-179` expects EINVAL from `lint_text_write_buffered_lines(NULL, NULL)`. The code returns 0 for a NULL array before it checks the handle (`lib/lint/text.c:154-156`), and the model follows the code.
- Writer.WriteSections: the six calls `lint_write_config` makes one after another are modelled as a loop over the section number in `Writer.WriteSectionList`, with `Writer.WriteSection` choosing the writer. This keeps each proof small, and the behaviour is the same.
- Writer.BufferServerConfig: the eighteen pushes of `lint_write_server_config` are split into `Writer.BufferAddressSlots`, `Writer.BufferServerSlots`, `Writer.BufferTraceSlots` and `Writer.BufferSwitchSlots`, over `Writer.PushSlot` and `Writer.PushParsedSlot`, to keep each proof small.
- Writer.WriteModules: it ends the block with `</IfModule>\n`, the corrected tag, where `mod_lint.c:415` writes `<IfModule>\n`. The writer as written is not modelled as a method; `Document.ModuleChunksAsWritten` is what it writes.
- Writer.WriteSections: through `Writer.WriteModules`, its output is `WriteAll` of the corrected document. `Document.DocumentAsWrittenDiffers` gives the chunk by which the source's output differs.
- Writer.WriteConfig: the same holds; its output is stated for the corrected document `Document.DocumentChunks`, not for `Document.DocumentChunksAsWritten`.
- Lifecycle.LintModule.PostparseEv: the same holds, because it writes through `Writer.WriteConfig`.
- Lifecycle.LintModule.Record: the pool is (re)created together with the append rather than just before it. No step in between can observe the difference.

## Findings

| source | as written | input that shows it | evidently intended | confidence | as-written member | corrected member |
|---|---|---|---|---|---|---|
| mod_lint.c:415 | the modules block is closed with `<IfModule>\n`, a second opening tag | any build with shared modules: the block written is `<IfModule mod_dso.c>` … `<IfModule>`, which leaves two blocks open | `</IfModule>\n`, which closes the `<IfModule mod_dso.c>` block opened at line 396 | not executed | Document.ModuleBlockAsWrittenUnbalanced | Document.ModuleBlockBalanced |
