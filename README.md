# elasticsearch-metadata-updater: the bounded metadata reports and the version rewrite

This project models the core of a command-line tool that inspects and repairs the on-disk
metadata of an Elasticsearch node. It has two parts.

- **MetaDataPrinter** renders four reports into a `StringBuilder`:
  - the node identity;
  - the manifest, with its index generations;
  - the global metadata: scalar fields, coordination block, settings, templates, indices and
    custom blocks;
  - a single-index lookup.

  The walks over collections differ. Where a cap `num >= 0` applies, the walk stops after `num`
  entries and, when entries remain, prints one `...` line. Where entries are cut, a `limit >= 0`
  cuts an encoding to that many characters.
  - Manifest generations: filtered by name or UUID (ignoring case) when a name is given,
    otherwise capped; never cut.
  - Templates: filtered by name only (ignoring case) and printed in full when a name is given,
    otherwise capped and cut.
  - Indices of the global report: always capped and cut.
  - Custom blocks: never capped, always cut.
  - The single-index lookup: filtered by name or UUID (ignoring case), printed in full.

  An entry whose encoding fails is skipped and the walk goes on. `show`/`toFile` then send the
  report to the terminal or to a file.
- **UpdaterService.updateVersion** resolves a target version id and dispatches on a scope
  (`node`, `global`, `all`, ignoring case). The node step sets the node identity's version and
  persists it. The global step rewrites, in place, the created-version setting of every index
  of the last accepted cluster state that has a different one, then writes the state back once.

Each report is specified by its sequence of lines (`Lines.Join` turns lines into text, every
line followed by `"\n"`; `Lines.SplitLines` is its inverse on lines holding no line break). The methods build the text one
append at a time, as the source does, with the same branches, counters, `break` and
`continue`. They are proved equal to `Join` of the specified lines. The lemmas then state what
those lines are.

The version rewrite is a class `Updater` whose fields are:
- the node record;
- an array of the last accepted indices;
- a ghost log of the persistence calls.

Its method `UpdateVersion` is proved against the transition function `UpdateVersionSpec`.

Modules:
- `Wrappers`, `JavaText` (java_text.dfy): `Option`, plus the Java behaviours used:
  `equalsIgnoreCase`, `endsWith` and `lastIndexOf` for one character, and `Integer.parseInt` /
  `Integer.toString`.
- `Lines` (lines.dfy): reports as lines, and the two ways of walking entries that may fail
  (`Present`, `Capped`).
- `ClusterMetaData` (cluster_metadata.dfy): the metadata records. `Codec` holds the library's
  rendering and encoding functions as uninterpreted, possibly failing functions.
- `MetaDataPrinter` (metadata_printer.dfy): the four reports and their properties.
- `FileOutput` (file_output.dfy): `show` and `toFile`, returning the trace of their effects.
- `UpdaterService` (updater_service.dfy): the version rewrite.

Three behaviours of the code worth noting:
- custom blocks are truncated to `limit` (MetaDataPrinter.java line 155);
- a failed node write ends the command before the global step, even for scope `all`;
- a version string that does not parse ends the command before any change, rather than falling
  back to the default.

## Model

| member | source | states |
|---|---|---|
| MetaDataPrinter.LimitStr | src/main/java/updater/MetaDataPrinter.java:188-193 | the result is a prefix of str; a negative limit, or a string no longer than limit, leaves it whole; otherwise the result has exactly limit characters |
| MetaDataPrinter.NodeString | src/main/java/updater/MetaDataPrinter.java:34-40 | the node report is the text of the three lines: title, node id, node version |
| MetaDataPrinter.NodeReportLines | src/main/java/updater/MetaDataPrinter.java:34-40 | the node report reads back as exactly those three lines when the id and version contain no line break |
| MetaDataPrinter.AppendLine | src/main/java/updater/MetaDataPrinter.java:44-48 | appending a line and its line break to the text of some lines gives the text of those lines followed by it |
| MetaDataPrinter.ManifestString | src/main/java/updater/MetaDataPrinter.java:42-68 | the manifest report built append by append equals the text of ManifestLines: header, then the named walk or the capped walk |
| MetaDataPrinter.AppendNamedGenerations | src/main/java/updater/MetaDataPrinter.java:49-54 | the forEach over the generations appends exactly the lines of the entries matching the name, in order |
| MetaDataPrinter.AppendCappedGenerations | src/main/java/updater/MetaDataPrinter.java:55-66 | the counted loop with `++count > num` and break appends the capped lines and the `...` line |
| MetaDataPrinter.ManifestCapped | src/main/java/updater/MetaDataPrinter.java:55-65 | with no name: num < 0 gives every entry and no `...`; num >= 0 gives the first min(num, n) entries in order, then one `...` line iff n > num, and nothing after it |
| MetaDataPrinter.ManifestByName | src/main/java/updater/MetaDataPrinter.java:49-54 | with a name, whatever num is: exactly the entries whose index name or UUID equals the name up to case, in order, no `...` line; no match leaves only the header |
| MetaDataPrinter.ManifestSizeLine | src/main/java/updater/MetaDataPrinter.java:48 | the indexGenerations header shows the number of all entries, whatever the cap and name |
| MetaDataPrinter.GlobalString | src/main/java/updater/MetaDataPrinter.java:70-162 | the global report built append by append equals the text of GlobalLines |
| MetaDataPrinter.PreambleString | src/main/java/updater/MetaDataPrinter.java:72-95 | the header and the three settings sections built append by append equal the text of GlobalPreamble |
| MetaDataPrinter.GlobalHeaderString | src/main/java/updater/MetaDataPrinter.java:72-82 | the scalar fields and the coordination block, one line each |
| MetaDataPrinter.AppendSettings | src/main/java/updater/MetaDataPrinter.java:84-95 | a settings section is its size line, then its content line only when it is not empty |
| MetaDataPrinter.AppendTemplates | src/main/java/updater/MetaDataPrinter.java:97-125 | the single template loop, with its continue for the name filter and its counted break, appends TemplateLines |
| MetaDataPrinter.AppendTemplateByName | src/main/java/updater/MetaDataPrinter.java:100-109 | one template of the walk by name adds its full line exactly when its name matches up to case and it encodes, and nothing otherwise |
| MetaDataPrinter.AppendTemplateEntry | src/main/java/updater/MetaDataPrinter.java:116-121 | one template of the capped walk adds its line with the encoding cut to limit, or nothing when the encoding fails |
| MetaDataPrinter.AppendIndices | src/main/java/updater/MetaDataPrinter.java:127-143 | the index loop appends the capped, truncated index lines |
| MetaDataPrinter.AppendCustoms | src/main/java/updater/MetaDataPrinter.java:145-160 | the custom loop appends one truncated line per encodable block, without a cap |
| MetaDataPrinter.TruncatedLine | src/main/java/updater/MetaDataPrinter.java:188-193 | cutting the encoded part of a line gives a prefix of the whole line, at most limit characters longer than its head, and the whole line when nothing is cut |
| MetaDataPrinter.TemplateEntryTruncates | src/main/java/updater/MetaDataPrinter.java:103-121 | a capped-mode template line fails exactly when the full one does; it is a prefix of the full line with at most limit characters of encoding, and equals it for limit < 0 |
| MetaDataPrinter.IndexEntryTruncates | src/main/java/updater/MetaDataPrinter.java:135-139 | the same for index definitions: the global report cuts what the single-index lookup prints whole |
| MetaDataPrinter.CustomLineTruncates | src/main/java/updater/MetaDataPrinter.java:150-155 | a custom line is a prefix of the block's full line, with at most limit characters of encoding |
| MetaDataPrinter.TemplatesByName | src/main/java/updater/MetaDataPrinter.java:101-111 | with a template name: exactly the matching templates, untruncated and in order; independent of num and limit; one line per match when all encode; none when nothing matches |
| MetaDataPrinter.TemplatesCapped | src/main/java/updater/MetaDataPrinter.java:112-121 | with no template name: the first min(num, n) templates, truncated, then `...` iff n > num; at most min(num, n) + 1 lines; num < 0 gives all |
| MetaDataPrinter.TemplateFailureCounts | src/main/java/updater/MetaDataPrinter.java:112-124 | a template that fails within the cap still uses up its place: at most num lines in all, and the walk still ends with `...` |
| MetaDataPrinter.IndicesCapped | src/main/java/updater/MetaDataPrinter.java:127-139 | indices are always capped: the first min(num, n), truncated, then `...` iff n > num |
| MetaDataPrinter.IndexFailureCounts | src/main/java/updater/MetaDataPrinter.java:131-142 | an index that fails within the cap still uses up its place and the walk still ends with `...` |
| MetaDataPrinter.CustomFailureIsolated | src/main/java/updater/MetaDataPrinter.java:150-158 | a custom block that fails drops its own line only; the blocks before and after print as if it were absent |
| MetaDataPrinter.CustomsUncapped | src/main/java/updater/MetaDataPrinter.java:145-160 | the report ends with the custom lines whatever num and the template name are; one line per block when all encode; with no customs it ends with the customs header |
| MetaDataPrinter.PreambleHeaders | src/main/java/updater/MetaDataPrinter.java:84-95 | each of the three settings headers shows its collection's size and is followed by one text line exactly when that collection is not empty |
| MetaDataPrinter.SectionHeadersFullSize | src/main/java/updater/MetaDataPrinter.java:84-145 | the persistent-settings, transient-settings, hashes-of-consistent-settings, templates, indices and customs headers show the size of the whole collection, whatever the cap, the filter, the limit and the failures |
| MetaDataPrinter.IndexString | src/main/java/updater/MetaDataPrinter.java:164-186 | the single-index lookup built append by append equals IndexReport |
| MetaDataPrinter.AppendNamedIndices | src/main/java/updater/MetaDataPrinter.java:167-181 | the lookup walk appends, in order, the full line of every index whose name or UUID matches up to case and whose encoding succeeds |
| MetaDataPrinter.IndexLookupEmpty | src/main/java/updater/MetaDataPrinter.java:182-184 | an empty name gives exactly `"IndexMetaData:\n" + "  " + "   " + "not found"`, with no final line break, which reads back as two lines |
| MetaDataPrinter.IndexLookupByName | src/main/java/updater/MetaDataPrinter.java:167-181 | a name gives every index whose name or UUID matches up to case, in full and in order; no match gives the header line alone |
| Lines.SplitJoin | src/main/java/updater/MetaDataPrinter.java:34-40 | a report made of single lines, with an optional unterminated tail, reads back as exactly those lines |
| Lines.FailureIsolated | src/main/java/updater/MetaDataPrinter.java:122-124 | a failed entry removes its own line and nothing else |
| Lines.FailureConsumesCap | src/main/java/updater/MetaDataPrinter.java:112-115 | a failed entry among the first num still takes one of the num places |
| Lines.CappedShape | src/main/java/updater/MetaDataPrinter.java:56-61 | the cap over entries that all render: the first min(num, n) lines, then `more` iff n > num |
| Lines.SelectedIsFilter | src/main/java/updater/MetaDataPrinter.java:50-54 | walking every entry and printing the matching ones prints the same lines as printing the matching entries alone |
| JavaText.LastIndexOf | src/main/java/updater/MetaDataPrinter.java:208 | the last position holding the character, or -1 when there is none |
| FileOutput.ToFile | src/main/java/updater/MetaDataPrinter.java:203-238 | toFile with its early returns and fileOk flag performs exactly the actions of FileTrace |
| FileOutput.Show | src/main/java/updater/MetaDataPrinter.java:195-201 | show performs the actions of ShowTrace: the terminal for an empty path, toFile otherwise |
| FileOutput.ShowTerminalIffNoPath | src/main/java/updater/MetaDataPrinter.java:196-200 | the report reaches the terminal iff the path is empty, and then it is the only action |
| FileOutput.DirectoryPathRefused | src/main/java/updater/MetaDataPrinter.java:204-207 | a path ending with the separator gives one error and no file-system action; any other path touches the file system |
| FileOutput.ParentDirectory | src/main/java/updater/MetaDataPrinter.java:208-218 | the directory created is exactly the prefix before the last separator, and one is created only when the path holds a separator |
| FileOutput.FileNameAfterParent | src/main/java/updater/MetaDataPrinter.java:204-210 | for a file path holding a separator, the path is the parent, the separator and a non-empty name without a separator |
| FileOutput.WritesIffNoFailure | src/main/java/updater/MetaDataPrinter.java:219-237 | the report is printed into the file iff the path is a file path, the parent was created, the file existed or was created and it could be opened for writing; an error, if any, is the last action |
| JavaText.ParseIntToString | src/main/java/updater/UpdaterService.java:155-159 | Integer.parseInt reads back every int written by Integer.toString |
| UpdaterService.Updater.UpdateVersion | src/main/java/updater/UpdaterService.java:119-170 | the new node, the new indices, the persistence calls appended to the log and the outcome are those of UpdateVersionSpec on the old state |
| UpdaterService.Updater.RewriteCreatedVersions | src/main/java/updater/UpdaterService.java:154-162 | the in-place walk rewrites every index before the first unreadable created version and reports whether it reached the end |
| UpdaterService.FirstMalformed | src/main/java/updater/UpdaterService.java:154-155 | the first index whose created version does not parse: every index before it reads, and it does not |
| UpdaterService.ResolveVersion | src/main/java/updater/UpdaterService.java:124-134 | the target version resolved from the argument, or none when it does not parse; a resolved target is a positive 32-bit id |
| UpdaterService.ResolveVersionCases | src/main/java/updater/UpdaterService.java:123-135 | no version gives V_7_5_1; a positive parsed id is taken; a parsed id <= 0 gives V_7_5_1; the command stops iff a given version does not parse; every target is a positive int |
| UpdaterService.NothingChanges | src/main/java/updater/UpdaterService.java:123-150 | an unreadable version, or a scope naming neither step, changes nothing and writes nothing |
| UpdaterService.NodeStep | src/main/java/updater/UpdaterService.java:137-148 | the node step sets the node version to the target and persists it once, first; when that write fails the command stops and the indices are untouched and unwritten |
| UpdaterService.ScopeDispatch | src/main/java/updater/UpdaterService.java:137-150 | outside the "node"/"all" scopes the node is unchanged and no node write is made; outside "global"/"all" the indices are unchanged; once the version reads, the node write is recorded iff the scope is "node" or "all" |
| UpdaterService.CreatedVersion | src/main/java/updater/UpdaterService.java:155 | the created version as the setting reads it: absent exactly when the key is missing, and a read id is a 32-bit int |
| UpdaterService.Rewrite | src/main/java/updater/UpdaterService.java:156-160 | one index of the global step keeps its identity, definition and setting keys, and is untouched unless its created version reads as an id different from the target |
| UpdaterService.RewriteReadsBack | src/main/java/updater/UpdaterService.java:155-160 | a rewritten created version reads back as the target id |
| UpdaterService.RewriteKeepsOthers | src/main/java/updater/UpdaterService.java:157-160 | the rewrite keeps the index, its definition, its set of keys and every other setting |
| UpdaterService.RewriteChangesExactly | src/main/java/updater/UpdaterService.java:155-161 | an index with no created version or the target id is left as it was; otherwise its created version becomes the target |
| UpdaterService.RewriteIdempotent | src/main/java/updater/UpdaterService.java:155-160 | rewriting twice is rewriting once, and the rewrite never makes a created version unreadable |
| UpdaterService.FirstMalformedRewritten | src/main/java/updater/UpdaterService.java:154-162 | the global step leaves the first unreadable index where it was |
| UpdaterService.GlobalStepIdempotent | src/main/java/updater/UpdaterService.java:154-162 | running the global step again on the indices it produced, stopping at its own first unreadable index, changes nothing |
| UpdaterService.GlobalStepEffect | src/main/java/updater/UpdaterService.java:150-162 | when it runs and every created version reads, each index ends as Rewrite makes it, and the number of indices is kept |
| UpdaterService.SingleWriteBack | src/main/java/updater/UpdaterService.java:150-165 | the state is written back at most once; exactly once iff the global step runs to its end, even when nothing changed; the write carries the new indices |
| UpdaterService.UpdateIdempotent | src/main/java/updater/UpdaterService.java:119-170 | running the command again with the same arguments and answers repeats the same writes and ends in the same state |

## Left out

- The terminal messages of `updateVersion`, log4j logging and `printStackTrace` are not
  modelled. The version rewrite reports its errors only as its `Outcome`. The terminal output of
  `show` and `toFile` is modelled, as `TerminalPrintln` and `ErrorPrintln` actions.
- `init`, `reloadMetaDate` and the `print*` shell commands are not modelled. They are
  bootstrap, forwarding to library reload routines, and thin wrappers. `reloadMetaDate` returns
  early after a failed node step, just as `updateVersion` does.
- `IndexTemplateMetaDataPrinter`, XContent/JSON encoding, `Index.toString`,
  `Settings.toString` and `Version.toString` are not modelled. They are uninterpreted fields of
  `Codec`; an encoding that throws is `None`. The `CoordinationMetaData` getters are the fields
  of the `Coordination` record: the three configurations are taken as their printed strings and
  `term` is printed with `IntToString`.
- The iteration order of the library's maps is taken as the order of the given sequences. Each
  collection's size is the sequence length, so keys are assumed distinct.
- `null` strings are modelled as the empty string. The source treats a null name, filter or
  path the same way as an empty one.
- MetaDataPrinter.LimitStr: counts Unicode scalar values, while Java's `length` and
  `substring` count UTF-16 code units. An encoding with supplementary characters is therefore
  cut at a different place, and Java may leave a lone high surrogate at the cut.
- JavaText.EqualsIgnoreCase: case folding covers ASCII letters only. Java's
  `equalsIgnoreCase` also folds other Unicode letters.
- JavaText.ParseInt: only ASCII digits are accepted. Java's `Integer.parseInt` also accepts
  other Unicode decimal digits.
- `File.separator` is a character parameter.
- Each answer of the file system is a parameter (`Disk`): directory creation, existence,
  `createNewFile`, and opening the file with `new PrintStream`. `PrintStream.println` swallows
  I/O errors, so the "write file" error is reported only when opening fails, and then nothing is
  printed. Truncating the file's old content and the line separator that `println` adds are not
  modelled; `FilePrintln` records the text printed.
- The Java `int` counter of the capped walks is unbounded here. It could overflow only for
  more than 2^31 entries.
- A version is its int id, and `Version.fromId` is not modelled. The node identity's version
  and the created version are compared and stored as ids.
- UpdaterService.CreatedVersion: a missing created-version setting is treated as absent, so
  the index is left untouched. This follows the `createdVersion != null` test as written. The
  library's declaration of that setting is not visible here; if it declares a default such as
  `Version.V_EMPTY`, `get` never returns null, and the real program would add the key, set to
  the target, to an index that lacks it. A stored value that does not parse makes the
  setting's reader throw. The global step then stops with the indices before it already
  rewritten in memory, and the state is not written back.
- The getters inside the two try blocks of `updateVersion` are assumed not to throw:
  `node.getNodeEnvironment().getNodeMetaData()`, `getInstance(GatewayMetaState.class)`,
  `getPersistedState()` and `getLastAcceptedState()`. Only the two writes can fail (`nodeOk`,
  `stateOk`). If one of those getters threw, the command would stop with nothing changed and
  nothing written, which the model cannot express.
- The cluster state that `setLastAcceptedState` writes back is reduced to its indices. Its
  templates, customs and cluster settings are not part of `State`; the global step never
  touches them, so they survive the rewrite in the source as well.
- Atomicity and durability of `writeAndCleanup` and `setLastAcceptedState` are not modelled.
  Each call is recorded in the ghost log as attempted, whether or not it succeeds.
