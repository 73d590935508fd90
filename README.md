# wire-protobuf-bundler, modelled in Dafny

The bundler is a command-line tool. It clones a repository's `.proto` files, compiles them with `protoc` and a Wire
plugin (Solana or Solidity), and assembles a publishable package. It also copies the proto sources into that
package, so a consumer can audit what the code was generated from. This project models the bundler's decision logic
over an abstract disk, and proves what that logic promises:

- **Paths and the disk** (`paths.dfy`, `file_tree.dfy`, `fs.dfy`):
  - A path is a sequence of segments, and the disk is a tree of directories and files.
  - The `node:fs` calls the bundler makes are methods of a `FileSystem` class that change that tree in place:
    - `mkdirSync` with `recursive`;
    - `mkdtempSync`;
    - `copyFileSync`;
    - `rmSync` with `recursive` and `force`;
    - a whole tree written by an external program.
  - Each is specified by a function on the tree.
  - `Path.join`, `Path.relative` and `Path.dirname` are functions on segment sequences.
- **`walkDir`** (`walk.dfy`): one model of the recursive walk that appears three times in the source. A loop with
  recursion is proved equal to a specification function. Lemmas say the walk is sound, complete and without
  duplicates.
- **`runProtoc`** (`run_protoc.dfy`):
  - the plugin table;
  - the search for the plugin binary;
  - the import-root inference;
  - the argument list;
  - the compiler run and the listing of what it generated.
- **`fetchProtos`** (`fetch_protos.dfy`): cloning into `<dir>/proto`, keeping the `.proto` files, refusing an empty
  result.
- **`bundleCommand`** (`bundle.dfy`):
  - the temporary directory;
  - the five steps in order, each of which can fail;
  - the provenance copy and its exact path mapping;
  - the `finally` that removes the temporary directory and turns a failed removal into a warning.
- **Templates** (`templates.dfy`): locating the templates directory, and listing a target's `.hbs` templates.
- **`deepMerge`** (`merge.dfy`): the recursive merge of JSON-like objects.
- **The log level** (`logger.dfy`): the module's mutable level and logger, and the guarded `setLogLevel`.

External programs and the environment are parameters of the model:

| Source call | Model parameter |
|---|---|
| the `degit` clone | `Option<seq<Entry>>`: the cloned tree, or nothing when the clone fails |
| `which <plugin>` | `Option<string>`: its standard output |
| `npx protoc` | `ProtocRun`: an exit status and the tree it writes |
| `generatePackage` | a `bool` |
| the outcome of `rmSync` | a `bool` |
| the random characters of `mkdtempSync` | the `Name` of the new directory |
| the working directory | the `cwd` path |
| the directory of the templates module | the `moduleDir` path |

A run of the command returns three things:
- its outcome;
- a trace of the steps it started, each with the arguments it passed;
- whether it logged the clean-up warning.

Two details of the code are easy to misread; the model follows the code:

- The provenance copy places each file relative to the clone root `tmp/proto` (src/commands/bundle.ts:31, 61), not
  to the import root `findProtoRoot` infers.
- `resolvePluginBin` looks first in `node_modules/.bin` (src/steps/run-protoc.ts:45-49). Its own doc comment lists
  that location last, as a fallback. The fallback check at src/steps/run-protoc.ts:68-72 tests the path already
  rejected as the first candidate. On a disk that does not change in between, it can never succeed, and the model
  proves that branch dead.

## Model

| member | source | states |
|---|---|---|
| Paths.RelativeUnder | src/steps/run-protoc.ts:107-109 | for a file below the root, `Path.relative(root, p)` is `p` with the root removed, and the root followed by it is `p` again |
| Paths.ResolveRelative | src/commands/bundle.ts:61-62 | joining `Path.relative(from, to)` back onto `from` gives `to` (a round trip for any valid `to`, also outside `from`) |
| Paths.SegmentsJoin | src/steps/run-protoc.ts:107-116 | a relative path rendered with `/` and read back by another program gives the same segments |
| Paths.EndsWithLast | src/steps/fetch-protos.ts:30 | filtering full path strings on a suffix without `/` (`.proto`, `.hbs`) is the same as testing the file name |
| FileTree.LeavesUnder | src/steps/run-protoc.ts:135-147 | every path the walk reports lies below the walked path, strictly below for a directory |
| FileTree.LeavesAreFiles | src/steps/run-protoc.ts:140-144 | in a real directory tree the walk reports only files, never a directory |
| FileTree.LeavesComplete | src/steps/run-protoc.ts:138-145 | every file below the walked node is reported |
| FileTree.LeavesNoDup | src/steps/run-protoc.ts:138-145 | in a real directory tree each file is reported once |
| FileTree.FirstExistingSpec | src/util/templates.ts:15 | `candidates.find(existsSync)` picks the earliest existing candidate, and finds nothing exactly when none exists |
| FileTree.FirstExistingAgree | src/util/templates.ts:15 | the search looks only at which candidates exist: two disks on which the same candidates exist give the same answer |
| Walk.WalkDir | src/steps/run-protoc.ts:135-147 | the walk returns nothing for a missing path, fails with ENOTDIR on a file, and lists a directory's files depth first in entry order |
| Walk.WalkEntries | src/steps/run-protoc.ts:138-145 | the push loop over a directory's entries, recursing into subdirectories, yields exactly the depth-first leaves |
| Walk.ListingSpec | src/steps/fetch-protos.ts:42-54 | a successful walk lists paths strictly below the directory; in a real tree only files, each once; and it omits no file below the directory |
| Walk.WithSuffix | src/steps/fetch-protos.ts:30 | the filter keeps exactly the paths whose string ends with the suffix, and keeps a duplicate-free list duplicate-free |
| Walk.WithSuffixOrder | src/steps/fetch-protos.ts:30 | the filter keeps the order of the walk: filtering a concatenation is concatenating the filtered parts, and a single path is kept or dropped on its own |
| Fs.MkdirsSpec | src/commands/bundle.ts:42 | recursive `mkdirSync` succeeds exactly when no prefix of the path is a file; then every prefix is a directory and nothing off the path, and no existing file, changes |
| Fs.MkdirsIdempotent | src/commands/bundle.ts:59 | running recursive `mkdirSync` again after it succeeded changes nothing |
| Fs.MkdirsFiles | src/commands/bundle.ts:42 | recursive `mkdirSync` creates only directories: after it succeeds, the files are exactly the files before |
| Fs.MkdirsAgree | src/commands/bundle.ts:42 | whether recursive `mkdirSync` succeeds depends only on which prefixes of the path are files |
| Fs.FileSystem.MkdirP | src/commands/bundle.ts:63 | `mkdirSync(p, { recursive: true })` on the disk: the new disk is the specified one, and a failure changes nothing |
| Fs.FileSystem.Mkdtemp | src/commands/bundle.ts:21 | the temporary directory is created, empty, exactly when its parent is a directory and the name is free; nothing else changes |
| Fs.FileSystem.CopyFile | src/commands/bundle.ts:64 | `copyFileSync` succeeds exactly when the source is a file, the destination's parent a directory and the destination not a directory; the destination then holds the source's contents and every other file is kept |
| Fs.FileSystem.Remove | src/commands/bundle.ts:70 | a successful `rmSync` leaves nothing at or below the path and keeps every file outside it; a failed one changes nothing |
| Fs.FileSystem.Place | src/steps/fetch-protos.ts:28 | an external program writing a tree at `p` needs `p`'s parent to be a directory; below `p` the disk is then that tree, and elsewhere nothing changes |
| RunProtoc.PluginFor | src/steps/run-protoc.ts:21-35 | every target has a plugin: binary `protoc-gen-<target>`, flag `--<target>_out`, package `@wireio/protoc-gen-<target>` |
| RunProtoc.Trim | src/steps/run-protoc.ts:62 | `trim()` cuts white space at the ends only: the result is a slice of the input with nothing but white space before and after it; it neither starts nor ends with white space, is empty exactly when the input is all white space, and is the input itself when that has no white space at either end |
| RunProtoc.PluginSearchOrder | src/steps/run-protoc.ts:45-76 | the binary is `node_modules/.bin`, else the package's `dist/bin`, else the pnpm store, else a non-blank `which` answer; the not-found error, naming binary and package, comes exactly when all three are missing and `which` fails or prints only blanks |
| RunProtoc.ResolvePluginBin | src/steps/run-protoc.ts:43-77 | the early-return loop, the PATH lookup and the dead fallback compute the binary that search order gives |
| RunProtoc.ProtoRoot | src/steps/run-protoc.ts:84-93 | the import root is `base/proto` if that is a directory, else `base/protos` if that is, else `base`; it never fails |
| RunProtoc.FindProtoRoot | src/steps/run-protoc.ts:84-93 | the candidate loop returns that import root |
| RunProtoc.ProtocArgs | src/steps/run-protoc.ts:111-116 | the argument list has 3 + (number of files) entries: plugin binding, `--proto_path=<root>`, `<outFlag>=<genDir>` |
| RunProtoc.ProtocArgsLocate | src/steps/run-protoc.ts:107-116 | each file argument, resolved against the import root, names its proto file again, in the original order; below the root it is the path with the root removed |
| RunProtoc.Compile | src/steps/run-protoc.ts:105-132 | the command line is built from the inferred root; a non-zero exit fails with its status and writes nothing; on success the output directory holds the compiler's tree and the result is its walk, all below the output directory; files elsewhere are kept |
| RunProtoc.RunProtoc | src/steps/run-protoc.ts:95-133 | the result is decided on the disk before the call (`RunResult`): a missing plugin fails before anything is written or started; else a failed `mkdir` of `<out>/generated` fails before the compiler starts; else a non-zero exit fails with its status; else the result is the walk of the compiler's tree; on success the disk is the old one with `<out>/generated` holding that tree, and only `<out>/generated` and the directories above it that the `mkdir` creates change |
| FetchProtos.ProtoFilesSound | src/steps/fetch-protos.ts:30 | every listed path is a `.proto` name strictly below the clone directory and, in a real tree, a file of the clone |
| FetchProtos.ProtoFilesComplete | src/steps/fetch-protos.ts:30 | every `.proto` file of the clone is listed |
| FetchProtos.ProtoFilesUnique | src/steps/fetch-protos.ts:30 | a real tree lists each proto file once |
| FetchProtos.FetchProtos | src/steps/fetch-protos.ts:11-40 | the result is decided on the disk before the call (`FetchResult`): a failed clone, or a `<out>/proto` that cannot be created, is the clone error; else an empty filter result is the error naming repository and directory; else the result is the `.proto` files of the clone, non-empty, each holding what the clone holds; the disk changes only when the clone lands, and then exactly by placing it at `<out>/proto` |
| Bundle.CopyDestUnder | src/commands/bundle.ts:61-62 | a file below the clone root is copied to the same relative place below `<output>/proto` |
| Bundle.CopyOne | src/commands/bundle.ts:63-64 | one iteration creates the destination's directory and copies; it succeeds exactly when that `mkdir` succeeds, the source is a file and the destination is not a directory; on success the disk is the specified one, the destination holds the source's contents, and every other file is kept |
| Bundle.CopyOneSpec | src/commands/bundle.ts:63-64 | one iteration succeeds exactly when the source is a file and the destination is not the root, not a directory, and has no file among the directories above it |
| Bundle.CopyOneEffect | src/commands/bundle.ts:63-64 | after a successful iteration the destination holds the source's contents, every directory above it is a directory, and every path apart from it is unchanged |
| Bundle.CopyStep | src/commands/bundle.ts:60-65 | one more successful iteration keeps the loop invariant: the files copied so far are in place, sources untouched, other files kept |
| Bundle.CopyProtos | src/commands/bundle.ts:58-65 | the copy loop succeeds exactly when `CopyAll` (create the copy root, then copy each file in order, stopping at the first failure) does, and the disk is then the one it computes; after success every destination is a file; when sources and destinations lie apart each holds its source's contents; files other than destinations are kept |
| Bundle.CopyAllSucceeds | src/commands/bundle.ts:58-65 | when sources and destinations lie apart, the copy root can be created and nothing below it is in the way of a destination (no destination is a directory, no directory on the way is a file), the whole copy succeeds |
| Bundle.CopyOneAgain | src/commands/bundle.ts:63-64 | an iteration whose destination already holds the source's contents, below existing directories, succeeds and changes nothing |
| Bundle.CopyFromSettles | src/commands/bundle.ts:60-65 | a successful copy loop with sources and destinations apart settles every file: each source is still a file, its destination holds the same contents, and the copy root and every directory above a destination are directories |
| Bundle.CopyFromAgain | src/commands/bundle.ts:60-65 | the copy loop over a disk on which every file is settled succeeds and leaves the disk as it was |
| Bundle.CopyAllAgain | src/commands/bundle.ts:57-65 | the copy is idempotent: with sources and destinations apart, copying the same files again over a successful copy's result succeeds and leaves the disk as it was |
| Bundle.CopyPlan | src/commands/bundle.ts:58-65 | with the temporary and output directories apart, each fetched file goes to `<output>/proto/<its path below the clone>`; no destination is a source, and two sources never share a destination |
| Bundle.Publish | src/commands/bundle.ts:42-65 | `mkdir` of the output, then the package assembly, then the copy; the outcome, the trace and, on success, the disk itself are those `PublishResult` decides on the disk before the call: the `mkdir` fails exactly when a prefix of the output directory is a file, the assembly exactly when `generatePackage` does, the copy as `CopyAll` says, and a passing run leaves the disk `CopyAll` computes after the `mkdir`; the first failure stops the rest; whatever the outcome, nothing changes at a path that is not above `<output>/proto` and lies apart from every copy destination; apart from what `generatePackage` writes below the output directory, only the copy destinations can change existing files |
| Bundle.FetchStep | src/commands/bundle.ts:26-29 | fetching into the temporary directory gives `FetchResult` on the disk before: it fails exactly when there is no clone, `tmp/proto` cannot be created, or the clone holds no `.proto` file; a success lists files below `tmp/proto` holding the clone's contents, and the disk is the clone placed there; nothing outside `tmp` changes |
| Bundle.CompileStep | src/commands/bundle.ts:31-39 | compiling with `protoDir = tmp/proto` and `outputDir = tmp` gives `RunResult` on the disk before: it fails exactly when no plugin binary is found, `tmp/generated` cannot be created, or the compiler exits non-zero; it writes only below `tmp/generated` and returns files there |
| Bundle.Build | src/commands/bundle.ts:34-65 | compile, then publish; the outcome, the trace and, on success, the disk are those `BuildResult` decides on the disk before the call; a compile failure changes nothing outside `tmp`; whatever the outcome, nothing changes at a path apart from `tmp/generated` and from every copy destination, and not above `<output>/proto`; apart from what `generatePackage` writes below the output directory, only the copy destinations can change existing files outside `tmp` |
| Bundle.RunSteps | src/commands/bundle.ts:24-67 | the outcome, the trace and, on success, the disk are those `StepsResult` decides on the disk before the call: each step starts exactly when the one before passed, in the order fetch, compile, mkdir, assemble, copy, and the failing step is the last one started; whatever the outcome, nothing changes at a path apart from `tmp` and from every copy destination, and not above `<output>/proto`; a fetch or compile failure touches nothing outside `tmp`; on success each fetched file sits at `<output>/proto/<relative path>` with the clone's contents |
| Bundle.InTempDir | src/commands/bundle.ts:24-75 | the outcome and trace are those `StepsResult` decides on the disk before the steps, whatever the removal does; a passing run leaves `StepsResult`'s disk with `tmp` deleted, or kept when its removal fails, and a failed removal only yields the warning; whatever the outcome, nothing changes at a path apart from `tmp` and from every copy destination, and not above `<output>/proto`; a run stopped at fetch or compile leaves everything apart from `tmp` as it was; the copy result survives the removal |
| Bundle.BundleCommand | src/commands/bundle.ts:18-76 | a failed `mkdtemp` fails before any step and changes nothing; otherwise the outcome and trace are those `StepsResult` decides on the disk with the new directory, and a passing run leaves `StepsResult`'s disk with the directory deleted (kept when its removal fails); each step fails exactly for its own reason, decided on the disk before the command: the fetch when there is no clone or no `.proto` file, the compile when no plugin is found or the compiler fails, the output `mkdir` when a prefix of the output is a file, the assembly when `generatePackage` fails, while the copy succeeds when nothing below the output directory was in its way; the directory is gone afterwards unless its removal fails (the warning case); whatever the outcome, nothing changes at a path apart from the directory and from every copy destination, and not above `<output>/proto`; a run stopped at fetch or compile leaves everything apart from the directory as it was; apart from what `generatePackage` writes, every file that existed before is kept except the copy destinations, which hold the clone's contents |
| Bundle.StepsAfterMkdtemp | src/commands/bundle.ts:21-65 | in a freshly made temporary directory each step starts only when the one before passed and fails exactly for its own reason, decided on the disk before the command: no clone or no `.proto` file; no plugin or a failed compiler; a file in the way of the output directory; a failed assembly; and the copy succeeds when nothing was in its way below the output directory |
| Bundle.FreshFetch | src/commands/bundle.ts:21-29 | in a freshly made temporary directory `tmp/proto` can always be created; the clone lands there, `tmp/generated` does not yet exist, and nothing apart from `tmp` changes |
| Bundle.FreshCompile | src/commands/bundle.ts:31-39 | after the fetch `tmp/generated` can always be created, and the compiler's output leaves the clone and everything apart from `tmp` as it was |
| Bundle.PluginAgree | src/steps/run-protoc.ts:43-77 | the plugin search gives the same answer after changes confined to `tmp`, when `tmp` lies apart from `node_modules` |
| Bundle.OutputAfterTmp | src/commands/bundle.ts:42 | after the steps in `tmp`, creating the output directory succeeds exactly when it would have on the disk before the command, and the tree below it is as it was then |
| Bundle.FreshCopy | src/commands/bundle.ts:57-65 | with the output and temporary directories apart and a real clone tree, the copy succeeds when nothing below the output directory was in its way before the command |
| Bundle.PublishedKept | src/commands/bundle.ts:68-70 | removing the temporary directory leaves the copies in the output directory in place |
| Templates.TemplateCandidatesAt | src/util/templates.ts:10-14 | the three candidates are `templates` in the module's grandparent, parent and own directory |
| Templates.TemplatesDirSearch | src/util/templates.ts:9-22 | the templates directory is the first existing candidate in that order; the error, listing all three candidates in order, comes exactly when none exists |
| Templates.ListTemplates | src/util/templates.ts:40-45 | the listing walks `<templates>/<target>`, keeps `.hbs` files and names them relative to that directory; a missing target directory lists nothing |
| Templates.TemplateListSound | src/util/templates.ts:41-44 | each listed name joined back onto the target directory is a `.hbs` file below it |
| Templates.TemplateListComplete | src/util/templates.ts:41-44 | every `.hbs` file below the target directory is listed |
| Merge.SetShape | src/util/merge.ts:17-19 | `result[key] = v` keeps every member in its place, and adds one member last exactly when the key is new |
| Merge.SetGet | src/util/merge.ts:17-19 | after `result[key] = v` the key reads `v` and every other key reads as before |
| Merge.DeepMerge | src/util/merge.ts:1-23 | the loop over the source keys, recursing into nested objects, computes the merge that `MergeGet` describes |
| Merge.MergeGet | src/util/merge.ts:6-21 | each key of the result: a key absent from the source keeps the target's value; two plain objects merge recursively; any other defined source value (arrays, `null`, scalars) replaces; an `undefined` source value leaves the target's value |
| Merge.MergeKeys | src/util/merge.ts:5-6 | the result's keys are the target's keys and the source keys with a defined value |
| Merge.MergeShape | src/util/merge.ts:5 | the result starts as the target: its keys keep their places, at most one member per source key follows, and keys stay unique |
| Merge.MergeIdentity | src/util/merge.ts:5-6 | an empty source, or one whose values are all `undefined`, gives the target back |
| Logger.NextLevel | src/util/logger.ts:18-24 | a level is taken exactly when it is one of the six names (or is the current one); otherwise the level stays; a valid level stays valid |
| Logger.Tracer.constructor | src/util/logger.ts:5-14 | a logger is built for one fixed level |
| Logger.LogState.constructor | src/util/logger.ts:3 | the module starts at level `info` with a logger built for it |
| Logger.LogState.SetLogLevel | src/util/logger.ts:18-24 | a valid level is taken and a new logger built for it; an unknown level changes neither the level nor the logger |

## Left out

- The `degit` clone itself (src/steps/fetch-protos.ts:18-28) is network I/O. It becomes its result: the cloned tree,
  or a failure. Its cache, `force` and event options are not modelled.
- `which` and `npx protoc` are subprocesses. Only their results are modelled: the standard output and the exit status
  with the written tree. The error text built from `stderr` is not.
- `generatePackage` is not part of this model. Its success or failure is a parameter, and the files it writes are not
  modelled.
- `renderTemplate` and the Handlebars `json` helper (src/util/templates.ts:26-38) belong to a foreign templating
  engine.
- `tracer.colorConsole`, its format and its stderr transport (src/util/logger.ts:5-14) are left out, and so is the
  text of every log message. A logger is only its level.
- `src/index.ts` (yargs, `JSON.parse` of the package data, `process.exit`) and `esbuild.config.js` are not part of
  this model.
- The text of error messages is not modelled. Errors carry the values that text would be built from.
- `Path.resolve(args.output)` against the working directory is not modelled. The output directory is taken as an
  absolute, normalised path, and so are all other paths.
- A target name containing `.` or empty segments is outside the model: `Path.join` would normalise them away.
- Symbolic links, permissions and file timestamps are not modelled. A node is a file or a directory.
- `rmSync` failing halfway is not modelled: a removal either succeeds completely or changes nothing.
- Fs.FileSystem.Place: the compiler's output replaces the `generated` directory wholesale. The real compiler adds
  files to whatever is already there, which in a fresh temporary directory is nothing.
- Bundle.RunSteps, Bundle.InTempDir, Bundle.BundleCommand: the copied contents are promised only when the
  temporary and output directories lie apart, neither inside the other, and the clone is a real directory tree.
  Only then do the copy destinations, which the frame of these members sets apart, all lie below `<output>/proto`
  (Bundle.CopyPlan).
- Bundle.StepsAfterMkdtemp, Bundle.BundleCommand: the copy's success condition is stated in one direction only
  (nothing in the way below the output directory suffices). The plugin and output-directory conditions are stated
  for a temporary directory that lies apart from `node_modules` and from the output directory.
- Bundle.Publish, Bundle.Build, Bundle.RunSteps, Bundle.InTempDir, Bundle.BundleCommand: the files `generatePackage`
  writes below the output directory are not modelled. The claims that nothing changes apart from the temporary
  directory and the copy destinations, and that only copy destinations change existing files, hold apart from them.
- FetchProtos.FetchProtos: `degit` with `force` writes the clone over whatever is at `<out>/proto` and keeps files
  the clone does not hold. The model replaces `<out>/proto` wholesale. The only caller passes a fresh temporary
  directory, where the two agree (Bundle.FreshFetch).
- Merge.DeepMerge: the model does not cover JavaScript's ordering of integer-like keys before other keys, the
  `__proto__` key, or objects that are not plain (dates, class instances). Numbers are unbounded integers.
- Merge.MergeGet, Merge.MergeKeys: these require a source without a repeated key, as a JavaScript object never
  does.
- That the target is not mutated holds by construction: the model works on values.
- Concurrency is left out: two runs sharing an output directory.
