# oro-build runtime and oro-luac, modelled in Dafny

This project models the C core of the oro build tool.

From `oro-build/oro-build.c` it models the runtime entry points that Lua build scripts call:
- `split`: `oro_strsep` and `split_string`;
- `search_path`: the executable lookup;
- `pushenv`: the host environment snapshot;
- `execute`: `execute_process`. This covers building the argument vector, marshalling the `env` table into a NULL-terminated `KEY=VALUE` array through a linked scratch list, creating the child, writing stdin, joining, draining stdout and stderr, the non-zero-exit report and the `goto` cleanup funnel.

From the same file it also models the command-line side: the `--syscall` dispatch in `main`, `echo`, `init-depfile`, and the argument check and target naming of `cp`.

From `oro-luac/main.c` it models the tool that embeds compiled build scripts into a C source file:
- the recursive directory crawl that keeps `.lua` files;
- the table entry writer with its `\xHH` byte escape;
- the checked output writes;
- `main`'s argument check and debug flag.

Each file becomes one Dafny module:

| file | module | form |
|---|---|---|
| `wrappers.dfy` | `Wrappers` | the `Option` and `Result` datatypes |
| `cstrings.dfy` | `CStrings` | C-string helpers: `strpbrk` as `FirstIn`, the NUL-terminated view `CStr`, `NULL`-terminated arrays, concatenation, decimal text |
| `split.dfy` | `Split` | `StrSep` and `SplitString` as methods over a cursor, specified by `TokensFrom` |
| `path_search.dfy` | `PathSearch` | the `search_path` loop as a method, specified by the function `ResolveIn` |
| `env_snapshot.dfy` | `EnvSnapshot` | the `pushenv` loop as a method, specified by `Snapshot` |
| `env_marshal.dfy` | `EnvMarshal` | the scratch list as a `Link` class, the backward fill of the `new_env` array, the cleanup walk |
| `process.dfy` | `Process` | `execute_process` as a method with labelled blocks for its `goto` labels, returning the outcome and the trace of resource events; the functions `Result` and `Trace` specify both |
| `syscalls.dfy` | `Syscalls` | `main`'s dispatch, `echo` (a loop), `init-depfile`, the `cp` plan |
| `luac.dfy` | `Luac` | the escape loop over a four-character array, the crawl as a recursive method specified by `CrawlFrom`, the checked writes, `main` |

The operating system is passed in as parameters:
- `process.dfy` takes the outcome of each allocation and system call as a record `Os`;
- the path search takes a probe function from a path to what `stat`/`access` report;
- `oro-luac` takes the directory listings, the compile results and the output failures as data.

Two behaviours of the code are worth stating plainly:
- The environment marshaller always walks the `env` table, through `__pairs` when the table has one; there is no precomputed list it takes instead. The model walks the table.
- The child's stdout and stderr are drained one after the other, stdout first. The model drains them in that order.

## Model

| member | source | states |
|---|---|---|
| CStrings.FirstIn | oro-build/oro-build.c:186 | `strpbrk` as an offset: the first index from `from` whose character is a delimiter, or the end; no delimiter before it |
| CStrings.CStr | oro-build/oro-build.c:197-201 | a Lua string read as a C string is its longest NUL-free prefix, cut at the first NUL |
| CStrings.NullTerminated | oro-build/oro-build.c:343-347 | a NULL-terminated vector (the argument vector, and `new_env`) holds each string at its index and NULL at index `n` |
| CStrings.DecimalRoundTrip | oro-luac/main.c:189-190 | the decimal text of the bytecode length reads back as that length |
| Split.StrSep | oro-build/oro-build.c:183-192 | one `oro_strsep` call: NULL stays NULL; otherwise it returns the text up to the first delimiter and moves the cursor past it, or to NULL at the end |
| Split.SplitString | oro-build/oro-build.c:194-214 | the table built by `split_string` is exactly the token list `Tokens(CStr(str), DelimSet(delim))` |
| Split.TokensCount | oro-build/oro-build.c:206-209 | splitting gives one more token than there are delimiter characters, including empty tokens |
| Split.TokensFromClean | oro-build/oro-build.c:186-189 | no token contains a delimiter character |
| Split.JoinTokens | oro-build/oro-build.c:186-191 | with one delimiter character, joining the tokens with it gives the input back |
| Split.TokensJoin | oro-build/oro-build.c:206-209 | splitting a join of delimiter-free parts gives the parts back |
| PathSearch.SearchPath | oro-build/oro-build.c:224-310 | the loop returns `Resolve(...)`; a name that contains `/` is returned unchanged, without searching |
| PathSearch.ResolvedAt | oro-build/oro-build.c:240-262 | a found path is the candidate of an accepted entry (regular and executable), and every earlier entry was skipped |
| PathSearch.FirstAcceptedResolves | oro-build/oro-build.c:252-262 | the first accepted candidate after skipped ones is the result |
| PathSearch.ResolveInResolved | oro-build/oro-build.c:240-303 | the result is a path iff some entry's candidate is accepted and every earlier entry is skipped |
| PathSearch.ResolveInNotFound | oro-build/oro-build.c:270-303 | nil comes back iff every entry is skipped: absent, not executable, or an ignored errno (0, EACCES, ELOOP, ENOENT, ENOTDIR) |
| PathSearch.FatalAt | oro-build/oro-build.c:283-297 | a raised error comes from the first entry whose errno is not ignored, with the message naming the errno text, the candidate, the name and the directory |
| PathSearch.FirstFailureRaises | oro-build/oro-build.c:270-297 | conversely, a failing entry after skipped ones raises |
| EnvSnapshot.SplitEntry | oro-build/oro-build.c:107-123 | an entry without `=` is skipped; otherwise the name is the `=`-free text before the first `=`, and `name=value` rebuilds the entry |
| EnvSnapshot.SplitEntryRoundTrip | oro-build/oro-build.c:107-123 | cutting `name=value` at its first `=` gives back the name and the value, for an `=`-free name |
| EnvSnapshot.PushEnv | oro-build/oro-build.c:90-132 | the loop over `environ` builds exactly `Snapshot(environ)` |
| EnvSnapshot.SnapshotHas | oro-build/oro-build.c:101-131 | a name is in the snapshot iff some entry sets it |
| EnvSnapshot.SnapshotLastWins | oro-build/oro-build.c:120-124 | a name's value is the one its last entry gives |
| EnvMarshal.Format | oro-build/oro-build.c:389-404 | under a numeric key the value is used verbatim; under a string key the string is the key, one `=` at the key's length, then the value |
| EnvMarshal.Marshal | oro-build/oro-build.c:384-413 | one environment string per pair, in iteration order |
| EnvMarshal.Link.constructor | oro-build/oro-build.c:386-407 | a new head link holds its string and its parent; its chain holds the parent's strings, then its own |
| EnvMarshal.BuildLinks | oro-build/oro-build.c:384-413 | the count is the number of pairs; the list is empty iff there are none; otherwise the chain from the head holds `Marshal(pairs)` in order |
| EnvMarshal.Flatten | oro-build/oro-build.c:417-432 | filling `new_env` backwards from the head gives the strings in iteration order, followed by NULL |
| EnvMarshal.FreeLinks | oro-build/oro-build.c:450-455 | the cleanup walk frees exactly as many links as were built |
| EnvMarshal.SnapshotOfMarshal | oro-build/oro-build.c:389-404 | the marshalled strings, read back the way `pushenv` reads `environ`, give exactly the script's table, with later pairs winning |
| EnvMarshal.ChildView | oro-build/oro-build.c:429 | the child receives each environment string as a C string, cut at its first NUL |
| EnvMarshal.MarshalSnapshot | oro-build/oro-build.c:389-429 | a child that reads the environment it receives the way `pushenv` reads `environ` sees exactly the script's table, with later pairs winning, when no key holds `=` and no key or value holds NUL |
| EnvMarshal.NulKeyDropped | oro-build/oro-build.c:391-429 | a key with a NUL in it (`A\0B`) reaches the child cut short (`A`), without its `=`, so the child does not see the variable |
| Process.ReadStreamToRs | oro-build/oro-build.c:79-88 | the buffer gains everything read up to the first empty read; the result is the stream's error flag |
| Process.ReadAllChunks | oro-build/oro-build.c:83-85 | when no read comes back empty early, the capture is every chunk, in order |
| Process.BuildReport | oro-build/oro-build.c:517-531 | the message built piece by piece is `NonZeroReport(args, out, err)` |
| Process.ReportLayout | oro-build/oro-build.c:520-530 | the report opens with the fixed head and the quoted arguments, then carries stdout and stderr verbatim between the two banners, and ends with a newline |
| Process.QuotedLength | oro-build/oro-build.c:521-525 | each argument adds three characters of quoting plus its own length |
| Process.SpawnChild | oro-build/oro-build.c:349-468 | the `env` step: a scratch-link allocation failure aborts; otherwise the events are `SetupTrace`, a child exists iff `Creates`, and a failure carries the message `SetupFailure` gives |
| Process.RunChild | oro-build/oro-build.c:470-515 | stdin, join and both drains: success iff no step fails; a failure carries the first failing step's message; on success, the status and captures are the child's; the events are `ChildTrace` |
| Process.Execute | oro-build/oro-build.c:312-555 | the whole call: its outcome is `Result(cmd, os)` and its resource events are `Trace(cmd, os)` |
| Process.SetupEvents | oro-build/oro-build.c:349-461 | the setup attempts creation at most once and frees the environment array exactly once and the scratch links, for a table |
| Process.TraceSpawns | oro-build/oro-build.c:349-468 | process creation is attempted at most once, exactly when the argument vector exists and `env` is nil or a table whose array was allocated |
| Process.TraceSpawnArgs | oro-build/oro-build.c:349-439 | creation receives the argument vector, and the marshalled environment block for a table (inheritance for nil) |
| Process.CreatedTrace | oro-build/oro-build.c:542-551 | when a child was created, the events are setup, child steps, one destroy, then the three frees |
| Process.ChildlessTrace | oro-build/oro-build.c:548-551 | without a child, the events are setup, then the three frees |
| Process.TraceDestroy | oro-build/oro-build.c:542-547 | a created child is destroyed exactly once, after all its other events, and never without creation |
| Process.TraceEndsWithFrees | oro-build/oro-build.c:548-551 | once the argument vector exists, the call always ends by freeing it and both capture buffers |
| Process.TraceFrees | oro-build/oro-build.c:548-551 | the argument vector and both capture buffers are freed exactly once when allocated and never otherwise |
| Process.TraceEnvFrees | oro-build/oro-build.c:447-455 | an `env` table's array is freed exactly once, and its scratch list is released, whatever happens |
| Process.FunnelPrefix | oro-build/oro-build.c:542-551 | everything before `err_free` frees neither the argument vector nor the buffers |
| Process.EmptyCommand | oro-build/oro-build.c:323-325 | an empty argument list raises "argument list cannot be empty" before anything is allocated |
| Process.DestroyNeverMasks | oro-build/oro-build.c:542-547 | a failed destroy keeps an earlier error's message; it turns only a success into the destroy error |
| Process.RaiseOption | oro-build/oro-build.c:517-534 | with `raise` false the child's exit code is returned; otherwise a non-zero exit raises the report |
| Syscalls.Dispatch | oro-build/oro-build.c:900-927 | with no arguments, status 2 and "no arg0"; `--syscall` without a name, status 2; everything but a `--syscall` line goes to the build driver unchanged; a syscall line calls its handler with the name as `argv[0]` |
| Syscalls.DispatchSyscall | oro-build/oro-build.c:906-924 | each syscall name maps to its behaviour: `pass` exits 0, `fail` exits 1, `touch`/`echo`/`init-depfile`/`cp` call their handler, anything else exits 2 naming it |
| Syscalls.RunEcho | oro-build/oro-build.c:714-725 | `echo` prints its arguments separated by single spaces, then a newline, and exits 0 |
| Syscalls.WordsAppend | oro-build/oro-build.c:717-721 | each further word is preceded by one space, the first by none |
| Syscalls.EchoRoundTrip | oro-build/oro-build.c:714-725 | splitting the echoed line (without its newline) on spaces gives back the space-free arguments |
| Syscalls.RunInitDepfile | oro-build/oro-build.c:727-775 | status 2 iff the arguments are not one path of at least three characters ending in `.d`; status 0 iff additionally the file opened and the rule was printed; the file holds the path without `.d`, then `:` and a newline |
| Syscalls.DepfileRule | oro-build/oro-build.c:761-764 | the depfile for `stem.d` holds the rule `stem:` |
| Syscalls.LastSlash | oro-build/oro-build.c:876 | `strrchr`: the index of the last `/`, or -1 |
| Syscalls.Basename | oro-build/oro-build.c:876-877 | the copy's name has no `/`, and it is either the whole name or the text after one of the name's `/` characters |
| Syscalls.BasenameSplit | oro-build/oro-build.c:876-877 | a name without `/` is its own base name; otherwise it is some directory, a `/` and the base name |
| Syscalls.BasenameIdempotent | oro-build/oro-build.c:876-877 | taking the base name twice changes nothing |
| Syscalls.PlanCp | oro-build/oro-build.c:855-879 | fewer than two arguments give status 2 with the usage text; two copy file to file; more copy each input into the last argument under its base name, in order |
| Luac.Unsigned | oro-luac/main.c:194-200 | the bit pattern of a signed char as an unsigned byte |
| Luac.Nibbles | oro-luac/main.c:199-200 | `(b >> 4) & 0xF` and `b & 0xF` on a signed char are the two nibbles of its unsigned byte, for negative bytes too |
| Luac.HexDigit | oro-luac/main.c:199-202 | the digit for a nibble is a character of `0-9` or `A-F`, and reads back as that nibble |
| Luac.EscapeLength | oro-luac/main.c:198-204 | every byte becomes exactly four characters |
| Luac.ByteRoundTrip | oro-luac/main.c:195-204 | reading one `\xHH` group back gives the byte, for all 256 values |
| Luac.EscapeRoundTrip | oro-luac/main.c:195-204 | unescaping the escaped bytecode gives the bytecode back |
| Luac.AppendEscaped | oro-luac/main.c:195-204 | the loop over the four-character `code` buffer appends exactly `Escape(base)` |
| Luac.BuildEntry | oro-luac/main.c:185-205 | the entry built one `rs_cat` at a time is `Entry(path, data)` |
| Luac.EntryDecodes | oro-luac/main.c:185-205 | an entry can be read back: it has the length of its parts; it opens with the fixed text and the path; the decimal length sits three characters after the path and reads back as the byte count; the escaped bytes unescape to the bytecode |
| Luac.Writes | oro-luac/main.c:172-211 | the output receives the header, one entry per table key in walk order, then the footer |
| Luac.Succeeding | oro-luac/main.c:167-170 | the number of writes that go through before the first failing one, never more than the number of writes |
| Luac.WriteTable | oro-luac/main.c:167-211 | the checked writes: the output holds exactly the writes before the first failure; the result is ok iff none failed |
| Luac.WrittenTable | oro-luac/main.c:172-211 | a complete output is the header, the entries in order and the footer |
| Luac.UnreadableSubdir | oro-luac/main.c:73-77 | for a subdirectory that cannot be opened, the crawl as written dereferences a NULL stream in `readdir`; the corrected crawl stops with status 1 and the message `error: opendir(/name): …` |
| Luac.OpenSubdir | oro-luac/main.c:73-77 | corrected opening: a subdirectory that opens is crawled with its listing unchanged; one that does not fails, with the message the root directory's failure gets at lines 139-141 |
| Luac.CrawlDirectory | oro-luac/main.c:42-124 | the recursive `readdir` loop computes `CrawlFrom`, which opens subdirectories with the corrected `OpenSubdir` from "## Findings": skips `.` and `..`, recurses into subdirectories, stores `.lua` files under their path (debug or stripped dump), and stops at the first error with status 1 |
| Luac.CrawlKeys | oro-luac/main.c:51-107 | the crawl keeps existing keys, and every key it adds is the current path, a `/` and a name ending in `.lua` |
| Luac.CrawlKeeps | oro-luac/main.c:42-124 | the crawl keeps every key that no remaining entry reaches (its own path, or a path below it), with its value |
| Luac.CrawlStores | oro-luac/main.c:84-107 | the converse of `CrawlKeys`: a successful crawl stores every loaded `.lua` file it passes under its path, with the dump the debug flag selects |
| Luac.CrawlQuiet | oro-luac/main.c:42-124 | the crawl's status is 0 or 1, and a successful crawl writes nothing to stderr |
| Luac.SingleFile | oro-luac/main.c:42-124 | a directory with `.`, one non-`.lua` file and one `.lua` file yields a table of exactly `/name`, holding the stripped dump unless debug |
| Luac.Enumerated | oro-luac/main.c:183-184 | each written entry is a key of the table with its value, and there are no more entries than walked keys |
| Luac.RunLuac | oro-luac/main.c:126-226 | `main` step by step computes `Luac(argv, io)`, whose crawl uses the corrected subdirectory opening from "## Findings" |
| Luac.LuacUsage | oro-luac/main.c:129-133 | status 2 iff the argument count is not four; otherwise 0 or 1 |
| Luac.SuccessSteps | oro-luac/main.c:138-213 | status 0 means the directory opened, the crawl succeeded, the output opened and every write went through |
| Luac.LuacSuccess | oro-luac/main.c:172-213 | a successful run writes the header, every walked entry and the footer, and nothing to stderr |
| Luac.WalkedTable | oro-luac/main.c:183-209 | when `lua_next` visits every key of the table once, the entries are the table exactly: one per key, each with its value, no key twice |
| Luac.LuacComplete | oro-luac/main.c:155-209 | with such a walk, a successful run writes one entry for every compiled file, with its bytecode, and no file twice |
| Luac.LuacKeys | oro-luac/main.c:51-87 | every key written starts with `/` and ends in `.lua` |

## Left out

- The Lua stack choreography and the `__pairs` iterator adapter (`next_iterator`, `pair_iterator`, `iterator_next`). The `env` table's iteration is modelled as a given sequence of pairs, in iteration order.
- Luac.Enumerated: the order of the `lua_next` walk is a parameter of the run (`LuacIo.enumerate`). That it visits every key once is stated as `WalksOnce` and is required by `WalkedTable` and `LuacComplete`, not built into `Luac`.
- EnvMarshal.MarshalSnapshot: holds only when no key or value contains NUL. With a NUL, the child sees each string cut at it, so a variable can be lost or changed; `NulKeyDropped` shows a key that is dropped.
- Luac.CrawlStores: requires the stored file's name to have no `/` and no later entry with the same name, which holds for a real directory but is not built into the `Listing` type.
- Luac.CrawlDirectory: the crawl models the corrected subdirectory opening (`OpenSubdir`), not the unchecked one. The as-written behaviour is shown only for the subdirectory itself, by `SubdirAsWritten` and `UnreadableSubdir`.
- Argument type checks done by `luaL_check*` and `luaL_checktype`. The non-table command, non-string keys and values, and the "bad argument" prefix that `luaL_argcheck` adds to its message are not modelled. Arguments are modelled as strings.
- `display_traceback`, `main_build`, `main_touch`, `cp_file` and `cp_file_outfd` are outside this model. For `cp`, only the argument check and the target names are modelled, not the opening of the directory and files.
- Windows branches (`_WIN32`), both for the environment block and for the executable check. Only the POSIX build is modelled.
- The child process runs outside the model. The stdout and stderr pipes are given as sequences of `fread` chunks plus an error flag. The 4096-byte chunk size is not modelled.
- The deadlock risk of draining stdout before stderr is not modelled: there is no concurrency in the model.
- The `oro_strsep` write of NUL into the duplicated buffer is modelled as the token's end.
- The duplicated path string in `search_path` is never freed when a fatal error is raised. This leak is not modelled.
- `«` and `»` are modelled as one character each, while the C source writes them as two-byte UTF-8. Elsewhere one `char` of the model stands for one byte of the C strings; there is no encoding.
- Process.Execute: an allocation failure for a scratch link calls `abort()`. This is modelled as the `Aborted` outcome, decided by one flag for the whole list.
- `errno` and `strerror` texts are parameters.
- Process.Execute: the exit code is returned with `lua_pushnumber`, so a script sees it as a Lua float. The model returns it as an integer.
- Creating the Lua state in `oro-luac` is assumed to succeed.
- `luaL_loadfile` and `lua_dump` are opaque: each file's outcome is given as bytecode (debug and stripped) or an error message.
- A failed `fwrite` is assumed to write nothing.
- `char` is assumed to be signed, and `>>` on a negative value is assumed to be an arithmetic shift, as on the platforms the tool targets.
- The `prefix` argument of `oro-luac` (`argv[2]`) is not read by the code, and the model does not read it either.

## Findings

| source | as written | input that shows it | evidently intended | confidence | as-written member | corrected member |
|---|---|---|---|---|---|---|
| oro-luac/main.c:73-77 | the results of `openat` and `fdopendir` for a subdirectory are not checked, so a NULL `DIR *` reaches the recursive `readdir` | a source directory that contains a subdirectory without read permission | report the error naming the subdirectory and exit with status 1, as is done for the root directory at lines 138-142 | high; not executed | Luac.UnreadableSubdir | Luac.OpenSubdir |
