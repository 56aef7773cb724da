# devop, modelled in Dafny

devop is a development helper. It watches a directory tree, matches every changed file
against the rules of its `devop.yml`, and runs the shell command of each rule that fires.
A background rule's process is killed and restarted when the rule fires again. A rule's
`Continue` names the rule to run after it. devop also puts a reverse proxy in front of the
application: each request first drains the queue of pending commands, and the proxy's dial
function retries while the application is not yet listening.

This project models the bookkeeping behind that loop:

- **Service settings.** `Service.Init` settles the ports, the refresh interval, the root
  directory and the layered environments, and sets up every rule.
  - The `expander` closure looks names up in an environment, last entry wins.
  - main's own loading loop then sets each rule up a second time.
- **Matching.** A changed file is matched against the rule table and queued into a table
  of rendered command strings. The first entry for a string wins. The initial scan folds
  this over a walk of the root directory.
- **Draining.** The pending table is swapped for an empty one.
- **Batches and continuations.** A batch of commands runs, and the next batch is built
  from the batch's continuations.
- **Per-rule registries of background processes.**
  - runCommand kills what used to run under a command string down the chain of
    background continuations, then registers the new process before it is started.
  - forceKillProcess kills and forgets one entry; forceKillAllProcess kills and forgets
    them all.
- **Dialling.** The proxy's dial function makes at most 503 attempts.

Modules:

| module | file | what it holds |
|---|---|---|
| `Wrappers` | wrappers.dfy | `Option` |
| `Text` | text.dfy | `strings.Index` and `strings.SplitN(s, sep, 2)` for one-character separators |
| `Environ` | environ.dfy | environment entries, the expander's lookup, environment layering |
| `Commands` | commands.dfy | rules (`command` in lib.go), process handles, the operating system as a ghost record of starts and kills, the two force-kill operations |
| `Config` | config.dfy | `Service` and `Init` |
| `Matching` | matching.dfy | `matchCommands`, `scanAndGetCommands` |
| `Continuations` | continuations.dfy | the next-batch loop, killCommand's chain, and the effect of killCommand and runCommand on registries held as values |
| `Orchestration` | devop.dfy | main's state (rule table, pending table, registries, trace) and its operations |
| `Proxy` | proxy.dfy | the dial-retry closure |

### How the outside world appears

Everything outside the core is an opaque parameter:

- The regular-expression library is a `Regexp` value holding a `matchString` function and
  a `replaceAllString` function. A compiled pattern is kept as its source text.
- `os.Expand` is a function of the text and of the environment its expander reads.
  `os.ExpandEnv` is a function of the text alone.
- `os.Getwd()`, `filepath.Abs`, `os.Environ()` and the flag values are parameters of
  `Init`.
- The directory walk is the sequence of entries `filepath.Walk` visits, each of which
  could be read (see `Matching.ScanAndGetCommands` under "## Left out").
- Each dial outcome is `dial(k)`, the result of the k-th attempt.
- Process handles are objects. Starting and killing a process are recorded in the
  ghost sequences `Os.started` and `Os.killed`. Whether `Start` succeeds is the OS's
  choice (`ok :| true`).

### Go semantics the model keeps

- A nil map reads as empty. A rule's `running` registry is `None` for a nil map.
- Slices are references. A rule without an `Env` of its own receives the service slice
  itself (lib.go:108), and main's `environ` is that slice too (main.go:74). main's
  in-place rewrite (main.go:95-97) of such a rule's env therefore rewrites the service
  slice and the env of every other rule still holding it. The flag `Rule.envShared`
  marks those rules. `ExpandTimes` gives the slice's contents after each rewrite, and
  each rule is loaded against the contents its turn sees. A rule stops sharing once
  main gives it a fresh slice (main.go:98).
- Go's map iteration order is unspecified. Loops over maps pick their next element
  with `:|`, and their contracts hold for every order.
- `strconv.Atoi("")` yields 0, so an empty app port after a non-empty `-p` flag becomes
  `"1"` (lib.go:65-68).
- Because of the `:=` shadowing in killCommand (main.go:211), the final forceKillProcess
  (main.go:217) applies to the outer rule.
- runCommand registers the new process before `cmd.Start()`. A failed start therefore
  leaves it registered (main.go:243-254).
- The dial loop makes one first attempt, then retries for counters 0 to 501. That is at
  most 503 attempts (main.go:149-163).
- `ReplaceAllString(command.Command, path)` replaces the matches of the pattern *inside
  the command template* with the path (main.go:294). `Render` keeps that argument order.
  A reading in which the path is rewritten by the template is not what the code does.
- The next batch maps a continuation's own `Command` template to the continuation rule.
  The template is taken verbatim. When two continuations share a template, whichever
  the loop visits last wins, so the model allows either one.
- A batch in which some rule has a non-empty `Continue` builds a next batch even when
  no name resolves. runCommands then makes one more call, on an empty batch, which
  stops.

## Model

| member | source | states |
|---|---|---|
| `Text.IndexOf` | lib.go:54 | the first position of the separator, or -1 exactly when the string has none |
| `Text.SplitOnce` | lib.go:137 | `SplitN(s, c, 2)`: one part (the whole string) exactly when `c` is absent; otherwise the text before the first `c` and the rest |
| `Environ.Lookup` | lib.go:134-144 | the value part of the last entry whose key is `name` (it may contain `=`), and "" when no key matches; requires each entry with that key to contain `=` (line 139 indexes `env[1]`) |
| `Environ.ExpanderCall` | lib.go:135-143 | the closure's forward scan, overwriting `found` at each matching key, returns `Lookup` (last match wins) |
| `Environ.LookupSnoc` | lib.go:136-141 | an appended entry answers for its own key; for every other key the earlier list answers |
| `Environ.LookupAppend` | lib.go:134-144 | an appended list shadows the earlier one for every key it defines; other keys still resolve in the earlier list |
| `Environ.CommandEnvOverrides` | lib.go:102-109 | a command environment has length `len(s.Env) + len(command.Env)`, starts with the service environment, and a command entry overrides a service entry with the same key |
| `Environ.ShadowedPrefix` | lib.go:134-144 | prepending entries whose keys the list already defines changes no lookup |
| `Environ.RelayeringIsInvisible` | main.go:94-98 | putting the service environment in front of the already-layered command environment changes no expander lookup |
| `Config.PortSettings` | lib.go:53-71 | with a `-p` flag: dev port = text before the first `:` ("8080" if empty), app port = text after it or the configured one ("1" if empty); without one: app port becomes "8080" only when dev is set and app is empty, otherwise both unchanged |
| `Config.RefreshSetting` | lib.go:73-77 | the `-t` flag when non-empty, else the configured value, else "2s"; never empty |
| `Config.ExpandEach` | lib.go:103-105 | same length; entry i is `os.Expand` of entry i against the service environment |
| `Config.Service.Init` | lib.go:51-152 | ports and refresh as above; dir = cwd when unset, else its absolute form; env = os.Environ() ++ s.Env; every rule `Settled`: the pattern becomes Match when Match is non-empty and is kept otherwise, a background rule gets a fresh empty registry and a wait-mode rule keeps its own, the env is layered behind the service env, command, hooks and non-empty dir are expanded against it, and a rule without its own env is marked as holding the service slice itself (lib.go:108); afterwards `GetRoot()` is cwd when Dir was unset and its absolute form otherwise, and `GetEnv()` is os.Environ() ++ the configured env: the values main.go:74-75 reads |
| `Config.Service.InitSettings` | lib.go:53-85 | the service-wide fields as in `Init` |
| `Config.Service.InitCommands` | lib.go:88-131 | every rule of the table is `Settled` against the service environment |
| `Config.Service.InitCommand` | lib.go:94-119 | one rule goes from its old fields to `AfterInit` of them |
| `Config.Service.ExpandEnvInPlace` | lib.go:103-105 | the command's env, rewritten index by index, equals `ExpandEach` of the old env |
| `Commands.Os.KillProcessGroup` | main.go:322-327 | the process is appended to the kill record; nothing is started |
| `Commands.Os.Start` | main.go:250 | the process is recorded as started exactly when the start succeeds |
| `Commands.Started` | main.go:250-254 | the processes of a run sequence whose start succeeded, in order; each is one of the runs' processes |
| `Commands.StartedSnoc` | main.go:270-272 | one more run adds its process to the starts exactly when its start succeeded |
| `Commands.StartedAppend` | main.go:269-288 | the starts of two run sequences one after the other are the starts of the first, then of the second |
| `Commands.Rule.ForceKillProcess` | main.go:315-320 | the registry loses exactly key `s` and nothing else; its process is killed when present; a no-op when absent |
| `Commands.Rule.ForceKillAllProcess` | main.go:329-334 | the registry is empty afterwards; every registered process was killed and only registered processes were |
| `Matching.MatchOne` | main.go:292-299 | one rule's turn keeps every queued entry; any new entry is the rule's rendered string with the rule as value, and only when it fires; a firing rule's string is queued afterwards; a rule that does not fire changes nothing |
| `Matching.MatchOneExtends` | main.go:291-301 | one more rule's turn extends the match invariant (no key overwritten, every firing rule's string present, every new key rendered by a firing rule) to that rule |
| `Matching.MatchCommands` | main.go:290-302 | `MatchedInto`: existing keys keep their values; a string is added iff some rule with a pattern fires for the path and renders to it, under such a rule |
| `Matching.MatchIdempotent` | main.go:295-298 | matching the same path a second time leaves the table unchanged |
| `Matching.MatchGrows` | main.go:295-298 | matching never removes a key, so the table size never decreases |
| `Matching.NoPatternNoMatch` | main.go:292 | a rule without a compiled pattern (empty Match) is the value of no entry matchCommands adds, whatever the other rules do |
| `Matching.ScanAndGetCommands` | main.go:304-313 | starting from an empty table, the result is `ScannedInto` the walk: exactly the strings rendered by rules firing on some non-directory entry; directories never count |
| `Matching.ScanStep` | main.go:307-309 | matching one more file extends a scan by that file |
| `Matching.ScanSkip` | main.go:307 | a directory entry adds nothing to a scan |
| `Continuations.NextBatch` | main.go:274-284 | None exactly when no batch rule has a non-empty Continue; otherwise every resolvable continuation is queued under its own Command template and every entry is such a continuation; unknown names add nothing |
| `Continuations.NextBatchRanked` | main.go:285-287 | with an acyclic continuation graph, the next batch ranks strictly lower, so the recursion terminates |
| `Continuations.KillChain` | main.go:210-213 | the rules killCommand may touch: the rule itself and, through background continuations, their chains, all in the table |
| `Continuations.KillSpec` | main.go:207-219 | killCommand on registry values; the same rules keep registries |
| `Continuations.KillSpecEffect` | main.go:207-219 | killCommand only forgets entries; it does nothing when `s` is not registered; afterwards the outer rule has no entry for `s` and that entry's process is the last killed; rules off the chain are untouched |
| `Continuations.KilledWereRegistered` | main.go:207-219 | every process killCommand kills was registered under a rule of the chain, and that entry is gone afterwards |
| `Continuations.Register` | main.go:246 | the rule now maps `s` to the new process; its other entries and every other rule's registry are unchanged |
| `Continuations.RunSpec` | main.go:223-247 | runCommand on registry values: the same rules keep registries |
| `Continuations.RunRegisters` | main.go:225-247 | after kill-then-register, a background rule maps `s` to the new process, has no entry it did not have before, and other entries are unchanged, so there is one process per command string |
| `Continuations.RunAll` | main.go:270-272 | the runs of a batch, one after the other, on registry values: the same rules keep registries |
| `Continuations.RunAllSnoc` | main.go:270-272 | one more run extends the fold by that run's registries and kills |
| `Continuations.RunAllAppend` | main.go:269-288 | running one run sequence and then another is running their concatenation: registries thread through, kills concatenate |
| `Orchestration.EnumeratesStep` | main.go:270-272 | running one more batch entry extends a listing of the batch's entries, each exactly once |
| `Orchestration.RunsFollowCons` | main.go:269-288 | running a batch, then the batches after it, gives their runs one after the other |
| `Orchestration.ContinuationSequenceCons` | main.go:274-287 | a batch with a continuation, followed by the sequence its next batch starts, is a continuation sequence |
| `Orchestration.BatchThenRest` | main.go:285-287 | the runs of a call whose batch recurses are the batch's runs, then the recursive call's |
| `Orchestration.LastBatch` | main.go:285 | a batch without any Continue is the last batch: no recursive call |
| `Orchestration.ExpandEachEnv` | main.go:95-97 | same length; entry i is `os.ExpandEnv` of entry i |
| `Orchestration.ExpandTimes` | main.go:94-97 | the service slice after some number of in-place rewrites keeps its length |
| `Orchestration.ExpandTimesFixed` | main.go:94-97 | when os.ExpandEnv leaves every service entry as it is, the shared slice reads the same after any number of rewrites |
| `Orchestration.LoadKeepsLookups` | main.go:94-98 | for a rule whose env is the service env layered with its own (and is the service slice exactly when it has none), when os.ExpandEnv leaves the entries as they are, main's second layering changes no expander lookup |
| `Orchestration.Depths` | main.go:78 | the load-order bookkeeping only mentions visited rules |
| `Orchestration.DepthsInLoadOrder` | main.go:78-99 | visiting distinct rules yields a load order: each rule's depth counts the rules sharing the service slice loaded before it, and the sharing rules are listed in load order |
| `Orchestration.LoadStep` | main.go:78-99 | loading one more rule advances the slice by one rewrite exactly when that rule shares it, and extends the bookkeeping by that rule |
| `Orchestration.Trace.Record` | main.go:249 | a run of the command string with its rule is appended to the trace |
| `Orchestration.Devop.ForceKillProcess` | main.go:315-320 | on the table's registries: they go from `regs` to `Forget(regs, rule, s)`, and the forgotten process is killed |
| `Orchestration.Devop.KillCommand` | main.go:207-219 | the registries become `KillSpec`'s and the kills are `KillSpec`'s, in order; nothing is started |
| `Orchestration.Devop.RegisterProcess` | main.go:243-247 | the registries become `Register(regs, rule, s, cmd)` |
| `Orchestration.Devop.KillFirst` | main.go:225-227 | a wait-mode rule kills nothing; a background rule's registries and kills become `KillSpec`'s; nothing is started |
| `Orchestration.Devop.Launch` | main.go:243-252 | a background rule registers the process before the start; the process is recorded started exactly when the start succeeds; nothing is killed; the run is traced |
| `Orchestration.Devop.RunCommand` | main.go:223-264 | the process is `bash -c s` with the rule's env, dir, output wiring and own group iff background; a wait-mode rule's registries and kills are untouched; a background one's are kill-then-register; started at most once; the run is traced |
| `Orchestration.SpawnedSnoc` | main.go:229-245 | a run and the process built for it (`Builds`: `bash -c` of its string, its rule's env and dir, output wiring, own group iff background) extend the pairing `Spawned` of runs and processes |
| `Orchestration.SpawnedAppend` | main.go:269-288 | the pairings of two run sequences with their processes concatenate |
| `Orchestration.Devop.RunNext` | main.go:271 | one more run extends the fold of registries, kills, starts and trace by that run; its process is `bash -c` of the string with the rule's env and dir as they were, its output wiring, and its own group iff background, and it extends the pairing `Spawned` |
| `Orchestration.Devop.RunTurn` | main.go:270-272 | one turn of the loop takes an entry still to do and keeps every loop fact: lists it, pairs its process with it, and folds its registries, kills, starts and trace |
| `Orchestration.Devop.RunBatch` | main.go:270-272 | every batch entry is run exactly once, in some order; the registries end as `RunAll` of those runs leaves them, the kill log grows by its kills and the start log by the runs whose start succeeded; exactly the background rules keep a registry; `procs[i]` is the process built for the i-th run (`Spawned`) |
| `Orchestration.Devop.RunCommands` | main.go:269-288 | the batches run are a `ContinuationSequence` from the given one (each the next batch of the one before, the last without any Continue); the runs follow the batches; the registries, kills and starts are `RunAll`'s and `Started`'s over all the runs; each process is the one built for its run (`Spawned`); patterns, templates, envs and dirs are unchanged |
| `Orchestration.Devop.RunRest` | main.go:274-287 | after a batch's runs, the recursive call on its next batch completes the continuation sequence, and the registries, kills and starts of both parts fold into those of all the runs, and so do the pairings of runs and processes |
| `Orchestration.Devop.RunFromValid` | main.go:269-288 | runCommands from a valid state keeps the state valid, with the effects of `RunCommands` starting from the current registries; `procs[i]` is `bash -c rs[i].0` with `rs[i]`'s rule's env, dir and output wiring, in a group of its own iff the rule is a background one |
| `Orchestration.Devop.Drain` | main.go:188-194 | returns exactly the old pending table and whether it was non-empty; pending is empty afterwards |
| `Orchestration.Devop.RunCommandsIfNeeded` | main.go:187-200 | pending is empty afterwards; non-empty pending runs the continuation sequence from it; empty pending runs nothing and touches no process or registry; in both cases the registries, kills and starts are those of the runs made, and each process is the one built for its run |
| `Orchestration.Devop.Track` | tracker_darwin.go:42-44 | the pending table becomes `MatchedInto` the changed path |
| `Orchestration.Devop.InitialScan` | main.go:113-114 | the first batch is what the scan of the walk matched, and the continuation sequence from it is run, with the registries, kills and starts of its runs, and each process built for its run |
| `Orchestration.Devop.LoadCommands` | main.go:74-111 | every rule is `Loaded` against the service slice as the rules sharing it loaded before it left it (`depth`, a load order over the sharers that Init marked): pattern from non-empty Match, dir through os.ExpandEnv, empty registry iff background, a non-empty env re-expanded behind the slice, a shared env expanded in place and put behind its own new contents; and the state invariant holds |
| `Orchestration.Devop.LoadAll` | main.go:74-99 | every rule is `Loaded` as above in a load order of the sharers; pattern iff non-empty Match; registry iff background |
| `Orchestration.Devop.LoadNext` | main.go:78-99 | one more turn of the loop loads one rule at the current rewrite count, leaves the rules not yet loaded as they were and the loaded ones as they are, and rewrites the service slice exactly when the rule shares it |
| `Orchestration.Devop.LoadCommand` | main.go:83-99 | one rule goes from its old fields to `AfterLoad` of them; the service slice comes out expanded once exactly when the rule held it (lib.go:108), otherwise unchanged |
| `Orchestration.Devop.ExpandEnvInPlace` | main.go:94-97 | the rule's env, rewritten in place, equals `ExpandEachEnv` of the old env |
| `Orchestration.Devop.Shutdown` | main.go:120-128 | every registry is empty; every registered process was killed, and only registered processes were; nothing started |
| `Orchestration.Devop.KillAll` | main.go:120-121 | forceKillAllProcess on every rule: all registries empty, nil ones still nil, every registered process killed and only those |
| `Proxy.Dial` | main.go:149-163 | between 1 and 503 attempts; the result is the last attempt's; every earlier attempt failed; a failure means all 503 attempts were made |
| `Proxy.DialOutcome` | main.go:149-163 | the call fails exactly when all 503 attempts fail; otherwise it returns the first successful attempt's connection |

## Left out

- Process spawning and signalling are OS calls: `exec.Command`, `Start`, `Wait`,
  `Getpgid`, `syscall.Kill`, `cmd.Run`. They appear only as process objects and the
  ghost records `Os.started` and `Os.killed`.
- `Orchestration.Devop.RunCommand` does not model waiting on a wait-mode process, or
  the log of its error.
- Concurrency is not modelled: `pendingMx`, `runMutex`, the signal goroutine, the
  `time.Tick` auto-refresh and the watcher goroutines. Drain, matching and registry
  updates are sequential.
- Regular expressions are opaque functions of the pattern's source.
  `regexp.MustCompile` panics on a malformed pattern; that panic is not modelled.
- `os.Expand` and `os.ExpandEnv` are opaque functions. `os.Expand` would panic inside
  the expander when a matching entry has no `=`; the model has no such panic.
  `Environ.Lookup` instead requires that no such entry exists.
- The HTTP server, the reverse proxy's director and transport, `time.ParseDuration`,
  reading and decoding `devop.yml`, and flag parsing are I/O and library code.
- The 10 ms pause between dial attempts and the dialer's timeouts are not modelled.
- The file-system trackers (tracker.go, tracker_darwin.go) are not modelled. Only the
  matchCommands call a tracker makes on a changed file is, as `Track`.
- The `Oninit` and `Onexit` hooks are not run. Their execution, the early return when
  an init hook fails, and `os.Exit` are process runs.
- The `Building` field of a rule is never read by the core and has no counterpart.
- The `trace` and `debug` log lines are not modelled. `Trace.runs` records the runs that
  runCommand traces (main.go:249). `Trace.batches` is a ghost record of the calls to
  runCommands, which logs nothing itself.
- `Continuations.Ranked`: runCommands and killCommand have no cycle guard. With a
  continuation cycle they would not stop. The model requires a ranking in which every
  continuation link descends, and proves termination under it.
- `Orchestration.Devop.RunBatch`, `InitCommands`, `LoadAll` and `KillAll` each visit
  distinct rule objects, or distinct batch keys. Go's loops visit table names. When two
  names share one rule object, Go would set that rule up twice; the model does so once.
- Go maps are references, but no two rules share a registry. Registries are therefore
  held by value in each rule. `Continuations` reasons about all registries as a map
  from rule to contents.
- `Orchestration.Devop.Track` and `InitialScan` state their matches against ghost
  snapshots of the rules' patterns and templates. The `Valid` invariant ties those
  snapshots to the rules' fields.
- `Config.Service.GetRoot` and `Config.Service.GetEnv` are plain accessors. What they
  return after Init is stated in `Init`'s contract.
- `Matching.ScanAndGetCommands`: `filepath.Walk` calls the walk function with a nil
  `FileInfo` when it cannot lstat an entry: a missing root, a root of "" after a failed
  `Getwd`, or an entry removed during the walk. main.go:307 then calls `IsDir` on nil
  and panics. `WalkEntry` has no error case, so the model scans as if every entry could
  be read.
- `Commands.Os.KillProcessGroup`: a failed `Start` leaves the handle registered without
  a process (main.go:246-254). The next kill of that entry dereferences the nil
  `Process` at main.go:323 and panics. The model records that kill like any other.
- Once main's loading loop has rewritten the service slice in place, `devService.Env`
  holds the rewritten entries. Nothing reads it later, so `Service.Env` is not updated.
