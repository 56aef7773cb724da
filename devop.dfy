/** The orchestration state of main.go: the rule table `commands`, the `pendingCommands`
    table the watcher fills, the per-rule registries of background processes, and the
    operations that load the rules, queue matches, drain the queue and run batches of
    commands with their continuations. */
module Orchestration {
  import opened Wrappers
  import opened Commands
  import opened Config
  import opened Matching
  import opened Continuations
  import opened Environ

  /** Ghost history of the run: every command string runCommand traced with its rule
      (main.go:249), and, as a record of the calls to runCommands, every batch it was
      called with, in order. */
  class Trace {
    ghost var runs: seq<(string, Rule)>
    ghost var batches: seq<map<string, Rule>>

    constructor ()
      ensures runs == [] && batches == []
    {
      runs := [];
      batches := [];
    }

    /** A call of runCommand for `cmdString` on `command`. */
    ghost method Record(cmdString: string, command: Rule)
      modifies this
      ensures runs == old(runs) + [(cmdString, command)] && batches == old(batches)
    {
      runs := runs + [(cmdString, command)];
    }
  }

  /** `order` lists the entries of `batch` whose keys are in `done`, each exactly once. */
  ghost predicate EnumeratesPart(order: seq<(string, Rule)>, batch: map<string, Rule>, done: set<string>)
  {
    && (forall i, j | 0 <= i < j < |order| :: order[i].0 != order[j].0)
    && (forall i | 0 <= i < |order| :: order[i].0 in done && order[i].0 in batch && batch[order[i].0] == order[i].1)
    && (forall k | k in done :: exists i | 0 <= i < |order| :: order[i].0 == k)
  }

  /** `order` lists the entries of `batch`, each exactly once. */
  ghost predicate Enumerates(order: seq<(string, Rule)>, batch: map<string, Rule>)
  {
    EnumeratesPart(order, batch, batch.Keys)
  }

  /** Listing one more entry of the batch. */
  lemma EnumeratesStep(order: seq<(string, Rule)>, batch: map<string, Rule>, todo: set<string>, k: string)
    requires EnumeratesPart(order, batch, batch.Keys - todo) && k in todo && todo <= batch.Keys
    ensures EnumeratesPart(order + [(k, batch[k])], batch, batch.Keys - (todo - {k}))
  {
    var done := batch.Keys - todo;
    assert batch.Keys - (todo - {k}) == done + {k};
    var next := order + [(k, batch[k])];
    forall j | j in done + {k} ensures exists i | 0 <= i < |next| :: next[i].0 == j {
      if j == k {
        assert next[|order|].0 == k;
      } else {
        var i :| 0 <= i < |order| && order[i].0 == j;
        assert next[i].0 == j;
      }
    }
  }

  /** `rs` is the runs of the batches `bs` one after the other, each batch in some order. */
  ghost predicate RunsFollow(rs: seq<(string, Rule)>, bs: seq<map<string, Rule>>)
    decreases |bs|
  {
    if bs == [] then rs == []
    else exists n | 0 <= n <= |rs| :: Enumerates(rs[..n], bs[0]) && RunsFollow(rs[n..], bs[1..])
  }

  /** `bs` is the sequence of batches one runCommands(first) call runs: `first`, then each
      batch built from the one before while that one has a rule with a continuation. */
  ghost predicate ContinuationSequence(root: map<string, Rule>, tmpl: map<string, string>,
                                       bs: seq<map<string, Rule>>, first: map<string, Rule>)
    requires root.Keys <= tmpl.Keys
  {
    && |bs| > 0 && bs[0] == first
    && (forall i | 0 <= i < |bs| - 1 :: HasContinue(bs[i]) && NextBatchOf(root, tmpl, bs[i], bs[i + 1]))
    && !HasContinue(bs[|bs| - 1])
  }

  /** Running one batch and then the batches that follow it. */
  lemma RunsFollowCons(order: seq<(string, Rule)>, batch: map<string, Rule>,
                       rest: seq<(string, Rule)>, bs: seq<map<string, Rule>>)
    requires Enumerates(order, batch) && RunsFollow(rest, bs)
    ensures RunsFollow(order + rest, [batch] + bs)
  {
    var rs := order + rest;
    assert rs[..|order|] == order && rs[|order|..] == rest;
    assert ([batch] + bs)[1..] == bs;
  }

  /** A batch with a continuation, followed by the sequence its next batch starts. */
  lemma ContinuationSequenceCons(root: map<string, Rule>, tmpl: map<string, string>, batch: map<string, Rule>,
                                 next: map<string, Rule>, bs: seq<map<string, Rule>>)
    requires root.Keys <= tmpl.Keys
    requires HasContinue(batch) && NextBatchOf(root, tmpl, batch, next)
    requires ContinuationSequence(root, tmpl, bs, next)
    ensures ContinuationSequence(root, tmpl, [batch] + bs, batch)
  {
    var all := [batch] + bs;
    forall i | 0 <= i < |all| - 1 ensures HasContinue(all[i]) && NextBatchOf(root, tmpl, all[i], all[i + 1]) {
      if i > 0 {
        assert all[i] == bs[i - 1] && all[i + 1] == bs[i];
      }
    }
  }

  /** What runCommands(batch) ran, given what the call on its next batch ran. */
  lemma BatchThenRest(root: map<string, Rule>, tmpl: map<string, string>, batch: map<string, Rule>,
                      next: map<string, Rule>,
                      order: seq<(string, Rule)>, restBs: seq<map<string, Rule>>, restRs: seq<(string, Rule)>,
                      oldBs: seq<map<string, Rule>>, oldRs: seq<(string, Rule)>)
    returns (bs: seq<map<string, Rule>>, rs: seq<(string, Rule)>)
    requires root.Keys <= tmpl.Keys
    requires HasContinue(batch) && NextBatchOf(root, tmpl, batch, next) && Enumerates(order, batch)
    requires ContinuationSequence(root, tmpl, restBs, next) && RunsFollow(restRs, restBs)
    ensures ContinuationSequence(root, tmpl, bs, batch) && RunsFollow(rs, bs)
    ensures (oldBs + [batch]) + restBs == oldBs + bs && (oldRs + order) + restRs == oldRs + rs
    ensures rs == order + restRs
  {
    ContinuationSequenceCons(root, tmpl, batch, next, restBs);
    RunsFollowCons(order, batch, restRs, restBs);
    AppendAssoc(oldBs, [batch], restBs);
    AppendAssoc(oldRs, order, restRs);
    bs := [batch] + restBs;
    rs := order + restRs;
  }

  /** What runCommands(batch) ran when no rule of the batch has a continuation. */
  lemma LastBatch(root: map<string, Rule>, tmpl: map<string, string>, batch: map<string, Rule>,
                  order: seq<(string, Rule)>, oldRs: seq<(string, Rule)>)
    returns (bs: seq<map<string, Rule>>, rs: seq<(string, Rule)>)
    requires root.Keys <= tmpl.Keys
    requires !HasContinue(batch) && Enumerates(order, batch)
    ensures ContinuationSequence(root, tmpl, bs, batch) && RunsFollow(rs, bs)
    ensures bs == [batch] && rs == order
  {
    RunsFollowCons(order, batch, [], []);
    assert order + [] == order;
    bs := [batch];
    rs := order;
  }

  /** The entries of a command's environment, each passed through os.ExpandEnv. */
  function ExpandEachEnv(entries: seq<string>, expandEnv: string -> string): (expanded: seq<string>)
    ensures |expanded| == |entries|
    ensures forall i | 0 <= i < |entries| :: expanded[i] == expandEnv(entries[i])
  {
    seq(|entries|, i requires 0 <= i < |entries| => expandEnv(entries[i]))
  }

  /** The service environment slice after `k` rewrites in place by os.ExpandEnv. */
  function ExpandTimes(environ: seq<string>, expandEnv: string -> string, k: nat): (expanded: seq<string>)
    ensures |expanded| == |environ|
  {
    if k == 0 then environ else ExpandEachEnv(ExpandTimes(environ, expandEnv, k - 1), expandEnv)
  }

  /** When os.ExpandEnv leaves every entry of the service environment as it is, no number
      of rewrites through the rules sharing it changes it. */
  lemma {:induction false} ExpandTimesFixed(environ: seq<string>, expandEnv: string -> string, k: nat)
    requires forall i | 0 <= i < |environ| :: expandEnv(environ[i]) == environ[i]
    ensures ExpandTimes(environ, expandEnv, k) == environ
  {
    if k > 0 {
      ExpandTimesFixed(environ, expandEnv, k - 1);
      assert ExpandEachEnv(environ, expandEnv) == environ;
    }
  }

  /** The fields main's loading loop (main.go:78-99) leaves in rule `r` whose fields were
      `before`, when the service environment slice reads `environ`: the pattern compiled
      again, the directory passed through os.ExpandEnv, a new empty registry for a
      background rule, and a non-empty environment re-expanded and put behind `environ`
      once more. When the rule's environment is the service slice itself, the rewrite
      expands that slice and its new contents go in front of themselves; from then on
      the rule has a copy of its own. */
  function AfterLoad(r: Rule, before: Fields, environ: seq<string>, expandEnv: string -> string): Fields
  {
    var env := if before.shared then environ else before.env;
    Fields(before.command, before.oninit, before.onexit,
           if before.dir != "" then expandEnv(before.dir) else before.dir,
           if |env| == 0 then env
           else if before.shared then ExpandEachEnv(env, expandEnv) + ExpandEachEnv(env, expandEnv)
           else environ + ExpandEachEnv(env, expandEnv),
           if r.Match != "" then Some(r.Match) else before.pattern,
           if r.Wait then before.running else Some(map[]),
           before.shared && |env| == 0)
  }

  /** The pattern main's loading loop compiles for a rule with match `m` (main.go:83-85):
      none when `m` is empty. */
  function CompiledPattern(m: string): Option<string>
  {
    if m != "" then Some(m) else None
  }

  /** Rule `r` went from `before` to `after` as main's loading loop sets it up. */
  predicate Loaded(r: Rule, before: Fields, after: Fields, environ: seq<string>, expandEnv: string -> string)
  {
    after == AfterLoad(r, before, environ, expandEnv)
  }

  /** When os.ExpandEnv leaves the entries of a rule's layered environment as they are
      (they hold no further references), main's second layering (main.go:94-98) changes no
      lookup the expander makes in that environment; the rule's environment is the service
      slice exactly when it has none of its own (lib.go:108). */
  lemma LoadKeepsLookups(r: Rule, before: Fields, environ: seq<string>, own: seq<string>,
                         expandEnv: string -> string, name: string)
    requires before.env == CommandEnv(environ, own) && (before.shared <==> |own| == 0)
    requires forall i | 0 <= i < |before.env| :: expandEnv(before.env[i]) == before.env[i]
    requires NoPanic(environ, name) && NoPanic(own, name)
    ensures NoPanic(AfterLoad(r, before, environ, expandEnv).env, name)
    ensures Lookup(AfterLoad(r, before, environ, expandEnv).env, name) == Lookup(before.env, name)
  {
    CommandEnvOverrides(environ, own, name);
    if |before.env| > 0 {
      assert ExpandEachEnv(before.env, expandEnv) == before.env;
      RelayeringIsInvisible(environ, own, name);
    }
  }

  /** `sharers` lists, in load order, the rules that `shared` marks as holding the service
      environment slice, and `depth[r]` is how many of them were loaded before rule `r`. */
  ghost predicate LoadOrder(depth: map<Rule, nat>, sharers: seq<Rule>, shared: map<Rule, bool>)
  {
    && depth.Keys <= shared.Keys
    && (forall r | r in depth :: depth[r] <= |sharers| && (shared[r] ==> depth[r] < |sharers| && sharers[depth[r]] == r))
    && (forall i | 0 <= i < |sharers| :: sharers[i] in depth && shared[sharers[i]] && depth[sharers[i]] == i)
  }

  /** The load order bookkeeping after visiting the rules `order`, one after the other:
      for each visited rule how many rules sharing the service slice came before it, and
      the sharing rules in order. */
  ghost function Depths(order: seq<Rule>, shared: map<Rule, bool>): (res: (map<Rule, nat>, seq<Rule>))
    requires forall i | 0 <= i < |order| :: order[i] in shared
    ensures forall r | r in res.0 :: r in order
  {
    if order == [] then (map[], [])
    else
      var n := |order| - 1;
      var prev := Depths(order[..n], shared);
      var c := order[n];
      assert order == order[..n] + [c];
      (prev.0[c := |prev.1|], if shared[c] then prev.1 + [c] else prev.1)
  }

  /** Visiting distinct rules builds a load order. */
  lemma {:induction false} DepthsInLoadOrder(order: seq<Rule>, shared: map<Rule, bool>)
    requires forall i | 0 <= i < |order| :: order[i] in shared
    requires forall i, j | 0 <= i < j < |order| :: order[i] != order[j]
    ensures LoadOrder(Depths(order, shared).0, Depths(order, shared).1, shared)
  {
    if order != [] {
      var n := |order| - 1;
      var c := order[n];
      DepthsInLoadOrder(order[..n], shared);
      var prev := Depths(order[..n], shared);
      assert c !in order[..n];
      var depth, sharers := prev.0[c := |prev.1|], if shared[c] then prev.1 + [c] else prev.1;
      forall i | 0 <= i < |sharers| ensures sharers[i] in depth && shared[sharers[i]] && depth[sharers[i]] == i {
        if i < |prev.1| {
          assert sharers[i] == prev.1[i];
        }
      }
    }
  }

  /** One turn of main's loading loop on the ghost bookkeeping: rule `c` of `todo` is
      loaded when the service slice reads `env`, after the distinct rules `order`. */
  lemma LoadStep(environ: seq<string>, expandEnv: string -> string, env: seq<string>, order: seq<Rule>,
                 depth: map<Rule, nat>, sharers: seq<Rule>, shared: map<Rule, bool>, todo: set<Rule>, c: Rule)
    requires c in todo && todo <= shared.Keys && depth.Keys == shared.Keys - todo
    requires env == ExpandTimes(environ, expandEnv, |sharers|)
    requires forall i | 0 <= i < |order| :: order[i] in shared && order[i] !in todo
    requires forall i, j | 0 <= i < j < |order| :: order[i] != order[j]
    requires (depth, sharers) == Depths(order, shared)
    ensures var sharers' := if shared[c] then sharers + [c] else sharers;
            && (if shared[c] then ExpandEachEnv(env, expandEnv) else env) == ExpandTimes(environ, expandEnv, |sharers'|)
            && (forall i | 0 <= i < |order + [c]| :: (order + [c])[i] in shared && (order + [c])[i] !in todo - {c})
            && (forall i, j | 0 <= i < j < |order + [c]| :: (order + [c])[i] != (order + [c])[j])
            && (depth[c := |sharers|], sharers') == Depths(order + [c], shared)
            && depth[c := |sharers|].Keys == shared.Keys - (todo - {c})
  {
    assert (order + [c])[..|order|] == order;
  }

  /** `procs[i]` is the process runCommand builds for the run `rs[i]` (main.go:229-245):
      `bash -c` of its command string with its rule's environment and directory, as
      `wiring` gives them, its rule's output wiring, and a process group of its own exactly
      when the rule is a background one. */
  ghost predicate Spawned(rs: seq<(string, Rule)>, procs: seq<Process>, wiring: map<Rule, (seq<string>, string)>)
  {
    |procs| == |rs| && forall i | 0 <= i < |rs| :: Builds(rs[i], procs[i], wiring)
  }

  /** `p` is the process built for the run `run`. */
  ghost predicate Builds(run: (string, Rule), p: Process, wiring: map<Rule, (seq<string>, string)>)
  {
    run.1 in wiring ==>
      && p.cmdString == run.0 && (p.env, p.dir) == wiring[run.1]
      && p.stdout == run.1.Stdout && p.stderr == run.1.Stderr && p.ownGroup == !run.1.Wait
  }

  /** One more run, with the process built for it, extends the pairing. */
  lemma SpawnedSnoc(rs: seq<(string, Rule)>, procs: seq<Process>, wiring: map<Rule, (seq<string>, string)>,
                    run: (string, Rule), p: Process)
    requires Spawned(rs, procs, wiring) && Builds(run, p, wiring)
    ensures Spawned(rs + [run], procs + [p], wiring)
  {
    assert forall i | 0 <= i < |rs| :: (rs + [run])[i] == rs[i] && (procs + [p])[i] == procs[i];
  }

  /** Two pairings of runs and their processes, one after the other. */
  lemma SpawnedAppend(ra: seq<(string, Rule)>, pa: seq<Process>, rb: seq<(string, Rule)>,
                      pb: seq<Process>, wiring: map<Rule, (seq<string>, string)>)
    requires Spawned(ra, pa, wiring) && Spawned(rb, pb, wiring)
    ensures Spawned(ra + rb, pa + pb, wiring)
  {
    forall i | 0 <= i < |ra + rb|
      ensures Builds((ra + rb)[i], (pa + pb)[i], wiring)
    {
      if i < |ra| {
        assert (ra + rb)[i] == ra[i] && (pa + pb)[i] == pa[i];
      } else {
        assert (ra + rb)[i] == rb[i - |ra|] && (pa + pb)[i] == pb[i - |ra|];
      }
    }
  }

  class Devop {
    /** The rule table (the global `commands`) and the pending table. */
    const commands: map<string, Rule>
    var pending: map<string, Rule>
    const re: Regexp
    const os: Os
    const trace: Trace
    /** A ranking witnessing that no continuation cycle exists, and a bound on it. */
    ghost const rank: Rule -> nat
    ghost const height: nat
    /** The rules' command templates by name; nothing here rewrites them. */
    ghost const templates: map<string, string>
    /** The pattern each rule has once loaded (main.go:83-85): its Match, when set. */
    ghost const patterns: map<string, Option<string>>

    constructor (commands: map<string, Rule>, re: Regexp, os: Os, ghost rank: Rule -> nat, ghost height: nat)
      requires Ranked(commands, rank) && forall c | c in commands.Values :: rank(c) < height
      ensures this.commands == commands && this.re == re && this.os == os
      ensures this.rank == rank && this.height == height
      ensures pending == map[] && fresh(trace) && trace.runs == [] && trace.batches == []
      ensures Acyclic() && TemplatesOf(commands, templates) && PatternsFromMatch()
    {
      this.commands := commands;
      this.re := re;
      this.os := os;
      this.rank := rank;
      this.height := height;
      templates := map n | n in commands :: commands[n].Command;
      patterns := map n | n in commands :: CompiledPattern(commands[n].Match);
      pending := map[];
      trace := new Trace();
    }

    /** Continuations are ranked below `height`. */
    ghost predicate Acyclic()
    {
      Ranked(commands, rank) && forall c | c in commands.Values :: rank(c) < height
    }

    /** Every rule's registry contents, nil maps reading as empty. */
    ghost function Regs(): Registries
      reads commands.Values`running
    {
      map c | c in commands.Values :: c.Entries()
    }

    /** The rules' registries hold exactly `regs`, and exactly the background rules have
        one (main.go:91-93). */
    ghost predicate Holds(regs: Registries)
      reads commands.Values`running
    {
      forall c | c in commands.Values :: c in regs && c.Entries() == regs[c] && (c.running.None? <==> c.Wait)
    }

    /** When exactly the background rules have a registry, the registries hold `Regs()`. */
    lemma RegistriesHold()
      requires Registered()
      ensures Holds(Regs())
    {
    }

    /** Exactly the background rules have a registry (main.go:91-93). */
    ghost predicate Registered()
      reads commands.Values`running
    {
      forall c | c in commands.Values :: c.running.None? <==> c.Wait
    }

    /** `patterns` holds, by rule name, the rule's Match when it is set and no pattern
        otherwise. */
    ghost predicate PatternsFromMatch()
    {
      && patterns.Keys == commands.Keys
      && forall n | n in commands :: patterns[n] == CompiledPattern(commands[n].Match)
    }

    /** Every rule carries the pattern loading compiles for it (main.go:83-85). */
    ghost predicate Compiled()
      reads commands.Values`pattern
    {
      PatternsOf(commands, patterns)
    }

    /** What loading establishes and every later operation keeps: continuations are ranked
        below `height`, the registries and patterns are as loading leaves them, and the
        pending table holds rules of the table only. */
    ghost predicate Valid()
      reads this`pending, commands.Values`running, commands.Values`pattern, commands.Values`Command
    {
      && Acyclic()
      && PatternsFromMatch()
      && TemplatesOf(commands, templates)
      && Registered()
      && Compiled()
      && pending.Values <= commands.Values
    }

    /** `wiring` gives every rule of the table its present environment and directory. */
    ghost predicate Wired(wiring: map<Rule, (seq<string>, string)>)
      reads commands.Values`Env, commands.Values`Dir
    {
      forall c | c in commands.Values :: c in wiring && wiring[c] == (c.Env, c.Dir)
    }

    /** forceKillProcess (main.go:315-320) called on a rule of the table whose registries
        hold `regs`: afterwards they hold Forget(regs, command, cmdString). */
    method ForceKillProcess(command: Rule, cmdString: string, ghost regs: Registries)
      requires command in commands.Values && Holds(regs)
      modifies command`running, os
      ensures Holds(Forget(regs, command, cmdString).0)
      ensures os.killed == old(os.killed) + Forget(regs, command, cmdString).1
      ensures os.started == old(os.started)
    {
      command.ForceKillProcess(cmdString, os);
    }

    /** killCommand (main.go:207-219) over the rule table whose registries hold `regs`. */
    method KillCommand(cmdString: string, command: Rule, ghost regs: Registries)
      requires Ranked(commands, rank) && TemplatesOf(commands, templates) && command in commands.Values
      requires commands.Values <= regs.Keys && Holds(regs)
      modifies commands.Values`running, os
      ensures Holds(KillSpec(cmdString, command, commands, templates, rank, regs).0)
      ensures os.killed == old(os.killed) + KillSpec(cmdString, command, commands, templates, rank, regs).1
      ensures os.started == old(os.started)
      decreases rank(command)
    {
      if command.running.Some? && cmdString in command.running.value {
        ghost var spec := KillSpec(cmdString, command, commands, templates, rank, regs);
        ghost var chain: (Registries, seq<Process>) := (regs, []);
        if command.Continue != "" && command.Continue in commands && !commands[command.Continue].Wait {
          var cont := commands[command.Continue];
          assert cont.Command == templates[command.Continue];
          chain := KillSpec(cont.Command, cont, commands, templates, rank, regs);
          KillCommand(cont.Command, cont, regs);
        }
        ghost var k1 := os.killed;
        ForceKillProcess(command, cmdString, chain.0);
        ghost var own := Forget(chain.0, command, cmdString);
        assert spec == (own.0, chain.1 + own.1);
        assert k1 == old(os.killed) + chain.1;
        assert os.killed == k1 + own.1;
        AppendAssoc(old(os.killed), chain.1, own.1);
      }
    }

    /** The first step of runCommand (main.go:225-227): a background rule kills what runs
        under `cmdString` down its continuation chain; a wait-mode rule kills nothing. */
    method KillFirst(cmdString: string, command: Rule, ghost regs: Registries)
      returns (ghost killed: (Registries, seq<Process>))
      requires Ranked(commands, rank) && TemplatesOf(commands, templates) && command in commands.Values
      requires commands.Values <= regs.Keys && Holds(regs)
      modifies commands.Values`running, os
      ensures killed == (if command.Wait then (regs, []) else KillSpec(cmdString, command, commands, templates, rank, regs))
      ensures Holds(killed.0) && os.killed == old(os.killed) + killed.1 && os.started == old(os.started)
      ensures unchanged(commands.Values`pattern, commands.Values`Command, commands.Values`Env, commands.Values`Dir)
    {
      killed := (regs, []);
      if !command.Wait {
        killed := KillSpec(cmdString, command, commands, templates, rank, regs);
        KillCommand(cmdString, command, regs);
      } else {
        assert os.killed == old(os.killed) + [];
      }
    }

    /** The registering step of runCommand (main.go:246) on a background rule of the table
        whose registries hold `regs`. */
    method RegisterProcess(command: Rule, cmdString: string, cmd: Process, ghost regs: Registries)
      returns (ghost after: Registries)
      requires command in commands.Values && !command.Wait
      requires command in regs && Holds(regs)
      modifies command`running
      ensures after == Register(regs, command, cmdString, cmd) && Holds(after)
      ensures unchanged(commands.Values`pattern, commands.Values`Command, commands.Values`Env, commands.Values`Dir)
    {
      command.running := Some(command.running.value[cmdString := cmd]);
      after := Register(regs, command, cmdString, cmd);
    }

    /** The end of runCommand (main.go:243-252): a background rule registers the process
        under `cmdString`, and then the process is started. */
    method Launch(cmdString: string, command: Rule, cmd: Process, ghost regs: Registries)
      returns (ghost ok: bool, ghost after: Registries)
      requires command in commands.Values && commands.Values <= regs.Keys && Holds(regs)
      modifies command`running, os, trace
      ensures after == (if command.Wait then regs else Register(regs, command, cmdString, cmd)) && Holds(after)
      ensures os.started == old(os.started) + (if ok then [cmd] else []) && os.killed == old(os.killed)
      ensures trace.runs == old(trace.runs) + [(cmdString, command)] && trace.batches == old(trace.batches)
      ensures unchanged(commands.Values`pattern, commands.Values`Command, commands.Values`Env, commands.Values`Dir)
    {
      after := regs;
      if !command.Wait {
        after := RegisterProcess(command, cmdString, cmd, regs);
      }
      trace.Record(cmdString, command);
      var started := os.Start(cmd);
      ok := started;
    }

    /** runCommand (main.go:223-264): a background rule first kills what runs under
        `cmdString` down its continuation chain; the new process is `bash -c cmdString` with
        the rule's environment, directory and output wiring, in its own process group when
        the rule is a background one, which then registers it before it is started (so a
        failed start leaves it registered). `ok` is whether the start succeeded; waiting
        for a wait-mode process is the operating system's. */
    method RunCommand(cmdString: string, command: Rule, ghost regs: Registries)
      returns (cmd: Process, ghost ok: bool, ghost after: Registries)
      requires Ranked(commands, rank) && TemplatesOf(commands, templates) && command in commands.Values
      requires commands.Values <= regs.Keys && Holds(regs)
      modifies commands.Values`running, os, trace
      ensures cmd.cmdString == cmdString && cmd.env == old(command.Env) && cmd.dir == old(command.Dir)
      ensures cmd.stdout == command.Stdout && cmd.stderr == command.Stderr && cmd.ownGroup == !command.Wait
      ensures after == RunSpec(cmdString, command, commands, templates, rank, regs, cmd).0 && Holds(after)
      ensures os.killed == old(os.killed) + RunSpec(cmdString, command, commands, templates, rank, regs, cmd).1
      ensures os.started == old(os.started) + (if ok then [cmd] else [])
      ensures trace.runs == old(trace.runs) + [(cmdString, command)] && trace.batches == old(trace.batches)
      ensures unchanged(commands.Values`pattern, commands.Values`Command, commands.Values`Env, commands.Values`Dir)
    {
      ghost var killed := KillFirst(cmdString, command, regs);
      cmd := new Process(cmdString, command.Env, command.Dir, command.Stdout, command.Stderr, !command.Wait);
      ok, after := Launch(cmdString, command, cmd, killed.0);
    }

    /** The body of the first loop of runCommands (main.go:271): run `cmdString` after the
        runs `order` (processes `procs`, starts `oks`) that left the registries `done.0`
        after `regs`, with `killed`, `started` and `runs` the logs before the loop and
        `wiring` the rules' environments and directories. */
    method RunNext(cmdString: string, command: Rule, ghost regs: Registries, ghost order: seq<(string, Rule)>,
                   ghost procs: seq<Process>, ghost oks: seq<bool>, ghost done: (Registries, seq<Process>),
                   ghost killed: seq<Process>, ghost started: seq<Process>, ghost runs: seq<(string, Rule)>,
                   ghost wiring: map<Rule, (seq<string>, string)>)
      returns (cmd: Process, ghost ok: bool, ghost next: (Registries, seq<Process>))
      requires Ranked(commands, rank) && TemplatesOf(commands, templates) && command in commands.Values
      requires commands.Values <= regs.Keys && RulesIn(order, commands) && |procs| == |order| && |oks| == |order|
      requires done == RunAll(commands, templates, rank, regs, order, procs) && Holds(done.0)
      requires os.killed == killed + done.1 && os.started == started + Started(procs, oks) && trace.runs == runs + order
      requires command in wiring && wiring[command] == (command.Env, command.Dir) && Spawned(order, procs, wiring)
      modifies commands.Values`running, os, trace
      ensures cmd.cmdString == cmdString && cmd.env == old(command.Env) && cmd.dir == old(command.Dir)
      ensures cmd.stdout == command.Stdout && cmd.stderr == command.Stderr && cmd.ownGroup == !command.Wait
      ensures Spawned(order + [(cmdString, command)], procs + [cmd], wiring)
      ensures next == RunAll(commands, templates, rank, regs, order + [(cmdString, command)], procs + [cmd]) && Holds(next.0)
      ensures os.killed == killed + next.1 && os.started == started + Started(procs + [cmd], oks + [ok])
      ensures trace.runs == runs + (order + [(cmdString, command)]) && trace.batches == old(trace.batches)
      ensures unchanged(commands.Values`pattern, commands.Values`Command, commands.Values`Env, commands.Values`Dir)
    {
      ghost var after;
      cmd, ok, after := RunCommand(cmdString, command, done.0);
      ghost var step := RunSpec(cmdString, command, commands, templates, rank, done.0, cmd);
      RunAllSnoc(commands, templates, rank, regs, order, procs, cmdString, command, cmd);
      StartedSnoc(procs, oks, cmd, ok);
      AppendAssoc(killed, done.1, step.1);
      AppendAssoc(started, Started(procs, oks), if ok then [cmd] else []);
      AppendAssoc(runs, order, [(cmdString, command)]);
      SpawnedSnoc(order, procs, wiring, (cmdString, command), cmd);
      next := (step.0, done.1 + step.1);
    }

    /** One turn of the first loop of runCommands (main.go:270-272): take an entry of the
        batch that is still to do and run it. */
    method RunTurn(batch: map<string, Rule>, todo: set<string>, ghost regs: Registries,
                   ghost order: seq<(string, Rule)>, ghost procs: seq<Process>, ghost oks: seq<bool>,
                   ghost done: (Registries, seq<Process>), ghost killed: seq<Process>, ghost started: seq<Process>,
                   ghost runs: seq<(string, Rule)>, ghost wiring: map<Rule, (seq<string>, string)>)
      returns (todo': set<string>, ghost order': seq<(string, Rule)>, ghost procs': seq<Process>,
               ghost oks': seq<bool>, ghost done': (Registries, seq<Process>))
      requires Ranked(commands, rank) && TemplatesOf(commands, templates) && batch.Values <= commands.Values
      requires commands.Values <= regs.Keys && Wired(wiring) && todo != {} && todo <= batch.Keys
      requires RulesIn(order, commands) && Spawned(order, procs, wiring) && |oks| == |order|
      requires done == RunAll(commands, templates, rank, regs, order, procs) && Holds(done.0)
      requires os.killed == killed + done.1 && os.started == started + Started(procs, oks) && trace.runs == runs + order
      requires EnumeratesPart(order, batch, batch.Keys - todo)
      modifies commands.Values`running, os, trace
      ensures todo' < todo && unchanged(commands.Values`pattern, commands.Values`Command, commands.Values`Env, commands.Values`Dir)
      ensures RulesIn(order', commands) && Spawned(order', procs', wiring) && |oks'| == |order'|
      ensures done' == RunAll(commands, templates, rank, regs, order', procs') && Holds(done'.0)
      ensures os.killed == killed + done'.1 && os.started == started + Started(procs', oks')
      ensures trace.runs == runs + order' && trace.batches == old(trace.batches)
      ensures EnumeratesPart(order', batch, batch.Keys - todo')
    {
      var cmdString :| cmdString in todo;
      var command := batch[cmdString];
      var cmd;
      ghost var ok;
      cmd, ok, done' := RunNext(cmdString, command, regs, order, procs, oks, done, killed, started, runs, wiring);
      EnumeratesStep(order, batch, todo, cmdString);
      todo', order', procs', oks' := todo - {cmdString}, order + [(cmdString, command)], procs + [cmd], oks + [ok];
    }

    /** The first loop of runCommands (main.go:270-272): every entry of the batch is run
        once, in some order, each with the registries the previous run left. `procs[i]`
        is the process of the i-th run, built as `wiring` says, and `oks[i]` whether it
        started. */
    method RunBatch(batch: map<string, Rule>, ghost regs: Registries, ghost wiring: map<Rule, (seq<string>, string)>)
      returns (ghost order: seq<(string, Rule)>, ghost procs: seq<Process>, ghost oks: seq<bool>)
      requires Ranked(commands, rank) && TemplatesOf(commands, templates) && batch.Values <= commands.Values
      requires commands.Values <= regs.Keys && Holds(regs) && Wired(wiring)
      modifies commands.Values`running, os, trace
      ensures unchanged(commands.Values`pattern, commands.Values`Command, commands.Values`Env, commands.Values`Dir)
      ensures Enumerates(order, batch) && RulesIn(order, commands) && Spawned(order, procs, wiring) && |oks| == |order|
      ensures Holds(RunAll(commands, templates, rank, regs, order, procs).0)
      ensures os.killed == old(os.killed) + RunAll(commands, templates, rank, regs, order, procs).1
      ensures os.started == old(os.started) + Started(procs, oks)
      ensures trace.runs == old(trace.runs) + order && trace.batches == old(trace.batches) + [batch]
    {
      trace.batches := trace.batches + [batch];
      var todo := batch.Keys;
      order, procs, oks := [], [], [];
      ghost var done: (Registries, seq<Process>) := (regs, []);
      while todo != {}
        invariant todo <= batch.Keys
        invariant unchanged(commands.Values`pattern, commands.Values`Command, commands.Values`Env, commands.Values`Dir)
        invariant RulesIn(order, commands) && Spawned(order, procs, wiring) && |oks| == |order|
        invariant done == RunAll(commands, templates, rank, regs, order, procs) && Holds(done.0)
        invariant os.killed == old(os.killed) + done.1
        invariant os.started == old(os.started) + Started(procs, oks)
        invariant trace.runs == old(trace.runs) + order && trace.batches == old(trace.batches) + [batch]
        invariant EnumeratesPart(order, batch, batch.Keys - todo)
        decreases todo
      {
        todo, order, procs, oks, done := RunTurn(batch, todo, regs, order, procs, oks, done,
                                               old(os.killed), old(os.started), old(trace.runs), wiring);
      }
      assert batch.Keys - todo == batch.Keys;
    }

    /** runCommands (main.go:269-288): run the batch, build the next one from its
        continuations, and go on with that one while some rule of the batch has a
        continuation. The batches run are `bs`, in order, the runs `rs`, their processes
        `procs` and whether each started `oks`; the registries end as the runs leave
        `regs`. `bound` exceeds the rank of every rule of the batch, and `wiring` gives every
        rule its environment and directory, which no run changes. */
    method RunCommands(batch: map<string, Rule>, ghost bound: nat, ghost regs: Registries,
                       ghost wiring: map<Rule, (seq<string>, string)>)
      returns (ghost bs: seq<map<string, Rule>>, ghost rs: seq<(string, Rule)>,
               ghost procs: seq<Process>, ghost oks: seq<bool>)
      requires Ranked(commands, rank) && TemplatesOf(commands, templates) && batch.Values <= commands.Values
      requires forall c | c in batch.Values :: rank(c) < bound
      requires commands.Values <= regs.Keys && Holds(regs) && Wired(wiring)
      modifies commands.Values`running, os, trace
      ensures unchanged(commands.Values`pattern, commands.Values`Command, commands.Values`Env, commands.Values`Dir)
      ensures ContinuationSequence(commands, templates, bs, batch) && RunsFollow(rs, bs)
      ensures RulesIn(rs, commands) && |procs| == |rs| && |oks| == |rs|
      ensures Spawned(rs, procs, wiring)
      ensures Holds(RunAll(commands, templates, rank, regs, rs, procs).0)
      ensures os.killed == old(os.killed) + RunAll(commands, templates, rank, regs, rs, procs).1
      ensures os.started == old(os.started) + Started(procs, oks)
      ensures trace.batches == old(trace.batches) + bs && trace.runs == old(trace.runs) + rs
      decreases bound, 1
    {
      ghost var order, p1, o1;
      order, p1, o1 := RunBatch(batch, regs, wiring);
      var next := NextBatch(commands, templates, batch);
      if next.Some? {
        NextBatchRanked(commands, templates, rank, batch, next.value, bound);
        bs, rs, procs, oks := RunRest(batch, next.value, bound, regs, order, p1, o1,
                                      old(trace.batches), old(trace.runs), old(os.killed), old(os.started), wiring);
      } else {
        bs, rs := LastBatch(commands, templates, batch, order, old(trace.runs));
        procs, oks := p1, o1;
      }
    }

    /** The tail of runCommands (main.go:274-287) once the batch has run as `order`
        (processes `p1`, starts `o1`) after `regs`: go on with the next batch `next`.
        `batches`, `runs`, `killed` and `started` are the logs before the batch. */
    method RunRest(batch: map<string, Rule>, next: map<string, Rule>, ghost bound: nat, ghost regs: Registries,
                   ghost order: seq<(string, Rule)>, ghost p1: seq<Process>, ghost o1: seq<bool>,
                   ghost batches: seq<map<string, Rule>>, ghost runs: seq<(string, Rule)>,
                   ghost killed: seq<Process>, ghost started: seq<Process>,
                   ghost wiring: map<Rule, (seq<string>, string)>)
      returns (ghost bs: seq<map<string, Rule>>, ghost rs: seq<(string, Rule)>,
               ghost procs: seq<Process>, ghost oks: seq<bool>)
      requires Ranked(commands, rank) && TemplatesOf(commands, templates) && next.Values <= commands.Values
      requires HasContinue(batch) && NextBatchOf(commands, templates, batch, next) && Enumerates(order, batch)
      requires bound > 0 && forall c | c in next.Values :: rank(c) < bound - 1
      requires RulesIn(order, commands) && |p1| == |order| && |o1| == |order| && commands.Values <= regs.Keys
      requires Wired(wiring) && Spawned(order, p1, wiring)
      requires Holds(RunAll(commands, templates, rank, regs, order, p1).0)
      requires os.killed == killed + RunAll(commands, templates, rank, regs, order, p1).1
      requires os.started == started + Started(p1, o1)
      requires trace.batches == batches + [batch] && trace.runs == runs + order
      modifies commands.Values`running, os, trace
      ensures unchanged(commands.Values`pattern, commands.Values`Command, commands.Values`Env, commands.Values`Dir)
      ensures ContinuationSequence(commands, templates, bs, batch) && RunsFollow(rs, bs)
      ensures RulesIn(rs, commands) && |procs| == |rs| && |oks| == |rs|
      ensures Spawned(rs, procs, wiring)
      ensures Holds(RunAll(commands, templates, rank, regs, rs, procs).0)
      ensures os.killed == killed + RunAll(commands, templates, rank, regs, rs, procs).1
      ensures os.started == started + Started(procs, oks)
      ensures trace.batches == batches + bs && trace.runs == runs + rs
      decreases bound, 0
    {
      ghost var first := RunAll(commands, templates, rank, regs, order, p1);
      ghost var restBs, restRs, p2, o2;
      restBs, restRs, p2, o2 := RunCommands(next, bound - 1, first.0, wiring);
      bs, rs := BatchThenRest(commands, templates, batch, next, order, restBs, restRs, batches, runs);
      procs, oks := p1 + p2, o1 + o2;
      assert Holds(RunAll(commands, templates, rank, regs, rs, procs).0)
          && os.killed == killed + RunAll(commands, templates, rank, regs, rs, procs).1 by {
        RunAllAppend(commands, templates, rank, regs, order, p1, restRs, p2);
        AppendAssoc(killed, first.1, RunAll(commands, templates, rank, first.0, restRs, p2).1);
      }
      assert os.started == started + Started(procs, oks) by {
        StartedAppend(p1, o1, p2, o2);
        AppendAssoc(started, Started(p1, o1), Started(p2, o2));
      }
      assert Spawned(rs, procs, wiring) by {
        SpawnedAppend(order, p1, restRs, p2, wiring);
      }
    }

    /** runCommands (main.go:269-288) called on a batch of the rule table from a valid
        state, with the registries as they are. */
    method RunFromValid(batch: map<string, Rule>)
      returns (ghost bs: seq<map<string, Rule>>, ghost rs: seq<(string, Rule)>,
               ghost procs: seq<Process>, ghost oks: seq<bool>)
      requires Valid() && batch.Values <= commands.Values
      modifies commands.Values`running, os, trace
      ensures Valid()
      ensures ContinuationSequence(commands, templates, bs, batch) && RunsFollow(rs, bs)
      ensures RulesIn(rs, commands) && |procs| == |rs| && |oks| == |rs|
      ensures forall i | 0 <= i < |rs| ::
                && procs[i].cmdString == rs[i].0 && procs[i].env == rs[i].1.Env && procs[i].dir == rs[i].1.Dir
                && procs[i].stdout == rs[i].1.Stdout && procs[i].stderr == rs[i].1.Stderr
                && procs[i].ownGroup == !rs[i].1.Wait
      ensures Holds(RunAll(commands, templates, rank, old(Regs()), rs, procs).0)
      ensures os.killed == old(os.killed) + RunAll(commands, templates, rank, old(Regs()), rs, procs).1
      ensures os.started == old(os.started) + Started(procs, oks)
      ensures trace.batches == old(trace.batches) + bs && trace.runs == old(trace.runs) + rs
    {
      ghost var regs := Regs();
      ghost var wiring := map c | c in commands.Values :: (c.Env, c.Dir);
      bs, rs, procs, oks := RunCommands(batch, height, regs, wiring);
    }

    /** runCommandsIfneeded (main.go:188-194): take the pending table and, when it is not
        empty, put a new empty one in its place. */
    method Drain() returns (commandsToRun: map<string, Rule>, hasCommands: bool)
      modifies this`pending
      ensures commandsToRun == old(pending) && hasCommands == (|old(pending)| > 0)
      ensures pending == map[] && Regs() == old(Regs())
    {
      commandsToRun := pending;
      hasCommands := |commandsToRun| > 0;
      if hasCommands {
        pending := map[];
      } else {
        assert commandsToRun.Keys == {};
      }
    }

    /** runCommandsIfneeded (main.go:187-200): drain the pending table and run what it held,
        or nothing at all when it was empty. */
    method RunCommandsIfNeeded()
      returns (ghost bs: seq<map<string, Rule>>, ghost rs: seq<(string, Rule)>,
               ghost procs: seq<Process>, ghost oks: seq<bool>)
      requires Valid()
      modifies this`pending, commands.Values`running, os, trace
      ensures Valid() && pending == map[]
      ensures trace.batches == old(trace.batches) + bs && trace.runs == old(trace.runs) + rs
      ensures old(pending) != map[] ==> ContinuationSequence(commands, templates, bs, old(pending)) && RunsFollow(rs, bs)
      ensures old(pending) == map[] ==> bs == [] && rs == [] && unchanged(os, commands.Values)
      ensures RulesIn(rs, commands) && |procs| == |rs| && |oks| == |rs|
      ensures forall i | 0 <= i < |rs| ::
                && procs[i].cmdString == rs[i].0 && procs[i].env == rs[i].1.Env && procs[i].dir == rs[i].1.Dir
                && procs[i].stdout == rs[i].1.Stdout && procs[i].stderr == rs[i].1.Stderr
                && procs[i].ownGroup == !rs[i].1.Wait
      ensures Holds(RunAll(commands, templates, rank, old(Regs()), rs, procs).0)
      ensures os.killed == old(os.killed) + RunAll(commands, templates, rank, old(Regs()), rs, procs).1
      ensures os.started == old(os.started) + Started(procs, oks)
    {
      var commandsToRun, hasCommands := Drain();
      bs, rs, procs, oks := [], [], [], [];
      if hasCommands {
        bs, rs, procs, oks := RunFromValid(commandsToRun);
      } else {
        RegistriesHold();
        assert old(pending) == map[];
        assert os.killed == old(os.killed) + [] && os.started == old(os.started) + [];
      }
    }

    /** The file-system tracker's reaction to a changed file (tracker_darwin.go:42-44):
        match it into the pending table. */
    method Track(path: string)
      requires Valid()
      modifies this`pending
      ensures Valid()
      ensures MatchedInto(commands, patterns, templates, re, old(pending), path, pending)
    {
      pending := MatchCommands(commands, patterns, templates, re, pending, path);
    }

    /** The initial command scan (main.go:113-114): run what a walk over the root directory,
        visiting `entries`, matches. */
    method InitialScan(entries: seq<WalkEntry>)
      returns (ghost bs: seq<map<string, Rule>>, ghost rs: seq<(string, Rule)>,
               ghost procs: seq<Process>, ghost oks: seq<bool>)
      requires Valid()
      modifies commands.Values`running, os, trace
      ensures Valid()
      ensures |bs| > 0 && ScannedInto(commands, patterns, templates, re, map[], entries, bs[0])
      ensures ContinuationSequence(commands, templates, bs, bs[0]) && RunsFollow(rs, bs)
      ensures trace.batches == old(trace.batches) + bs && trace.runs == old(trace.runs) + rs
      ensures RulesIn(rs, commands) && |procs| == |rs| && |oks| == |rs|
      ensures forall i | 0 <= i < |rs| ::
                && procs[i].cmdString == rs[i].0 && procs[i].env == rs[i].1.Env && procs[i].dir == rs[i].1.Dir
                && procs[i].stdout == rs[i].1.Stdout && procs[i].stderr == rs[i].1.Stderr
                && procs[i].ownGroup == !rs[i].1.Wait
      ensures Holds(RunAll(commands, templates, rank, old(Regs()), rs, procs).0)
      ensures os.killed == old(os.killed) + RunAll(commands, templates, rank, old(Regs()), rs, procs).1
      ensures os.started == old(os.started) + Started(procs, oks)
    {
      var scanned := ScanAndGetCommands(commands, patterns, templates, re, entries);
      bs, rs, procs, oks := RunFromValid(scanned);
    }

    /** Which rules of the table hold the service environment slice itself. */
    ghost function SharedFlags(): map<Rule, bool>
      reads commands.Values`envShared
    {
      map r | r in commands.Values :: r.envShared
    }

    /** What the decoder and Service.Init leave for main's loading loop: a rule without
        Match has no pattern, and a wait-mode rule no registry. */
    ghost predicate Decoded()
      reads commands.Values`running, commands.Values`pattern
    {
      forall c | c in commands.Values :: (c.Match == "" ==> c.pattern == None) && (c.Wait ==> c.running == None)
    }

    /** main's loading loop (main.go:78-111) over the rule table, with `environ` the service
        environment and `expandEnv` os.ExpandEnv; the init hooks are not run here. Rule `r`
        is loaded when the service slice has been rewritten `depth[r]` times, once for
        each rule sharing it that was loaded before `r`; `sharers` lists the rules that
        share it, in the order they were loaded. */
    method LoadCommands(environ: seq<string>, expandEnv: string -> string)
      returns (ghost depth: map<Rule, nat>, ghost sharers: seq<Rule>)
      requires Acyclic() && PatternsFromMatch() && TemplatesOf(commands, templates) && Decoded()
      requires pending.Values <= commands.Values
      modifies commands.Values`pattern, commands.Values`Dir, commands.Values`Env, commands.Values`running,
               commands.Values`envShared
      ensures Valid()
      ensures forall r | r in commands.Values ::
                r in depth && Loaded(r, old(FieldsOf(r)), FieldsOf(r), ExpandTimes(environ, expandEnv, depth[r]), expandEnv)
      ensures LoadOrder(depth, sharers, old(SharedFlags()))
    {
      depth, sharers := LoadAll(environ, expandEnv);
    }

    /** The loop of main's loading over every rule of the table, in some order; `env` is
        what the service slice (`environ` in main) holds as the loop goes. */
    method LoadAll(environ: seq<string>, expandEnv: string -> string)
      returns (ghost depth: map<Rule, nat>, ghost sharers: seq<Rule>)
      requires Decoded()
      modifies commands.Values`pattern, commands.Values`Dir, commands.Values`Env, commands.Values`running,
               commands.Values`envShared
      ensures forall r | r in commands.Values ::
                r in depth && Loaded(r, old(FieldsOf(r)), FieldsOf(r), ExpandTimes(environ, expandEnv, depth[r]), expandEnv)
      ensures forall r | r in commands.Values :: r.pattern == CompiledPattern(r.Match) && (r.running.None? <==> r.Wait)
      ensures LoadOrder(depth, sharers, old(SharedFlags()))
    {
      ghost var before := map r | r in commands.Values :: FieldsOf(r);
      ghost var shared := SharedFlags();
      ghost var order: seq<Rule> := [];
      var env := environ;
      var todo := commands.Values;
      depth, sharers := map[], [];
      while todo != {}
        invariant todo <= shared.Keys && depth.Keys == shared.Keys - todo
        invariant env == ExpandTimes(environ, expandEnv, |sharers|)
        invariant forall r | r in todo :: FieldsOf(r) == before[r]
        invariant forall r | r in depth ::
                    Loaded(r, before[r], FieldsOf(r), ExpandTimes(environ, expandEnv, depth[r]), expandEnv)
        invariant forall i | 0 <= i < |order| :: order[i] in shared && order[i] !in todo
        invariant forall i, j | 0 <= i < j < |order| :: order[i] != order[j]
        invariant (depth, sharers) == Depths(order, shared)
        decreases todo
      {
        var command :| command in todo;
        LoadStep(environ, expandEnv, env, order, depth, sharers, shared, todo, command);
        env := LoadNext(command, environ, expandEnv, env, before, todo, depth, |sharers|);
        depth := depth[command := |sharers|];
        if shared[command] {
          sharers := sharers + [command];
        }
        order := order + [command];
        todo := todo - {command};
      }
      DepthsInLoadOrder(order, shared);
    }

    /** One turn of the loading loop: rule `command`, not yet loaded, is loaded while the
        service slice holds `env`, its `d`-th rewrite; `before` holds every rule's fields as
        decoded, and the rules of `todo` still hold them. */
    method LoadNext(command: Rule, environ: seq<string>, expandEnv: string -> string, env: seq<string>,
                    ghost before: map<Rule, Fields>, ghost todo: set<Rule>, ghost depth: map<Rule, nat>, ghost d: nat)
      returns (env': seq<string>)
      requires command in todo && todo <= before.Keys && depth.Keys <= before.Keys && command !in depth
      requires forall r | r in before :: (r.Match == "" ==> before[r].pattern == None) && (r.Wait ==> before[r].running == None)
      requires env == ExpandTimes(environ, expandEnv, d)
      requires forall r | r in todo :: FieldsOf(r) == before[r]
      requires forall r | r in depth ::
                 Loaded(r, before[r], FieldsOf(r), ExpandTimes(environ, expandEnv, depth[r]), expandEnv)
      modifies command`pattern, command`Dir, command`Env, command`running, command`envShared
      ensures env' == if before[command].shared then ExpandEachEnv(env, expandEnv) else env
      ensures forall r | r in todo - {command} :: FieldsOf(r) == before[r]
      ensures forall r | r in depth[command := d] ::
                Loaded(r, before[r], FieldsOf(r), ExpandTimes(environ, expandEnv, depth[command := d][r]), expandEnv)
    {
      assert FieldsOf(command) == before[command];
      env' := LoadCommand(command, env, expandEnv);
    }

    /** The body of main's loading loop for one rule (main.go:83-99), with `environ` what the
        service slice holds; `environ'` is what it holds afterwards. */
    method LoadCommand(command: Rule, environ: seq<string>, expandEnv: string -> string)
      returns (environ': seq<string>)
      requires command.Match == "" ==> command.pattern == None
      requires command.Wait ==> command.running == None
      modifies command`pattern, command`Dir, command`Env, command`running, command`envShared
      ensures Loaded(command, old(FieldsOf(command)), FieldsOf(command), environ, expandEnv)
      ensures command.pattern == CompiledPattern(command.Match) && (command.running.None? <==> command.Wait)
      ensures environ' == if old(command.envShared) then ExpandEachEnv(environ, expandEnv) else environ
    {
      environ' := environ;
      if command.Match != "" {
        command.pattern := Some(command.Match);
      }
      if command.Dir != "" {
        command.Dir := expandEnv(command.Dir);
      }
      if !command.Wait {
        command.running := Some(map[]);
      }
      if command.envShared {
        // the rule's slice reads what the service slice now holds
        command.Env := environ;
      }
      if |command.Env| > 0 {
        ExpandEnvInPlace(command, expandEnv);
        if command.envShared {
          // the rewrite went through to the service slice
          environ' := command.Env;
          command.envShared := false;
        }
        command.Env := environ' + command.Env;
      }
    }

    /** main.go:95-97: each entry of the rule's environment is rewritten in place by
        os.ExpandEnv. */
    method ExpandEnvInPlace(command: Rule, expandEnv: string -> string)
      modifies command`Env
      ensures command.Env == ExpandEachEnv(old(command.Env), expandEnv)
    {
      ghost var want := ExpandEachEnv(command.Env, expandEnv);
      var i := 0;
      while i < |command.Env|
        invariant 0 <= i <= |command.Env| == |want|
        invariant command.Env[..i] == want[..i]
        invariant command.Env[i..] == old(command.Env)[i..]
      {
        command.Env := command.Env[i := expandEnv(command.Env[i])];
        i := i + 1;
      }
      assert command.Env == command.Env[..i];
    }

    /** The signal handler's loop (main.go:120-128): every rule kills and forgets all its
        processes; the exit hooks and os.Exit are not modelled. */
    method Shutdown() returns (ghost gone: seq<Process>)
      requires Valid()
      modifies commands.Values`running, os
      ensures Valid()
      ensures forall c | c in commands.Values :: c.Entries() == map[]
      ensures os.killed == old(os.killed) + gone && os.started == old(os.started)
      ensures forall c, s | c in commands.Values && s in old(c.Entries()) :: old(c.Entries())[s] in gone
      ensures forall p | p in gone :: exists c | c in commands.Values :: p in old(c.Entries()).Values
    {
      gone := KillAll();
    }

    /** The loop of Shutdown: forceKillAllProcess on every rule of the table. */
    method KillAll() returns (ghost gone: seq<Process>)
      modifies commands.Values`running, os
      ensures forall c | c in commands.Values :: c.running.None? == old(c.running).None? && c.Entries() == map[]
      ensures os.killed == old(os.killed) + gone && os.started == old(os.started)
      ensures forall c, s | c in commands.Values && s in old(c.Entries()) :: old(c.Entries())[s] in gone
      ensures forall p | p in gone :: exists c | c in commands.Values :: p in old(c.Entries()).Values
    {
      var todo := commands.Values;
      gone := [];
      while todo != {}
        invariant todo <= commands.Values
        invariant os.killed == old(os.killed) + gone && os.started == old(os.started)
        invariant forall c | c in todo :: c.running == old(c.running)
        invariant forall c | c in commands.Values - todo :: c.running.None? == old(c.running).None? && c.Entries() == map[]
        invariant forall c, s | c in commands.Values - todo && s in old(c.Entries()) :: old(c.Entries())[s] in gone
        invariant forall p | p in gone :: exists c | c in commands.Values - todo :: p in old(c.Entries()).Values
        decreases todo
      {
        var command :| command in todo;
        assert command.Entries() == old(command.Entries());
        ghost var now := command.ForceKillAllProcess(os);
        AppendAssoc(old(os.killed), gone, now);
        gone := gone + now;
        todo := todo - {command};
      }
    }
  }
}
