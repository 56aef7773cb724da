/** The `command` record of lib.go:36-49 (here `Rule`), the process handles it keeps in
    its `running` registry, and the two kill operations of main.go:315-334. */
module Commands {
  import opened Wrappers

  /** os.Expand(s, expander(envs)) (a library routine called with the expander of
      lib.go:134-144 over `envs`): replaces the `$NAME` references in `s` with what the
      expander returns for them. Kept opaque; the model passes the environment the
      expander reads. */
  type Expansion = (string, seq<string>) -> string

  /** A process handle (*exec.Cmd): `bash -c cmdString` with the rule's environment,
      working directory, output wiring and process-group setting. */
  class Process {
    const cmdString: string
    const env: seq<string>
    const dir: string
    const stdout: bool
    const stderr: bool
    const ownGroup: bool

    constructor (cmdString: string, env: seq<string>, dir: string, stdout: bool, stderr: bool, ownGroup: bool)
      ensures this.cmdString == cmdString && this.env == env && this.dir == dir
      ensures this.stdout == stdout && this.stderr == stderr && this.ownGroup == ownGroup
    {
      this.cmdString := cmdString;
      this.env := env;
      this.dir := dir;
      this.stdout := stdout;
      this.stderr := stderr;
      this.ownGroup := ownGroup;
    }
  }

  /** The operating system as this model sees it: a ghost record of the processes that
      were started and of the process groups that were killed, in order. */
  class Os {
    ghost var started: seq<Process>
    ghost var killed: seq<Process>

    constructor ()
      ensures started == [] && killed == []
    {
      started := [];
      killed := [];
    }

    /** killAProcessGroup (main.go:322-327): signal the group, signal the leader, reap it. */
    method KillProcessGroup(p: Process)
      modifies this
      ensures killed == old(killed) + [p] && started == old(started)
    {
      killed := killed + [p];
    }

    /** cmd.Start(): the outcome is the operating system's; only a successful start is recorded. */
    method Start(p: Process) returns (ok: bool)
      modifies this
      ensures started == old(started) + (if ok then [p] else []) && killed == old(killed)
    {
      ok :| true;
      if ok {
        started := started + [p];
      }
    }
  }

  /** The processes of `procs` whose start succeeded (`oks[i]`), in order. */
  ghost function Started(procs: seq<Process>, oks: seq<bool>): (started: seq<Process>)
    requires |procs| == |oks|
    ensures forall p | p in started :: p in procs
    decreases |procs|
  {
    if procs == [] then []
    else
      var n := |procs| - 1;
      assert forall p | p in procs[..n] :: p in procs;
      Started(procs[..n], oks[..n]) + (if oks[n] then [procs[n]] else [])
  }

  /** One more run adds its process when its start succeeded. */
  lemma StartedSnoc(procs: seq<Process>, oks: seq<bool>, p: Process, ok: bool)
    requires |procs| == |oks|
    ensures Started(procs + [p], oks + [ok]) == Started(procs, oks) + (if ok then [p] else [])
  {
    assert (procs + [p])[..|procs|] == procs && (oks + [ok])[..|oks|] == oks;
  }

  /** The starts of two run sequences, one after the other. */
  lemma {:induction false} StartedAppend(pa: seq<Process>, oa: seq<bool>, pb: seq<Process>, ob: seq<bool>)
    requires |pa| == |oa| && |pb| == |ob|
    ensures Started(pa + pb, oa + ob) == Started(pa, oa) + Started(pb, ob)
    decreases |pb|
  {
    if pb == [] {
      assert pa + pb == pa && oa + ob == oa;
    } else {
      var n := |pb| - 1;
      var pb', ob' := pb[..n], ob[..n];
      assert pb == pb' + [pb[n]] && ob == ob' + [ob[n]];
      StartedAppend(pa, oa, pb', ob');
      assert pa + pb == (pa + pb') + [pb[n]] && oa + ob == (oa + ob') + [ob[n]];
      StartedSnoc(pa + pb', oa + ob', pb[n], ob[n]);
      StartedSnoc(pb', ob', pb[n], ob[n]);
      var last: seq<Process> := if ob[n] then [pb[n]] else [];
      assert (Started(pa, oa) + Started(pb', ob')) + last == Started(pa, oa) + (Started(pb', ob') + last);
    }
  }

  /** A rule. The fields that Service.Init never rewrites are constants; `pattern` holds the
      source of the compiled regular expression (None for a nil pattern) and `running` the
      registry from rendered command string to live background process (None for a nil
      map). Go maps are references, but no two rules ever share one, so the registry is
      held by value. Slices are references too: `envShared` says that `Env` is the
      service's own environment slice rather than a copy (lib.go:108), so that a write
      through either is seen by the other. */
  class Rule {
    const Match: string
    const Continue: string
    const Wait: bool
    const Stderr: bool
    const Stdout: bool
    var Command: string
    var Oninit: string
    var Onexit: string
    var Dir: string
    var Env: seq<string>
    var pattern: Option<string>
    var running: Option<map<string, Process>>
    var envShared: bool

    /** A rule as the configuration decoder produces it: no pattern, no registry. */
    constructor (Match: string, Command: string, Continue: string, Oninit: string, Onexit: string,
                 Dir: string, Env: seq<string>, Wait: bool, Stderr: bool, Stdout: bool)
      ensures this.Match == Match && this.Command == Command && this.Continue == Continue
      ensures this.Oninit == Oninit && this.Onexit == Onexit && this.Dir == Dir && this.Env == Env
      ensures this.Wait == Wait && this.Stderr == Stderr && this.Stdout == Stdout
      ensures pattern == None && running == None && !envShared
    {
      this.Match := Match;
      this.Command := Command;
      this.Continue := Continue;
      this.Oninit := Oninit;
      this.Onexit := Onexit;
      this.Dir := Dir;
      this.Env := Env;
      this.Wait := Wait;
      this.Stderr := Stderr;
      this.Stdout := Stdout;
      pattern := None;
      running := None;
      envShared := false;
    }

    /** The registry's contents; a nil map reads as empty. */
    function Entries(): map<string, Process>
      reads this`running
    {
      if running.None? then map[] else running.value
    }

    /** forceKillProcess (main.go:315-320): kill and forget the entry for `s`, if there is one. */
    method ForceKillProcess(s: string, os: Os)
      modifies this`running, os
      ensures running.None? <==> old(running).None?
      ensures Entries() == old(Entries()) - {s}
      ensures os.killed == old(os.killed) + (if s in old(Entries()) then [old(Entries())[s]] else [])
      ensures os.started == old(os.started)
    {
      if running.Some? && s in running.value {
        os.KillProcessGroup(running.value[s]);
        running := Some(running.value - {s});
      }
    }

    /** forceKillAllProcess (main.go:329-334): kill and forget every entry; `gone` is the
        processes killed, in order. */
    method ForceKillAllProcess(os: Os) returns (ghost gone: seq<Process>)
      modifies this`running, os
      ensures running.None? <==> old(running).None?
      ensures Entries() == map[]
      ensures os.killed == old(os.killed) + gone && os.started == old(os.started)
      ensures forall s | s in old(Entries()) :: old(Entries())[s] in gone
      ensures forall p | p in gone :: p in old(Entries()).Values
    {
      gone := [];
      if running.Some? {
        ghost var start := running.value;
        while running.value != map[]
          invariant running.Some?
          invariant os.killed == old(os.killed) + gone && os.started == old(os.started)
          invariant running.value.Keys <= start.Keys
          invariant forall s | s in running.value :: running.value[s] == start[s]
          invariant forall s | s in start && s !in running.value :: start[s] in gone
          invariant forall p | p in gone :: p in start.Values
          decreases |running.value|
        {
          var s :| s in running.value;
          os.KillProcessGroup(running.value[s]);
          gone := gone + [start[s]];
          running := Some(running.value - {s});
        }
      }
    }
  }

  /** `tmpl` maps every rule name of `root` to that rule's command template. */
  ghost predicate TemplatesOf(root: map<string, Rule>, tmpl: map<string, string>)
    reads root.Values`Command
  {
    tmpl.Keys == root.Keys && forall n | n in root :: tmpl[n] == root[n].Command
  }

  /** `pats` maps every rule name of `root` to that rule's compiled pattern. */
  ghost predicate PatternsOf(root: map<string, Rule>, pats: map<string, Option<string>>)
    reads root.Values`pattern
  {
    pats.Keys == root.Keys && forall n | n in root :: pats[n] == root[n].pattern
  }
}
