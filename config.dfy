/** The `Service` of lib.go:26-34 and its `Init` (lib.go:51-132): port and refresh
    defaults, the working directory, environment layering, and per-rule setup. */
module Config {
  import opened Wrappers
  import opened Text
  import opened Environ
  import opened Commands

  /** The dev and app ports Init settles on (lib.go:53-71), from the `-p` flag and the
      configured ports. */
  function PortSettings(flag: string, devPort: string, appPort: string): (ports: (string, string))
    ensures flag != "" ==> ports.0 != "" && ports.1 != ""
    ensures flag != "" && ':' !in flag ==>
              ports.0 == flag && ports.1 == (if appPort == "" then "1" else appPort)
    ensures forall i | 0 <= i < |flag| && flag[i] == ':' && ':' !in flag[..i] ::
              ports.0 == (if flag[..i] == "" then "8080" else flag[..i]) &&
              ports.1 == (if flag[i + 1..] == "" then "1" else flag[i + 1..])
    ensures flag == "" ==>
              ports.0 == devPort && ports.1 == (if devPort != "" && appPort == "" then "8080" else appPort)
  {
    if flag != "" then
      var parts := SplitOnce(flag, ':');
      var dev := if parts[0] == "" then "8080" else parts[0];
      var app := if |parts| > 1 then parts[1] else appPort;
      // strconv.Atoi("") fails and yields 0, so the empty app port becomes fmt.Sprint(0 + 1)
      var app' := if app == "" then "1" else app;
      FirstSeparator(flag, ':', parts);
      (dev, app')
    else if devPort != "" && appPort == "" then
      (devPort, "8080")
    else
      (devPort, appPort)
  }

  /** Every first occurrence of `c` in `s` is where SplitOnce cut it. */
  lemma FirstSeparator(s: string, c: char, parts: seq<string>)
    requires parts == SplitOnce(s, c)
    ensures forall i | 0 <= i < |s| && s[i] == c && c !in s[..i] ::
              |parts| == 2 && parts[0] == s[..i] && parts[1] == s[i + 1..]
  {
    forall i | 0 <= i < |s| && s[i] == c && c !in s[..i]
      ensures |parts| == 2 && parts[0] == s[..i] && parts[1] == s[i + 1..]
    {
      assert c in s;
      var n := |parts[0]|;
      assert s[n] == c;
      assert s[..n] == parts[0];
    }
  }

  /** The refresh interval Init settles on (lib.go:73-77): the `-t` flag wins, then the
      configured value, then two seconds. */
  function RefreshSetting(flag: string, configured: string): (refresh: string)
    ensures refresh != ""
    ensures flag != "" ==> refresh == flag
    ensures flag == "" && configured != "" ==> refresh == configured
    ensures flag == "" && configured == "" ==> refresh == "2s"
  {
    if flag != "" then flag
    else if configured == "" then "2s"
    else configured
  }

  /** The entries of a command's own environment, each expanded against the service
      environment (lib.go:103-105). */
  function ExpandEach(entries: seq<string>, serviceEnv: seq<string>, expand: Expansion): (expanded: seq<string>)
    ensures |expanded| == |entries|
    ensures forall i | 0 <= i < |entries| :: expanded[i] == expand(entries[i], serviceEnv)
  {
    seq(|entries|, i requires 0 <= i < |entries| => expand(entries[i], serviceEnv))
  }

  /** The fields of a rule that Init rewrites, as one value. */
  datatype Fields = Fields(command: string, oninit: string, onexit: string, dir: string,
                           env: seq<string>, pattern: Option<string>, running: Option<map<string, Process>>,
                           shared: bool)

  ghost function FieldsOf(r: Rule): Fields
    reads r
  {
    Fields(r.Command, r.Oninit, r.Onexit, r.Dir, r.Env, r.pattern, r.running, r.envShared)
  }

  /** The fields Init leaves in rule `r` whose fields were `before` (lib.go:94-119): the
      pattern compiled when Match is set, a new empty registry for a background rule, the layered
      environment, and the command, hooks and directory expanded against it. A rule without
      an environment of its own is handed the service environment slice itself. */
  function AfterInit(r: Rule, before: Fields, serviceEnv: seq<string>, expand: Expansion): Fields
  {
    var env := CommandEnv(serviceEnv, ExpandEach(before.env, serviceEnv, expand));
    Fields(expand(before.command, env),
           expand(before.oninit, env),
           expand(before.onexit, env),
           if before.dir != "" then expand(before.dir, env) else before.dir,
           env,
           if r.Match != "" then Some(r.Match) else before.pattern,
           if r.Wait then before.running else Some(map[]),
           |before.env| == 0)
  }

  /** Rule `r` went from `before` to `after` as Init sets it up. */
  predicate Settled(r: Rule, before: Fields, after: Fields, serviceEnv: seq<string>, expand: Expansion)
  {
    after == AfterInit(r, before, serviceEnv, expand)
  }

  class Service {
    var DevPort: string
    var AppPort: string
    var Refresh: string
    var Dir: string
    var Env: seq<string>
    const Commands: map<string, Rule>

    /** The service as the configuration decoder produces it. */
    constructor (DevPort: string, AppPort: string, Refresh: string, Dir: string,
                 Env: seq<string>, Commands: map<string, Rule>)
      ensures this.DevPort == DevPort && this.AppPort == AppPort && this.Refresh == Refresh
      ensures this.Dir == Dir && this.Env == Env && this.Commands == Commands
    {
      this.DevPort := DevPort;
      this.AppPort := AppPort;
      this.Refresh := Refresh;
      this.Dir := Dir;
      this.Env := Env;
      this.Commands := Commands;
    }

    /** Service.Init. `portFlag` and `tickerFlag` are the `-p` and `-t` flag values,
        `cwd` is os.Getwd(), `abs` is filepath.Abs, `environ` is os.Environ() and
        `expand` is os.Expand. */
    method Init(portFlag: string, tickerFlag: string, cwd: string, abs: string -> string,
                environ: seq<string>, expand: Expansion)
      modifies this`DevPort, this`AppPort, this`Refresh, this`Dir, this`Env, Commands.Values
      ensures (DevPort, AppPort) == PortSettings(portFlag, old(DevPort), old(AppPort))
      ensures Refresh == RefreshSetting(tickerFlag, old(Refresh))
      ensures Dir == if old(Dir) == "" then cwd else abs(old(Dir))
      ensures Env == environ + old(Env)
      ensures forall r | r in Commands.Values :: Settled(r, old(FieldsOf(r)), FieldsOf(r), Env, expand)
      ensures GetRoot() == if old(Dir) == "" then cwd else abs(old(Dir))
      ensures GetEnv() == environ + old(Env)
    {
      InitSettings(portFlag, tickerFlag, cwd, abs, environ);
      InitCommands(expand);
    }

    /** The service-wide part of Init (lib.go:51-86): ports, ticker, directory and the
        environment layered behind os.Environ(). */
    method InitSettings(portFlag: string, tickerFlag: string, cwd: string, abs: string -> string,
                        environ: seq<string>)
      modifies this`DevPort, this`AppPort, this`Refresh, this`Dir, this`Env
      ensures (DevPort, AppPort) == PortSettings(portFlag, old(DevPort), old(AppPort))
      ensures Refresh == RefreshSetting(tickerFlag, old(Refresh))
      ensures Dir == if old(Dir) == "" then cwd else abs(old(Dir))
      ensures Env == environ + old(Env)
    {
      var ports := PortSettings(portFlag, DevPort, AppPort);
      DevPort, AppPort := ports.0, ports.1;
      Refresh := RefreshSetting(tickerFlag, Refresh);
      if Dir == "" {
        Dir := cwd;
      } else {
        Dir := abs(Dir);
      }
      Env := environ + Env;
    }

    /** Init's loop over the rule table (lib.go:88-131); the rule's name only feeds the
        debug trace, so the loop visits the rules themselves. */
    method InitCommands(expand: Expansion)
      modifies Commands.Values
      ensures forall r | r in Commands.Values :: Settled(r, old(FieldsOf(r)), FieldsOf(r), Env, expand)
    {
      var todo := Commands.Values;
      while todo != {}
        invariant todo <= Commands.Values
        invariant forall r | r in todo :: unchanged(r)
        invariant forall r | r in Commands.Values - todo :: Settled(r, old(FieldsOf(r)), FieldsOf(r), Env, expand)
        decreases |todo|
      {
        var command :| command in todo;
        InitCommand(command, expand);
        todo := todo - {command};
      }
    }

    /** The body of Init's loop for one rule (lib.go:94-119); its init hook is not run here. */
    method InitCommand(command: Rule, expand: Expansion)
      modifies command
      ensures Settled(command, old(FieldsOf(command)), FieldsOf(command), Env, expand)
    {
      if command.Match != "" {
        command.pattern := Some(command.Match);
      }
      if !command.Wait {
        command.running := Some(map[]);
      }
      if |command.Env| > 0 {
        ExpandEnvInPlace(command, expand);
        command.Env := Env + command.Env;
        command.envShared := false;
      } else {
        command.Env := Env;
        command.envShared := true;
      }
      var expander := command.Env;
      command.Onexit := expand(command.Onexit, expander);
      command.Oninit := expand(command.Oninit, expander);
      command.Command := expand(command.Command, expander);
      if command.Dir != "" {
        command.Dir := expand(command.Dir, expander);
      }
    }

    /** lib.go:103-105: each entry of the command's own environment is rewritten in place,
        expanded against the service environment. */
    method ExpandEnvInPlace(command: Rule, expand: Expansion)
      modifies command`Env
      ensures command.Env == ExpandEach(old(command.Env), Env, expand)
    {
      var sExpander := Env;
      ghost var want := ExpandEach(command.Env, Env, expand);
      var i := 0;
      while i < |command.Env|
        invariant 0 <= i <= |command.Env| == |want|
        invariant command.Env[..i] == want[..i]
        invariant command.Env[i..] == old(command.Env)[i..]
      {
        command.Env := command.Env[i := expand(command.Env[i], sExpander)];
        i := i + 1;
      }
      assert command.Env == command.Env[..i];
    }

    /** GetRoot (lib.go:146-148): the directory to watch. */
    function GetRoot(): string
      reads this
    {
      Dir
    }

    /** GetEnv (lib.go:150-152): the service environment. */
    function GetEnv(): seq<string>
      reads this
    {
      Env
    }
  }
}
