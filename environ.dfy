/** Environment lists as lib.go builds and reads them: ordered `KEY=value` entries,
    layered by concatenation and read back by the closure that `expander` returns. */
module Environ {
  import opened Text

  /** The key of an entry: its text before the first `=` (the whole entry when there is none). */
  function Key(entry: string): string
  {
    SplitOnce(entry, '=')[0]
  }

  /** The value of an entry: its text after the first `=`; it may itself contain `=`. */
  function Value(entry: string): string
    requires '=' in entry
  {
    SplitOnce(entry, '=')[1]
  }

  /** Some entry of `envs` has the key `name`. */
  predicate HasKey(envs: seq<string>, name: string)
  {
    exists i :: 0 <= i < |envs| && Key(envs[i]) == name
  }

  /** Looking `name` up in `envs` does not index past the split of an entry: the closure
      reads `env[1]` for every entry whose key is `name`, so each such entry needs an `=`. */
  predicate NoPanic(envs: seq<string>, name: string)
  {
    forall i :: 0 <= i < |envs| && Key(envs[i]) == name ==> '=' in envs[i]
  }

  /** What the closure returned by `expander(envs)` yields for `name`: the value of the
      last entry whose key is `name`, and "" when no entry has that key. */
  function Lookup(envs: seq<string>, name: string): (found: string)
    requires NoPanic(envs, name)
    ensures !HasKey(envs, name) ==> found == ""
    ensures forall i | 0 <= i < |envs| && Key(envs[i]) == name &&
              (forall j | i < j < |envs| :: Key(envs[j]) != name) :: found == Value(envs[i])
  {
    if envs == [] then ""
    else
      var last := envs[|envs| - 1];
      if Key(last) == name then Value(last)
      else
        var init := envs[..|envs| - 1];
        assert forall i :: 0 <= i < |init| ==> init[i] == envs[i];
        Lookup(init, name)
  }

  /** One call of the closure that `expander(envs)` returns: a forward scan that
      overwrites `found` at every entry whose key is `name`. */
  method ExpanderCall(envs: seq<string>, name: string) returns (found: string)
    requires NoPanic(envs, name)
    ensures found == Lookup(envs, name)
  {
    found := "";
    for i := 0 to |envs|
      invariant NoPanic(envs[..i], name)
      invariant found == Lookup(envs[..i], name)
    {
      var env := SplitOnce(envs[i], '=');
      assert envs[..i + 1][..i] == envs[..i];
      assert NoPanic(envs[..i + 1], name);
      if env[0] == name {
        found := env[1];
      }
    }
    assert envs[..|envs|] == envs;
  }

  /** Appending one entry: it answers for its own key, and the earlier list for the rest. */
  lemma LookupSnoc(envs: seq<string>, last: string, name: string)
    requires NoPanic(envs, name) && (Key(last) == name ==> '=' in last)
    ensures NoPanic(envs + [last], name)
    ensures HasKey(envs + [last], name) == (HasKey(envs, name) || Key(last) == name)
    ensures Lookup(envs + [last], name) == if Key(last) == name then Value(last) else Lookup(envs, name)
  {
    var e := envs + [last];
    assert e[|e| - 1] == last;
    assert e[..|e| - 1] == envs;
    forall i | 0 <= i < |e| && Key(e[i]) == name ensures '=' in e[i] {
      if i < |envs| {
        assert e[i] == envs[i];
      }
    }
    if HasKey(envs, name) {
      var i :| 0 <= i < |envs| && Key(envs[i]) == name;
      assert e[i] == envs[i];
    }
    if HasKey(e, name) && Key(last) != name {
      var i :| 0 <= i < |e| && Key(e[i]) == name;
      assert i < |envs| && e[i] == envs[i];
    }
  }

  /** Appending a list shadows the earlier one for every key the appended list defines;
      for the other keys the earlier list still answers. */
  lemma {:induction false} LookupAppend(a: seq<string>, b: seq<string>, name: string)
    requires NoPanic(a, name) && NoPanic(b, name)
    ensures NoPanic(a + b, name)
    ensures Lookup(a + b, name) == if HasKey(b, name) then Lookup(b, name) else Lookup(a, name)
    decreases |b|
  {
    if b == [] {
      assert a + b == a;
      assert !HasKey(b, name);
    } else {
      var init := b[..|b| - 1];
      var last := b[|b| - 1];
      assert b == init + [last];
      assert a + b == (a + init) + [last];
      assert NoPanic(init, name) by {
        forall i | 0 <= i < |init| && Key(init[i]) == name ensures '=' in init[i] {
          assert init[i] == b[i];
        }
      }
      LookupAppend(a, init, name);
      LookupSnoc(a + init, last, name);
      LookupSnoc(init, last, name);
    }
  }

  /** The environment of a command (lib.go:102-109): the service environment followed by
      the command's own (already expanded) entries when it has any, else the service
      environment alone. */
  function CommandEnv(serviceEnv: seq<string>, own: seq<string>): seq<string>
  {
    if |own| > 0 then serviceEnv + own else serviceEnv
  }

  /** A command's own entry overrides the service-level entry with the same key;
      a key the command does not define is looked up in the service environment. */
  lemma CommandEnvOverrides(serviceEnv: seq<string>, own: seq<string>, name: string)
    requires NoPanic(serviceEnv, name) && NoPanic(own, name)
    ensures |CommandEnv(serviceEnv, own)| == |serviceEnv| + |own|
    ensures CommandEnv(serviceEnv, own)[..|serviceEnv|] == serviceEnv
    ensures NoPanic(CommandEnv(serviceEnv, own), name)
    ensures Lookup(CommandEnv(serviceEnv, own), name) ==
              if HasKey(own, name) then Lookup(own, name) else Lookup(serviceEnv, name)
  {
    if |own| > 0 {
      LookupAppend(serviceEnv, own, name);
    }
  }

  /** Prepending a list whose every key the longer list already defines changes no lookup. */
  lemma ShadowedPrefix(prefix: seq<string>, envs: seq<string>, name: string)
    requires NoPanic(prefix, name) && NoPanic(envs, name)
    requires forall i :: 0 <= i < |prefix| ==> HasKey(envs, Key(prefix[i]))
    ensures NoPanic(prefix + envs, name)
    ensures Lookup(prefix + envs, name) == Lookup(envs, name)
  {
    LookupAppend(prefix, envs, name);
    if !HasKey(envs, name) {
      assert !HasKey(prefix, name);
    }
  }

  /** main.go:94-98 puts the service environment in front of a command environment that
      lib.go already layered on it; since lookups are last-wins, nothing changes. */
  lemma RelayeringIsInvisible(serviceEnv: seq<string>, own: seq<string>, name: string)
    requires NoPanic(serviceEnv, name) && NoPanic(own, name)
    ensures NoPanic(serviceEnv + CommandEnv(serviceEnv, own), name)
    ensures Lookup(serviceEnv + CommandEnv(serviceEnv, own), name) == Lookup(CommandEnv(serviceEnv, own), name)
  {
    var env := CommandEnv(serviceEnv, own);
    CommandEnvOverrides(serviceEnv, own, name);
    forall i | 0 <= i < |serviceEnv| ensures HasKey(env, Key(serviceEnv[i])) {
      assert env[i] == serviceEnv[i];
    }
    ShadowedPrefix(serviceEnv, env, name);
  }
}
