/** matchCommands and scanAndGetCommands (main.go:290-313): which rules a changed file
    fires, and the table of rendered command strings they are queued under. */
module Matching {
  import opened Wrappers
  import opened Commands

  /** The two methods of a compiled *regexp.Regexp the core calls, as functions of the
      pattern's source: MatchString(path), and ReplaceAllString(template, path), which
      replaces every match of the pattern inside `template` with `path`. */
  datatype Regexp = Regexp(matchString: (string, string) -> bool,
                           replaceAllString: (string, string, string) -> string)

  /** A rule with compiled pattern `pattern` fires for `path`: the pattern is there and
      matches. */
  predicate Fires(re: Regexp, pattern: Option<string>, path: string)
  {
    pattern.Some? && re.matchString(pattern.value, path)
  }

  /** The command string a firing rule with template `template` queues for `path`
      (main.go:294). */
  function Render(re: Regexp, pattern: Option<string>, template: string, path: string): string
    requires pattern.Some?
  {
    re.replaceAllString(pattern.value, template, path)
  }

  /** `after` is what matching `path` against the rules of `root` named in `names` leaves
      in the table that held `before`, the compiled patterns being `pats` and the templates
      `tmpl`: nothing already queued is replaced, every rule named that fires for `path`
      has its command string queued, and every new entry is such a string, queued with a
      rule that rendered it. */
  ghost predicate MatchedOver(root: map<string, Rule>, pats: map<string, Option<string>>, tmpl: map<string, string>,
                              re: Regexp, before: map<string, Rule>, path: string, names: set<string>,
                              after: map<string, Rule>)
    requires names <= root.Keys && root.Keys <= pats.Keys && root.Keys <= tmpl.Keys
  {
    && (forall k | k in before :: k in after && after[k] == before[k])
    && (forall n | n in names && Fires(re, pats[n], path) :: Render(re, pats[n], tmpl[n], path) in after)
    && (forall k | k in after && k !in before ::
          exists n | n in names :: Fires(re, pats[n], path) && after[k] == root[n] &&
                                   Render(re, pats[n], tmpl[n], path) == k)
  }

  /** `after` is what one matchCommands call over the whole rule table leaves. */
  ghost predicate MatchedInto(root: map<string, Rule>, pats: map<string, Option<string>>, tmpl: map<string, string>,
                              re: Regexp, before: map<string, Rule>, path: string, after: map<string, Rule>)
    requires root.Keys <= pats.Keys && root.Keys <= tmpl.Keys
  {
    MatchedOver(root, pats, tmpl, re, before, path, root.Keys, after)
  }

  /** One rule's turn in matchCommands (main.go:292-299): a rule with pattern `pattern`
      and template `template` that fires for `path` queues its string unless the table
      has it already. */
  function MatchOne(re: Regexp, pattern: Option<string>, template: string, rule: Rule, path: string,
                    out: map<string, Rule>): (r: map<string, Rule>)
    ensures forall k | k in out :: k in r && r[k] == out[k]
    ensures forall k | k in r && k !in out ::
              Fires(re, pattern, path) && k == Render(re, pattern, template, path) && r[k] == rule
    ensures Fires(re, pattern, path) ==> Render(re, pattern, template, path) in r
    ensures !Fires(re, pattern, path) ==> r == out
    ensures r.Values <= out.Values + {rule}
  {
    if Fires(re, pattern, path) && Render(re, pattern, template, path) !in out
    then out[Render(re, pattern, template, path) := rule]
    else out
  }

  /** Giving one more rule its turn extends a match over the rules not in `todo` to the
      rules not in `todo - {n}`. */
  lemma MatchOneExtends(root: map<string, Rule>, pats: map<string, Option<string>>, tmpl: map<string, string>,
                        re: Regexp, before: map<string, Rule>, path: string, todo: set<string>,
                        out: map<string, Rule>, n: string)
    requires todo <= root.Keys && root.Keys <= pats.Keys && root.Keys <= tmpl.Keys && n in todo
    requires MatchedOver(root, pats, tmpl, re, before, path, root.Keys - todo, out)
    ensures MatchedOver(root, pats, tmpl, re, before, path, root.Keys - (todo - {n}),
                        MatchOne(re, pats[n], tmpl[n], root[n], path, out))
  {
    var names := root.Keys - todo;
    assert root.Keys - (todo - {n}) == names + {n};
    var next := MatchOne(re, pats[n], tmpl[n], root[n], path, out);
    forall k | k in next && k !in before
      ensures exists m | m in names + {n} :: Fires(re, pats[m], path) && next[k] == root[m] &&
                                             Render(re, pats[m], tmpl[m], path) == k
    {
      if k !in out {
        assert Fires(re, pats[n], path) && next[k] == root[n] && Render(re, pats[n], tmpl[n], path) == k;
      } else {
        var m :| m in names && Fires(re, pats[m], path) && out[k] == root[m] && Render(re, pats[m], tmpl[m], path) == k;
      }
    }
  }

  /** matchCommands (main.go:290-302), over the rule table `root` (the global `commands`)
      whose compiled patterns are `pats` and templates `tmpl`. */
  method MatchCommands(root: map<string, Rule>, ghost pats: map<string, Option<string>>, ghost tmpl: map<string, string>,
                       re: Regexp, commandsRun: map<string, Rule>, path: string)
    returns (out: map<string, Rule>)
    requires PatternsOf(root, pats) && TemplatesOf(root, tmpl)
    ensures MatchedInto(root, pats, tmpl, re, commandsRun, path, out)
    ensures out.Values <= commandsRun.Values + root.Values
  {
    out := commandsRun;
    var todo := root.Keys;
    while todo != {}
      invariant todo <= root.Keys && root.Keys <= pats.Keys && root.Keys <= tmpl.Keys
      invariant MatchedOver(root, pats, tmpl, re, commandsRun, path, root.Keys - todo, out)
      invariant out.Values <= commandsRun.Values + root.Values
      decreases |todo|
    {
      var name :| name in todo;
      var command := root[name];
      assert command.pattern == pats[name] && command.Command == tmpl[name];
      MatchOneExtends(root, pats, tmpl, re, commandsRun, path, todo, out, name);
      out := MatchOne(re, command.pattern, command.Command, command, path, out);
      todo := todo - {name};
    }
  }

  /** A table already matched against `path` is a fixed point of matching it again. */
  lemma MatchIdempotent(root: map<string, Rule>, pats: map<string, Option<string>>, tmpl: map<string, string>, re: Regexp,
                        before: map<string, Rule>, path: string, once: map<string, Rule>, twice: map<string, Rule>)
    requires root.Keys <= pats.Keys && root.Keys <= tmpl.Keys
    requires MatchedInto(root, pats, tmpl, re, before, path, once)
    requires MatchedInto(root, pats, tmpl, re, once, path, twice)
    ensures twice == once
  {
    assert twice.Keys <= once.Keys;
  }

  /** Matching never drops an entry, so the table only grows. */
  lemma MatchGrows(root: map<string, Rule>, pats: map<string, Option<string>>, tmpl: map<string, string>, re: Regexp,
                   before: map<string, Rule>, path: string, after: map<string, Rule>)
    requires root.Keys <= pats.Keys && root.Keys <= tmpl.Keys
    requires MatchedInto(root, pats, tmpl, re, before, path, after)
    ensures before.Keys <= after.Keys && |before| <= |after|
  {
    assert before.Keys <= after.Keys;
    assert after.Keys == before.Keys + (after.Keys - before.Keys);
  }

  /** A rule without a compiled pattern (its Match is empty) never contributes an entry,
      under any of its names. */
  lemma NoPatternNoMatch(root: map<string, Rule>, pats: map<string, Option<string>>, tmpl: map<string, string>, re: Regexp,
                         before: map<string, Rule>, path: string, after: map<string, Rule>, n: string)
    requires PatternsOf(root, pats) && root.Keys <= tmpl.Keys
    requires n in root && pats[n] == None
    requires MatchedInto(root, pats, tmpl, re, before, path, after)
    ensures forall k | k in after && k !in before :: after[k] != root[n]
  {
    forall k | k in after && k !in before ensures after[k] != root[n] {
      var m :| m in root && Fires(re, pats[m], path) && after[k] == root[m] && Render(re, pats[m], tmpl[m], path) == k;
      assert pats[m] == root[m].pattern && pats[n] == root[n].pattern;
    }
  }

  /** One entry that filepath.Walk visits: its path and whether it is a directory. */
  datatype WalkEntry = WalkEntry(path: string, isDir: bool)

  /** `out` is the table a walk over `entries` yields from `before`: everything queued stays,
      every rule that fires for some visited file has its string queued, and every new
      entry was rendered by a rule firing for some visited file. Directories never count. */
  ghost predicate ScannedInto(root: map<string, Rule>, pats: map<string, Option<string>>, tmpl: map<string, string>, re: Regexp,
                              before: map<string, Rule>, entries: seq<WalkEntry>, out: map<string, Rule>)
    requires root.Keys <= pats.Keys && root.Keys <= tmpl.Keys
  {
    && (forall k | k in before :: k in out && out[k] == before[k])
    && (forall i, n | 0 <= i < |entries| && !entries[i].isDir && n in root && Fires(re, pats[n], entries[i].path) ::
          Render(re, pats[n], tmpl[n], entries[i].path) in out)
    && (forall k | k in out && k !in before ::
          exists i, n | 0 <= i < |entries| && n in root ::
            !entries[i].isDir && Fires(re, pats[n], entries[i].path) && out[k] == root[n] &&
            Render(re, pats[n], tmpl[n], entries[i].path) == k)
  }

  /** scanAndGetCommands (main.go:304-313): the walk of the root directory is given as the
      sequence of entries filepath.Walk visits. */
  method ScanAndGetCommands(root: map<string, Rule>, ghost pats: map<string, Option<string>>, ghost tmpl: map<string, string>,
                            re: Regexp, entries: seq<WalkEntry>)
    returns (commandsRun: map<string, Rule>)
    requires PatternsOf(root, pats) && TemplatesOf(root, tmpl)
    ensures ScannedInto(root, pats, tmpl, re, map[], entries, commandsRun)
    ensures commandsRun.Values <= root.Values
  {
    commandsRun := map[];
    for i := 0 to |entries|
      invariant ScannedInto(root, pats, tmpl, re, map[], entries[..i], commandsRun)
      invariant commandsRun.Values <= root.Values
    {
      if !entries[i].isDir {
        var next := MatchCommands(root, pats, tmpl, re, commandsRun, entries[i].path);
        ScanStep(root, pats, tmpl, re, entries[..i], commandsRun, entries[i], next);
        assert entries[..i + 1] == entries[..i] + [entries[i]];
        commandsRun := next;
      } else {
        ScanSkip(root, pats, tmpl, re, entries[..i], commandsRun, entries[i]);
        assert entries[..i + 1] == entries[..i] + [entries[i]];
      }
    }
    assert entries[..|entries|] == entries;
  }

  /** Matching one more file extends a scan by that file. */
  lemma ScanStep(root: map<string, Rule>, pats: map<string, Option<string>>, tmpl: map<string, string>, re: Regexp,
                 entries: seq<WalkEntry>, done: map<string, Rule>, e: WalkEntry, next: map<string, Rule>)
    requires root.Keys <= pats.Keys && root.Keys <= tmpl.Keys
    requires ScannedInto(root, pats, tmpl, re, map[], entries, done)
    requires !e.isDir && MatchedInto(root, pats, tmpl, re, done, e.path, next)
    ensures ScannedInto(root, pats, tmpl, re, map[], entries + [e], next)
  {
    var all := entries + [e];
    forall k | k in next
      ensures exists i, n | 0 <= i < |all| && n in root ::
                !all[i].isDir && Fires(re, pats[n], all[i].path) && next[k] == root[n] &&
                Render(re, pats[n], tmpl[n], all[i].path) == k
    {
      if k in done {
        var i, n :| 0 <= i < |entries| && n in root && !entries[i].isDir && Fires(re, pats[n], entries[i].path) &&
                    done[k] == root[n] && Render(re, pats[n], tmpl[n], entries[i].path) == k;
        assert all[i] == entries[i];
      } else {
        var n :| n in root && Fires(re, pats[n], e.path) && next[k] == root[n] && Render(re, pats[n], tmpl[n], e.path) == k;
        assert all[|entries|] == e;
      }
    }
    forall i, n | 0 <= i < |all| && !all[i].isDir && n in root && Fires(re, pats[n], all[i].path)
      ensures Render(re, pats[n], tmpl[n], all[i].path) in next
    {
      if i < |entries| {
        assert all[i] == entries[i];
      }
    }
  }

  /** A directory adds nothing to a scan. */
  lemma ScanSkip(root: map<string, Rule>, pats: map<string, Option<string>>, tmpl: map<string, string>, re: Regexp,
                 entries: seq<WalkEntry>, done: map<string, Rule>, e: WalkEntry)
    requires root.Keys <= pats.Keys && root.Keys <= tmpl.Keys
    requires ScannedInto(root, pats, tmpl, re, map[], entries, done)
    requires e.isDir
    ensures ScannedInto(root, pats, tmpl, re, map[], entries + [e], done)
  {
    var all := entries + [e];
    forall k | k in done
      ensures exists i, n | 0 <= i < |all| && n in root ::
                !all[i].isDir && Fires(re, pats[n], all[i].path) && done[k] == root[n] &&
                Render(re, pats[n], tmpl[n], all[i].path) == k
    {
      var i, n :| 0 <= i < |entries| && n in root && !entries[i].isDir && Fires(re, pats[n], entries[i].path) &&
                  done[k] == root[n] && Render(re, pats[n], tmpl[n], entries[i].path) == k;
      assert all[i] == entries[i];
    }
    forall i, n | 0 <= i < |all| && !all[i].isDir && n in root && Fires(re, pats[n], all[i].path)
      ensures Render(re, pats[n], tmpl[n], all[i].path) in done
    {
      assert i < |entries| && all[i] == entries[i];
    }
  }
}
