/** Continuations (main.go:207-219, 269-288): the batch a run of commands hands on, and the
    chain of background continuations that killCommand stops before the rule itself. */
module Continuations {
  import opened Wrappers
  import opened Commands

  /** `rank` strictly decreases along every `Continue` link that resolves in `root`.
      runCommands and killCommand follow these links without a cycle guard; they
      terminate exactly when no cycle is reachable, which such a ranking expresses. */
  ghost predicate Ranked(root: map<string, Rule>, rank: Rule -> nat)
  {
    forall c | c in root.Values && c.Continue != "" && c.Continue in root :: rank(root[c.Continue]) < rank(c)
  }

  /** Some rule of the batch names a continuation (resolvable or not). */
  predicate HasContinue(batch: map<string, Rule>)
  {
    exists k | k in batch :: batch[k].Continue != ""
  }

  /** `next` is a batch that runCommands builds from `batch` (main.go:274-284), `tmpl`
      holding the templates of `root`: each rule of the batch whose non-empty `Continue`
      names a rule of `root` contributes that rule, keyed by its own command template
      verbatim; unknown names contribute nothing. When two continuations share a template,
      the one visited last wins, so any of them may be the value. */
  ghost predicate NextBatchOf(root: map<string, Rule>, tmpl: map<string, string>, batch: map<string, Rule>,
                              next: map<string, Rule>)
    requires root.Keys <= tmpl.Keys
  {
    && (forall k | k in batch && batch[k].Continue != "" && batch[k].Continue in root ::
          tmpl[batch[k].Continue] in next)
    && (forall t | t in next ::
          exists k | k in batch :: batch[k].Continue != "" && batch[k].Continue in root &&
                                   next[t] == root[batch[k].Continue] && tmpl[batch[k].Continue] == t)
  }

  /** The second loop of runCommands (main.go:274-284): None when no rule of the batch has
      a continuation (the map stays nil and nothing recurses), else the next batch. */
  method NextBatch(root: map<string, Rule>, ghost tmpl: map<string, string>, batch: map<string, Rule>)
    returns (next: Option<map<string, Rule>>)
    requires TemplatesOf(root, tmpl)
    ensures next.None? <==> !HasContinue(batch)
    ensures next.Some? ==> NextBatchOf(root, tmpl, batch, next.value)
    ensures next.Some? ==> next.value.Values <= root.Values
  {
    next := None;
    var todo := batch.Keys;
    while todo != {}
      invariant todo <= batch.Keys
      invariant next.None? <==> forall k | k in batch.Keys - todo :: batch[k].Continue == ""
      invariant next.Some? ==> next.value.Values <= root.Values
      invariant next.Some? ==>
                  forall k | k in batch.Keys - todo && batch[k].Continue != "" && batch[k].Continue in root ::
                    tmpl[batch[k].Continue] in next.value
      invariant next.Some? ==>
                  forall t | t in next.value ::
                    exists k | k in batch.Keys - todo :: batch[k].Continue != "" && batch[k].Continue in root &&
                                                        next.value[t] == root[batch[k].Continue] &&
                                                        tmpl[batch[k].Continue] == t
      decreases |todo|
    {
      var key :| key in todo;
      var command := batch[key];
      if command.Continue != "" {
        var commandMap := if next.None? then map[] else next.value;
        if command.Continue in root {
          var cmd := root[command.Continue];
          commandMap := commandMap[cmd.Command := cmd];
        }
        next := Some(commandMap);
      }
      todo := todo - {key};
    }
  }

  /** A batch built from `batch` ranks strictly below it, so with every rule of `batch`
      ranked below `bound`, every rule of the next batch ranks below `bound - 1`. */
  lemma NextBatchRanked(root: map<string, Rule>, tmpl: map<string, string>, rank: Rule -> nat,
                        batch: map<string, Rule>, next: map<string, Rule>, bound: nat)
    requires root.Keys <= tmpl.Keys
    requires Ranked(root, rank) && NextBatchOf(root, tmpl, batch, next) && batch.Values <= root.Values
    requires forall c | c in batch.Values :: rank(c) < bound
    requires HasContinue(batch)
    ensures bound > 0
    ensures forall c | c in next.Values :: rank(c) < bound - 1
  {
    var k :| k in batch && batch[k].Continue != "";
    assert batch[k] in batch.Values;
    forall c | c in next.Values ensures rank(c) < bound - 1 {
      var t :| t in next && next[t] == c;
      var j :| j in batch && batch[j].Continue != "" && batch[j].Continue in root &&
               next[t] == root[batch[j].Continue] && tmpl[batch[j].Continue] == t;
      assert batch[j] in batch.Values;
      assert root[batch[j].Continue] in root.Values;
    }
  }

  /** The rules whose registries one killCommand(s, c) may touch: `c`, then, while the
      continuation names a background rule of `root`, that rule's own chain (main.go:210-213). */
  ghost function KillChain(c: Rule, root: map<string, Rule>, rank: Rule -> nat): (chain: set<Rule>)
    requires Ranked(root, rank) && c in root.Values
    ensures c in chain && chain <= root.Values
    ensures forall d | d in chain :: rank(d) <= rank(c)
    decreases rank(c)
  {
    if c.Continue != "" && c.Continue in root && !root[c.Continue].Wait then
      {c} + KillChain(root[c.Continue], root, rank)
    else
      {c}
  }

  /** Registries as values: every rule's map from command string to its live process. */
  type Registries = map<Rule, map<string, Process>>

  /** `after` only forgets entries of `before`: same rules, each map a sub-map. */
  ghost predicate OnlyForgets(before: Registries, after: Registries)
  {
    && after.Keys == before.Keys
    && (forall d | d in before :: after[d].Keys <= before[d].Keys)
    && (forall d, k | d in before && k in after[d] :: k in before[d] && after[d][k] == before[d][k])
  }

  /** forceKillProcess (main.go:315-320) on registry values: forget the entry of rule `c`
      for `s` and report its process as killed, or do nothing when there is none. */
  function Forget(regs: Registries, c: Rule, s: string): (Registries, seq<Process>)
  {
    if c in regs && s in regs[c] then (regs[c := regs[c] - {s}], [regs[c][s]]) else (regs, [])
  }

  /** killCommand(s, c, root) (main.go:207-219) on registry values: nothing when `s` is not
      registered for `c`; otherwise kill down the chain of background continuations first,
      each under its own template (`tmpl` holds the templates of `root`), then
      forceKillProcess `s` on `c` itself. The result is the new registries and the
      processes killed, in order. */
  ghost function KillSpec(s: string, c: Rule, root: map<string, Rule>, tmpl: map<string, string>, rank: Rule -> nat,
                          regs: Registries): (res: (Registries, seq<Process>))
    requires Ranked(root, rank) && root.Keys <= tmpl.Keys && c in root.Values && root.Values <= regs.Keys
    ensures res.0.Keys == regs.Keys
    decreases rank(c)
  {
    if s in regs[c] then
      var chain := if c.Continue != "" && c.Continue in root && !root[c.Continue].Wait then
                     KillSpec(tmpl[c.Continue], root[c.Continue], root, tmpl, rank, regs)
                   else (regs, []);
      var own := Forget(chain.0, c, s);
      (own.0, chain.1 + own.1)
    else
      (regs, [])
  }

  /** What one killCommand(s, c) does to the registries `regs`, giving `res`: it only
      forgets entries; it does nothing when `s` is not registered for `c`; afterwards `c`
      has no entry for `s`, and the process that was registered there is the last one
      killed; and the registries of rules off the chain of `c` are untouched. */
  ghost predicate KillEffect(s: string, c: Rule, chain: set<Rule>, regs: Registries, res: (Registries, seq<Process>))
    requires c in regs
  {
    && OnlyForgets(regs, res.0)
    && (s !in regs[c] ==> res == (regs, []))
    && s !in res.0[c]
    && (s in regs[c] ==> |res.1| > 0 && res.1[|res.1| - 1] == regs[c][s])
    && (forall d | d in regs && d !in chain :: res.0[d] == regs[d])
  }

  /** killCommand's effect on the registries, by induction down the chain. */
  lemma {:induction false} KillSpecEffect(s: string, c: Rule, root: map<string, Rule>, tmpl: map<string, string>,
                                          rank: Rule -> nat, regs: Registries)
    requires Ranked(root, rank) && root.Keys <= tmpl.Keys && c in root.Values && root.Values <= regs.Keys
    ensures KillEffect(s, c, KillChain(c, root, rank), regs, KillSpec(s, c, root, tmpl, rank, regs))
    decreases rank(c)
  {
    if s in regs[c] && c.Continue != "" && c.Continue in root && !root[c.Continue].Wait {
      var cont := root[c.Continue];
      KillSpecEffect(tmpl[c.Continue], cont, root, tmpl, rank, regs);
      var inner := KillSpec(tmpl[c.Continue], cont, root, tmpl, rank, regs);
      assert c !in KillChain(cont, root, rank);
      assert inner.0[c] == regs[c];
    }
  }

  /** Every process in `res`'s kill list was registered in `regs` under some rule of
      `chain`, and that entry is gone in `res`'s registries. */
  ghost predicate KillsRegistered(chain: set<Rule>, regs: Registries, res: (Registries, seq<Process>))
    requires OnlyForgets(regs, res.0)
  {
    forall i | 0 <= i < |res.1| :: exists d, k | d in chain && d in regs && k in regs[d] ::
      k !in res.0[d] && res.1[i] == regs[d][k]
  }

  /** Every process killCommand kills was registered, under some rule of the chain, and
      that entry is gone afterwards. */
  lemma {:induction false} KilledWereRegistered(s: string, c: Rule, root: map<string, Rule>, tmpl: map<string, string>,
                                                rank: Rule -> nat, regs: Registries)
    requires Ranked(root, rank) && root.Keys <= tmpl.Keys && c in root.Values && root.Values <= regs.Keys
    ensures KillEffect(s, c, KillChain(c, root, rank), regs, KillSpec(s, c, root, tmpl, rank, regs))
    ensures KillsRegistered(KillChain(c, root, rank), regs, KillSpec(s, c, root, tmpl, rank, regs))
    decreases rank(c)
  {
    KillSpecEffect(s, c, root, tmpl, rank, regs);
    var res := KillSpec(s, c, root, tmpl, rank, regs);
    var chain := KillChain(c, root, rank);
    if s in regs[c] && c.Continue != "" && c.Continue in root && !root[c.Continue].Wait {
      var cont := root[c.Continue];
      var inner := KillSpec(tmpl[c.Continue], cont, root, tmpl, rank, regs);
      KilledWereRegistered(tmpl[c.Continue], cont, root, tmpl, rank, regs);
      assert c !in KillChain(cont, root, rank);
      assert res.1 == inner.1 + [regs[c][s]];
      forall i | 0 <= i < |res.1|
        ensures exists d, k | d in chain && d in regs && k in regs[d] :: k !in res.0[d] && res.1[i] == regs[d][k]
      {
        if i < |inner.1| {
          var d, k :| d in KillChain(cont, root, rank) && d in regs && k in regs[d] && k !in inner.0[d] && inner.1[i] == regs[d][k];
          assert d != c;
          assert res.1[i] == regs[d][k];
        } else {
          assert res.1[i] == regs[c][s];
        }
      }
    }
  }

  /** The registering step of runCommand (main.go:246): `s` now maps to `p` for `c`. */
  function Register(regs: Registries, c: Rule, s: string, p: Process): (res: Registries)
    requires c in regs
    ensures res.Keys == regs.Keys && s in res[c] && res[c][s] == p
    ensures forall k | k in res[c] && k != s :: k in regs[c] && res[c][k] == regs[c][k]
    ensures forall d | d in regs && d != c :: res[d] == regs[d]
  {
    regs[c := regs[c][s := p]]
  }

  /** runCommand(s, c, root) (main.go:223-247) on registry values, `p` being the new
      process: a wait-mode rule leaves every registry alone; a background rule first
      kills `s` down its chain, then registers `p` under `s`. The result is the new
      registries and the processes killed, in order. */
  ghost function RunSpec(s: string, c: Rule, root: map<string, Rule>, tmpl: map<string, string>, rank: Rule -> nat,
                         regs: Registries, p: Process): (res: (Registries, seq<Process>))
    requires Ranked(root, rank) && root.Keys <= tmpl.Keys && c in root.Values && root.Values <= regs.Keys
    ensures res.0.Keys == regs.Keys
  {
    if c.Wait then (regs, [])
    else
      var killed := KillSpec(s, c, root, tmpl, rank, regs);
      (Register(killed.0, c, s, p), killed.1)
  }

  /** What one runCommand does to the registries: nothing for a wait-mode rule; for a
      background rule, `c` maps `s` to `p` and keeps no entry it did not have before, so at
      most one process per command string stays registered, no entry of `c` but the one
      for `s` changes, and rules off the kill chain of `c` keep their registries. */
  lemma RunRegisters(s: string, c: Rule, root: map<string, Rule>, tmpl: map<string, string>, rank: Rule -> nat,
                     regs: Registries, p: Process)
    requires Ranked(root, rank) && root.Keys <= tmpl.Keys && c in root.Values && root.Values <= regs.Keys
    ensures c.Wait ==> RunSpec(s, c, root, tmpl, rank, regs, p) == (regs, [])
    ensures !c.Wait ==>
              var res := RunSpec(s, c, root, tmpl, rank, regs, p).0;
              && s in res[c] && res[c][s] == p
              && (forall k | k in res[c] && k != s :: k in regs[c] && res[c][k] == regs[c][k])
              && (forall d | d in regs && d !in KillChain(c, root, rank) :: res[d] == regs[d])
  {
    KillSpecEffect(s, c, root, tmpl, rank, regs);
  }

  /** Logs extended twice read the same however the extensions are grouped. */
  lemma AppendAssoc<T>(a: seq<T>, b: seq<T>, c: seq<T>)
    ensures (a + b) + c == a + (b + c)
  {
  }

  /** Every rule of the runs `order` is a rule of `root`. */
  ghost predicate RulesIn(order: seq<(string, Rule)>, root: map<string, Rule>)
  {
    forall i | 0 <= i < |order| :: order[i].1 in root.Values
  }

  /** The runs `order`, one after the other, with `procs[i]` the process of the i-th run,
      starting from the registries `regs`: the registries left and the processes killed, in order. */
  ghost function RunAll(root: map<string, Rule>, tmpl: map<string, string>, rank: Rule -> nat, regs: Registries,
                        order: seq<(string, Rule)>, procs: seq<Process>): (res: (Registries, seq<Process>))
    requires Ranked(root, rank) && root.Keys <= tmpl.Keys && root.Values <= regs.Keys
    requires RulesIn(order, root) && |procs| == |order|
    ensures res.0.Keys == regs.Keys
    decreases |order|
  {
    if order == [] then (regs, [])
    else
      var n := |order| - 1;
      var prev := RunAll(root, tmpl, rank, regs, order[..n], procs[..n]);
      var step := RunSpec(order[n].0, order[n].1, root, tmpl, rank, prev.0, procs[n]);
      (step.0, prev.1 + step.1)
  }

  /** One more run extends the fold by that run. */
  lemma RunAllSnoc(root: map<string, Rule>, tmpl: map<string, string>, rank: Rule -> nat, regs: Registries,
                   order: seq<(string, Rule)>, procs: seq<Process>, s: string, c: Rule, p: Process)
    requires Ranked(root, rank) && root.Keys <= tmpl.Keys && root.Values <= regs.Keys
    requires RulesIn(order, root) && |procs| == |order| && c in root.Values
    ensures RulesIn(order + [(s, c)], root)
    ensures var prev := RunAll(root, tmpl, rank, regs, order, procs);
            var step := RunSpec(s, c, root, tmpl, rank, prev.0, p);
            RunAll(root, tmpl, rank, regs, order + [(s, c)], procs + [p]) == (step.0, prev.1 + step.1)
  {
    var o := order + [(s, c)];
    assert o[..|order|] == order && (procs + [p])[..|order|] == procs;
    assert o[|order|] == (s, c);
  }

  /** Running `a` and then `b` is running `a + b`: registries thread through, kills concatenate. */
  lemma {:induction false} RunAllAppend(root: map<string, Rule>, tmpl: map<string, string>, rank: Rule -> nat,
                                        regs: Registries, a: seq<(string, Rule)>, pa: seq<Process>,
                                        b: seq<(string, Rule)>, pb: seq<Process>)
    requires Ranked(root, rank) && root.Keys <= tmpl.Keys && root.Values <= regs.Keys
    requires RulesIn(a, root) && |pa| == |a| && RulesIn(b, root) && |pb| == |b|
    ensures RulesIn(a + b, root)
    ensures var first := RunAll(root, tmpl, rank, regs, a, pa);
            var second := RunAll(root, tmpl, rank, first.0, b, pb);
            RunAll(root, tmpl, rank, regs, a + b, pa + pb) == (second.0, first.1 + second.1)
    decreases |b|
  {
    var first := RunAll(root, tmpl, rank, regs, a, pa);
    if b == [] {
      assert a + b == a && pa + pb == pa;
      assert first.1 + [] == first.1;
    } else {
      var n := |b| - 1;
      var b', pb', x, p := b[..n], pb[..n], b[n], pb[n];
      assert b == b' + [x] && pb == pb' + [p];
      assert RulesIn(b', root) by {
        forall i | 0 <= i < n ensures b'[i].1 in root.Values {
          assert b'[i] == b[i];
        }
      }
      RunAllAppend(root, tmpl, rank, regs, a, pa, b', pb');
      var ab, pab := a + b', pa + pb';
      var mid := RunAll(root, tmpl, rank, first.0, b', pb');
      assert RunAll(root, tmpl, rank, regs, ab, pab) == (mid.0, first.1 + mid.1);
      AppendAssoc(a, b', [x]);
      AppendAssoc(pa, pb', [p]);
      RunAllSnoc(root, tmpl, rank, regs, ab, pab, x.0, x.1, p);
      RunAllSnoc(root, tmpl, rank, first.0, b', pb', x.0, x.1, p);
      var step := RunSpec(x.0, x.1, root, tmpl, rank, mid.0, p);
      AppendAssoc(first.1, mid.1, step.1);
    }
  }
}
