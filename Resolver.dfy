/** The dependency closure `compileMeta` (src/module/rewriter.js:7-49): a
    worklist over the required fields that activates each plugin at most once,
    appends its `requires` to the worklist, files it under its kind and, for
    INJECT plugins, marks the fields it manufactures as not to be fetched. */
module Resolver {
  import opened Sequences
  import opened Plugins

  /** What `compileMeta` returns. The three callback maps it builds with
      `compileTargetMap` are represented by the activated plugins of each
      kind, in activation order, which is what those maps are built from. */
  datatype Meta = Meta(
    filterPlugins: seq<Plugin>,
    injectPlugins: seq<Plugin>,
    sortPlugins: seq<Plugin>,
    fieldsToRequest: seq<string>)

  /** `[...new Set(requiredFields)].filter((e) => !ignoredFields.has(e))`. */
  function FieldsToRequest(required: seq<string>, ignored: set<string>): (r: seq<string>)
    ensures NoDuplicates(r)
    ensures forall f :: f in r <==> f in required && f !in ignored
    ensures FirstOccurrenceOrder(r, required)
  {
    DedupOrder(required);
    WithoutKeepsOrder(Dedup(required), required, ignored);
    WithoutKeepsNoDuplicates(Dedup(required), ignored);
    Without(Dedup(required), ignored)
  }

  /** The loop state of `CompileMeta` that every activation preserves:
      the worklist is the request followed by the activated plugins'
      requires, activated and remaining plugins partition the input, and
      each activation was triggered, at a worklist index up to `bound`, by a
      field present before that plugin's own requires were appended. */
  ghost predicate Progress(plugins: seq<Plugin>, fields: seq<string>, activated: seq<Plugin>,
                           remaining: seq<Plugin>, required: seq<string>, activatedAt: seq<nat>, bound: nat)
  {
    Accounted(plugins, fields, activated, remaining, required)
    && Justified(fields, activated, required, activatedAt, bound)
  }

  /** The worklist is the request followed by the activated plugins' requires,
      and activated and remaining plugins partition the input. */
  ghost predicate Accounted(plugins: seq<Plugin>, fields: seq<string>, activated: seq<Plugin>,
                            remaining: seq<Plugin>, required: seq<string>)
  {
    && required == fields + ConcatRequires(activated)
    && |required| + SumRequires(remaining) == |fields| + SumRequires(plugins)
    && multiset(activated) + multiset(remaining) == multiset(plugins)
  }

  /** Each activation was triggered, at a worklist index up to `bound`, by a
      field present before that plugin's own requires were appended. */
  ghost predicate Justified(fields: seq<string>, activated: seq<Plugin>, required: seq<string>,
                            activatedAt: seq<nat>, bound: nat)
  {
    && |activatedAt| == |activated|
    && forall k :: 0 <= k < |activated| ==>
         && activatedAt[k] <= bound
         && activatedAt[k] < |fields| + |ConcatRequires(activated[..k])|
         && activatedAt[k] < |required|
         && Activates(activated[k], required[activatedAt[k]])
  }

  /** No remaining plugin is activated by the first `i` worklist fields. */
  ghost predicate Settled(remaining: seq<Plugin>, required: seq<string>, i: nat)
    requires i <= |required|
  {
    forall k, p :: 0 <= k < i && p in remaining ==> !Activates(p, required[k])
  }

  /** Appending one plugin to a run of activations. */
  lemma SnocActivated(ps: seq<Plugin>, p: Plugin)
    ensures ConcatRequires(ps + [p]) == ConcatRequires(ps) + p.needs
    ensures Ignored(ps + [p]) == Ignored(ps) + Produced(p)
    ensures OfKind(ps + [p], Filter) == if p.kind == Filter then OfKind(ps, Filter) + [p] else OfKind(ps, Filter)
    ensures OfKind(ps + [p], Inject) == if p.kind == Inject then OfKind(ps, Inject) + [p] else OfKind(ps, Inject)
    ensures OfKind(ps + [p], Sort) == if p.kind == Sort then OfKind(ps, Sort) + [p] else OfKind(ps, Sort)
  {
    assert (ps + [p])[..|ps|] == ps;
  }

  /** Activating the plugin at index `j` of `remaining` keeps the accounting. */
  lemma AccountStep(plugins: seq<Plugin>, fields: seq<string>, activated: seq<Plugin>,
                    remaining: seq<Plugin>, required: seq<string>, j: nat)
    requires Accounted(plugins, fields, activated, remaining, required)
    requires j < |remaining|
    ensures Accounted(plugins, fields, activated + [remaining[j]], remaining[..j] + remaining[j + 1..],
                      required + remaining[j].needs)
  {
    var p := remaining[j];
    var activated', remaining' := activated + [p], remaining[..j] + remaining[j + 1..];
    assert activated'[..|activated|] == activated;
    assert ConcatRequires(activated') == ConcatRequires(activated) + p.needs;
    SumRequiresRemove(remaining, j);
    MultisetRemove(remaining, j);
    assert multiset(activated') == multiset(activated) + multiset{p};
  }

  /** Activating the plugin at index `j` of `remaining` because of worklist
      field `i` keeps every activation justified. */
  lemma JustifyStep(fields: seq<string>, activated: seq<Plugin>, remaining: seq<Plugin>,
                    required: seq<string>, activatedAt: seq<nat>, i: nat, j: nat)
    requires required == fields + ConcatRequires(activated)
    requires Justified(fields, activated, required, activatedAt, i)
    requires i < |required| && j < |remaining|
    requires Activates(remaining[j], required[i])
    ensures Justified(fields, activated + [remaining[j]], required + remaining[j].needs, activatedAt + [i], i)
  {
    var p := remaining[j];
    var activated', required', activatedAt' := activated + [p], required + p.needs, activatedAt + [i];
    forall k | 0 <= k < |activated'|
      ensures && activatedAt'[k] <= i
              && activatedAt'[k] < |fields| + |ConcatRequires(activated'[..k])|
              && activatedAt'[k] < |required'|
              && Activates(activated'[k], required'[activatedAt'[k]])
    {
      if k < |activated| {
        assert activatedAt'[k] == activatedAt[k] && activated'[k] == activated[k];
        assert activated'[..k] == activated[..k];
        assert required'[activatedAt[k]] == required[activatedAt[k]];
      } else {
        assert activated'[..k] == activated;
        assert required'[i] == required[i];
      }
    }
  }

  /** Removing a plugin and growing the worklist keeps the first `i` fields settled. */
  lemma SettledStep(remaining: seq<Plugin>, required: seq<string>, extra: seq<string>, i: nat, j: nat)
    requires i <= |required| && j < |remaining|
    requires Settled(remaining, required, i)
    ensures Settled(remaining[..j] + remaining[j + 1..], required + extra, i)
  {
    var remaining' := remaining[..j] + remaining[j + 1..];
    forall k, q | 0 <= k < i && q in remaining'
      ensures !Activates(q, (required + extra)[k])
    {
      var n :| 0 <= n < |remaining'| && remaining'[n] == q;
      assert q == remaining[if n < j then n else n + 1];
      assert q in remaining;
      assert (required + extra)[k] == required[k];
    }
  }

  /** Where each plugin sits in the input: `activated[k]` is the input plugin
      at `positions[k]` and `remaining[j]` the one at `remPos[j]`, the
      inactive plugins keep their input order, and every input position is
      accounted for. */
  ghost predicate Positioned(plugins: seq<Plugin>, activated: seq<Plugin>, remaining: seq<Plugin>,
                             positions: seq<nat>, remPos: seq<nat>)
  {
    && |positions| == |activated| && |remPos| == |remaining|
    && (forall k :: 0 <= k < |positions| ==> positions[k] < |plugins| && activated[k] == plugins[positions[k]])
    && (forall j :: 0 <= j < |remPos| ==> remPos[j] < |plugins| && remaining[j] == plugins[remPos[j]])
    && (forall j1, j2 :: 0 <= j1 < j2 < |remPos| ==> remPos[j1] < remPos[j2])
    && (forall n :: 0 <= n < |plugins| ==> n in positions || n in remPos)
  }

  /** Each plugin was activated by the first worklist field that activates
      it, and activations are ordered by that field's index and, for the same
      field, by input position. */
  ghost predicate InOrder(activated: seq<Plugin>, required: seq<string>, activatedAt: seq<nat>, positions: seq<nat>)
  {
    && |activatedAt| == |activated| && |positions| == |activated|
    && (forall k, i :: 0 <= k < |activated| && 0 <= i < activatedAt[k] && i < |required| ==>
          !Activates(activated[k], required[i]))
    && (forall k, l :: 0 <= k < l < |activated| ==>
          activatedAt[k] < activatedAt[l] || (activatedAt[k] == activatedAt[l] && positions[k] < positions[l]))
  }

  /** During the pass over worklist field `i`, the plugins it has activated
      so far sit in the input before every plugin from `remaining[j]` on. */
  ghost predicate Earlier(activatedAt: seq<nat>, positions: seq<nat>, remPos: seq<nat>, i: nat, j: nat) {
    forall k, jj :: 0 <= k < |activatedAt| && k < |positions| && activatedAt[k] == i && j <= jj < |remPos| ==>
      positions[k] < remPos[jj]
  }

  /** Moving the plugin at `remaining[j]` to the activated ones keeps every
      input position accounted for. */
  lemma PlaceStep(plugins: seq<Plugin>, activated: seq<Plugin>, remaining: seq<Plugin>,
                  positions: seq<nat>, remPos: seq<nat>, j: nat)
    requires Positioned(plugins, activated, remaining, positions, remPos)
    requires j < |remaining|
    ensures Positioned(plugins, activated + [remaining[j]], remaining[..j] + remaining[j + 1..],
                       positions + [remPos[j]], remPos[..j] + remPos[j + 1..])
  {
    var remaining', remPos' := remaining[..j] + remaining[j + 1..], remPos[..j] + remPos[j + 1..];
    forall jj | 0 <= jj < |remPos'|
      ensures remPos'[jj] < |plugins| && remaining'[jj] == plugins[remPos'[jj]]
    {
      var n := if jj < j then jj else jj + 1;
      assert remPos'[jj] == remPos[n] && remaining'[jj] == remaining[n];
    }
    forall j1, j2 | 0 <= j1 < j2 < |remPos'|
      ensures remPos'[j1] < remPos'[j2]
    {
      assert remPos'[j1] == remPos[if j1 < j then j1 else j1 + 1];
      assert remPos'[j2] == remPos[if j2 < j then j2 else j2 + 1];
    }
    forall n | 0 <= n < |plugins| && n !in positions
      ensures n in positions + [remPos[j]] || n in remPos'
    {
      var m :| 0 <= m < |remPos| && remPos[m] == n;
      if m < j {
        assert remPos'[m] == n;
      } else if m > j {
        assert remPos'[m - 1] == n;
      }
    }
  }

  /** Activating `remaining[j]` for worklist field `i` keeps the activation
      order: it is activated by the first field that activates it, and after
      every plugin activated for an earlier field or earlier in the input. */
  lemma OrderStep(plugins: seq<Plugin>, fields: seq<string>, activated: seq<Plugin>, remaining: seq<Plugin>,
                  required: seq<string>, activatedAt: seq<nat>, positions: seq<nat>, remPos: seq<nat>,
                  i: nat, j: nat)
    requires i < |required| && j < |remaining|
    requires Justified(fields, activated, required, activatedAt, i)
    requires Settled(remaining, required, i)
    requires Positioned(plugins, activated, remaining, positions, remPos)
    requires InOrder(activated, required, activatedAt, positions)
    requires Earlier(activatedAt, positions, remPos, i, j)
    ensures InOrder(activated + [remaining[j]], required + remaining[j].needs, activatedAt + [i], positions + [remPos[j]])
    ensures Earlier(activatedAt + [i], positions + [remPos[j]], remPos[..j] + remPos[j + 1..], i, j)
  {
    var activated', required', activatedAt', positions' :=
      activated + [remaining[j]], required + remaining[j].needs, activatedAt + [i], positions + [remPos[j]];
    var remPos' := remPos[..j] + remPos[j + 1..];
    forall k, ii | 0 <= k < |activated'| && 0 <= ii < activatedAt'[k] && ii < |required'|
      ensures !Activates(activated'[k], required'[ii])
    {
      if k < |activated| {
        assert activatedAt'[k] == activatedAt[k] && activated'[k] == activated[k];
        assert required'[ii] == required[ii];
      } else {
        assert remaining[j] in remaining;
        assert required'[ii] == required[ii];
      }
    }
    forall k, l | 0 <= k < l < |activated'|
      ensures activatedAt'[k] < activatedAt'[l] || (activatedAt'[k] == activatedAt'[l] && positions'[k] < positions'[l])
    {
      if l == |activated| {
        assert activatedAt'[k] == activatedAt[k] <= i;
      }
    }
    forall k, jj | 0 <= k < |activatedAt'| && k < |positions'| && activatedAt'[k] == i && j <= jj < |remPos'|
      ensures positions'[k] < remPos'[jj]
    {
      assert remPos'[jj] == remPos[jj + 1];
    }
  }

  /** Taking out the plugin at `j` leaves the plugins before it, which
      `field` does not activate, in place. */
  lemma UntestedStep(remaining: seq<Plugin>, remaining': seq<Plugin>, j: nat, field: string)
    requires j < |remaining| && remaining' == remaining[..j] + remaining[j + 1..]
    requires forall jj :: 0 <= jj < j ==> !Activates(remaining[jj], field)
    ensures forall jj :: 0 <= jj < j ==> !Activates(remaining'[jj], field)
  {
    forall jj | 0 <= jj < j ensures remaining'[jj] == remaining[jj] {
    }
  }

  /** `plugin.targets.forEach(...)`: add each target the plugin does not
      itself require to the ignored set. */
  method MarkIgnored(ignored: set<string>, plugin: Plugin) returns (r: set<string>)
    requires plugin.kind == Inject
    ensures r == ignored + Produced(plugin)
  {
    r := ignored;
    var t := 0;
    while t < |plugin.targets|
      invariant t <= |plugin.targets|
      invariant r == ignored + set x | x in plugin.targets[..t] && x !in plugin.needs
    {
      if plugin.targets[t] !in plugin.needs {
        r := r + {plugin.targets[t]};
      }
      assert plugin.targets[..t + 1] == plugin.targets[..t] + [plugin.targets[t]];
      t := t + 1;
    }
    assert plugin.targets[..t] == plugin.targets;
    assert Produced(plugin) == set x | x in plugin.targets && x !in plugin.needs;
  }

  /** Once no remaining plugin is activated by field `i`, field `i` is settled. */
  lemma SettledNext(remaining: seq<Plugin>, required: seq<string>, i: nat, field: string)
    requires i < |required| && required[i] == field
    requires Settled(remaining, required, i)
    requires forall jj :: 0 <= jj < |remaining| ==> !Activates(remaining[jj], field)
    ensures Settled(remaining, required, i + 1)
  {
    forall k, p | 0 <= k < i + 1 && p in remaining
      ensures !Activates(p, required[k])
    {
      if k == i {
        var jj :| 0 <= jj < |remaining| && remaining[jj] == p;
      }
    }
  }

  /** Everything the worklist loop keeps: the state after the first `i`
      worklist fields have been tested against every inactive plugin. */
  ghost predicate Loop(plugins: seq<Plugin>, fields: seq<string>, i: nat,
                       filterPs: seq<Plugin>, injectPs: seq<Plugin>, sortPs: seq<Plugin>,
                       remaining: seq<Plugin>, required: seq<string>, ignored: set<string>,
                       activated: seq<Plugin>, activatedAt: seq<nat>)
  {
    && i <= |required|
    && Progress(plugins, fields, activated, remaining, required, activatedAt, i)
    && Settled(remaining, required, i)
    && filterPs == OfKind(activated, Filter)
    && injectPs == OfKind(activated, Inject)
    && sortPs == OfKind(activated, Sort)
    && ignored == Ignored(activated)
  }

  /** Activate `remaining[j]` because of worklist field `i`: append its
      requires to the worklist, take it out of the inactive plugins, file it
      under its kind and, for INJECT, mark the fields it manufactures. */
  method Activate(ghost plugins: seq<Plugin>, ghost fields: seq<string>, i: nat, j: nat,
                  filterPs: seq<Plugin>, injectPs: seq<Plugin>, sortPs: seq<Plugin>,
                  remaining: seq<Plugin>, required: seq<string>, ignored: set<string>,
                  ghost activated: seq<Plugin>, ghost activatedAt: seq<nat>,
                  ghost positions: seq<nat>, ghost remPos: seq<nat>)
    returns (filterPs': seq<Plugin>, injectPs': seq<Plugin>, sortPs': seq<Plugin>,
             remaining': seq<Plugin>, required': seq<string>, ignored': set<string>,
             ghost activated': seq<Plugin>, ghost activatedAt': seq<nat>,
             ghost positions': seq<nat>, ghost remPos': seq<nat>)
    requires i < |required| && j < |remaining|
    requires Activates(remaining[j], required[i])
    requires Loop(plugins, fields, i, filterPs, injectPs, sortPs, remaining, required, ignored, activated, activatedAt)
    requires Positioned(plugins, activated, remaining, positions, remPos)
    requires InOrder(activated, required, activatedAt, positions)
    requires Earlier(activatedAt, positions, remPos, i, j)
    requires forall jj :: 0 <= jj < j ==> !Activates(remaining[jj], required[i])
    ensures required' == required + remaining[j].needs
    ensures remaining' == remaining[..j] + remaining[j + 1..]
    ensures activated' == activated + [remaining[j]]
    ensures Loop(plugins, fields, i, filterPs', injectPs', sortPs', remaining', required', ignored', activated', activatedAt')
    ensures Positioned(plugins, activated', remaining', positions', remPos')
    ensures InOrder(activated', required', activatedAt', positions')
    ensures Earlier(activatedAt', positions', remPos', i, j)
    ensures forall jj :: 0 <= jj < j ==> !Activates(remaining'[jj], required[i])
  {
    var plugin := remaining[j];
    AccountStep(plugins, fields, activated, remaining, required, j);
    JustifyStep(fields, activated, remaining, required, activatedAt, i, j);
    SettledStep(remaining, required, plugin.needs, i, j);
    PlaceStep(plugins, activated, remaining, positions, remPos, j);
    OrderStep(plugins, fields, activated, remaining, required, activatedAt, positions, remPos, i, j);
    SnocActivated(activated, plugin);
    required' := required + plugin.needs;
    remaining' := remaining[..j] + remaining[j + 1..];
    activated' := activated + [plugin];
    activatedAt' := activatedAt + [i];
    positions', remPos' := positions + [remPos[j]], remPos[..j] + remPos[j + 1..];
    UntestedStep(remaining, remaining', j, required[i]);
    filterPs', injectPs', sortPs', ignored' := filterPs, injectPs, sortPs, ignored;
    // `pluginsByType[plugin.type].push(plugin)`, and for INJECT the
    // `targets` it manufactures are marked as ignored
    match plugin.kind {
      case Filter =>
        filterPs' := filterPs + [plugin];
        assert Produced(plugin) == {};
      case Inject =>
        injectPs' := injectPs + [plugin];
        ignored' := MarkIgnored(ignored, plugin);
      case Sort =>
        sortPs' := sortPs + [plugin];
        assert Produced(plugin) == {};
    }
  }

  /** The inner loop of `compileMeta` for worklist field `i`: test every
      still-inactive plugin in order, and activate those the field activates. */
  method ActivateForField(ghost plugins: seq<Plugin>, ghost fields: seq<string>, i: nat,
                          filterPs: seq<Plugin>, injectPs: seq<Plugin>, sortPs: seq<Plugin>,
                          remaining: seq<Plugin>, required: seq<string>, ignored: set<string>,
                          ghost activated: seq<Plugin>, ghost activatedAt: seq<nat>,
                          ghost positions: seq<nat>, ghost remPos: seq<nat>)
    returns (filterPs': seq<Plugin>, injectPs': seq<Plugin>, sortPs': seq<Plugin>,
             remaining': seq<Plugin>, required': seq<string>, ignored': set<string>,
             ghost activated': seq<Plugin>, ghost activatedAt': seq<nat>,
             ghost positions': seq<nat>, ghost remPos': seq<nat>)
    requires i < |required|
    requires Loop(plugins, fields, i, filterPs, injectPs, sortPs, remaining, required, ignored, activated, activatedAt)
    requires Positioned(plugins, activated, remaining, positions, remPos)
    requires InOrder(activated, required, activatedAt, positions)
    requires forall k :: 0 <= k < |activatedAt| ==> activatedAt[k] < i
    ensures i < |required'|
    ensures Loop(plugins, fields, i + 1, filterPs', injectPs', sortPs', remaining', required', ignored', activated', activatedAt')
    ensures Positioned(plugins, activated', remaining', positions', remPos')
    ensures InOrder(activated', required', activatedAt', positions')
    ensures forall k :: 0 <= k < |activatedAt'| ==> activatedAt'[k] <= i
  {
    filterPs', injectPs', sortPs', remaining', required', ignored' := filterPs, injectPs, sortPs, remaining, required, ignored;
    activated', activatedAt', positions', remPos' := activated, activatedAt, positions, remPos;
    var field := required[i];
    var j := 0;
    while j < |remaining'|
      invariant j <= |remaining'|
      invariant i < |required'| && required'[i] == field
      invariant Loop(plugins, fields, i, filterPs', injectPs', sortPs', remaining', required', ignored', activated', activatedAt')
      invariant Positioned(plugins, activated', remaining', positions', remPos')
      invariant InOrder(activated', required', activatedAt', positions')
      invariant Earlier(activatedAt', positions', remPos', i, j)
      invariant forall jj :: 0 <= jj < j ==> !Activates(remaining'[jj], field)
      decreases |remaining'| - j
    {
      var plugin := remaining'[j];
      if Activates(plugin, field) {
        // `inactivePlugins.splice(j, 1); j -= 1`, then the loop's `j += 1`:
        // the next plugin to test now sits at index j
        filterPs', injectPs', sortPs', remaining', required', ignored', activated', activatedAt', positions', remPos' :=
          Activate(plugins, fields, i, j, filterPs', injectPs', sortPs', remaining', required', ignored',
                   activated', activatedAt', positions', remPos');
      } else {
        j := j + 1;
      }
    }
    LoopNext(plugins, fields, i, field, filterPs', injectPs', sortPs', remaining', required', ignored',
             activated', activatedAt');
  }

  /** Once no remaining plugin activates for the field at index `i`, the loop
      state holds for index `i + 1`. */
  lemma LoopNext(plugins: seq<Plugin>, fields: seq<string>, i: nat, field: string,
                 filterPs: seq<Plugin>, injectPs: seq<Plugin>, sortPs: seq<Plugin>,
                 remaining: seq<Plugin>, required: seq<string>, ignored: set<string>,
                 activated: seq<Plugin>, activatedAt: seq<nat>)
    requires i < |required| && required[i] == field
    requires Loop(plugins, fields, i, filterPs, injectPs, sortPs, remaining, required, ignored, activated, activatedAt)
    requires forall jj :: 0 <= jj < |remaining| ==> !Activates(remaining[jj], field)
    ensures Loop(plugins, fields, i + 1, filterPs, injectPs, sortPs, remaining, required, ignored, activated, activatedAt)
  {
    SettledNext(remaining, required, i, field);
  }

  /** What filing the activated plugins by kind gives `pluginsByType`. */
  lemma Filing(activated: seq<Plugin>)
    ensures multiset(OfKind(activated, Filter)) + multiset(OfKind(activated, Inject))
            + multiset(OfKind(activated, Sort)) == multiset(activated)
    ensures forall p :: p in OfKind(activated, Filter) <==> p in activated && p.kind == Filter
    ensures forall p :: p in OfKind(activated, Inject) <==> p in activated && p.kind == Inject
    ensures forall p :: p in OfKind(activated, Sort) <==> p in activated && p.kind == Sort
  {
    OfKindPartition(activated);
    forall p ensures p in OfKind(activated, Filter) <==> p in activated && p.kind == Filter {
      OfKindMembers(activated, Filter, p);
    }
    forall p ensures p in OfKind(activated, Inject) <==> p in activated && p.kind == Inject {
      OfKindMembers(activated, Inject, p);
    }
    forall p ensures p in OfKind(activated, Sort) <==> p in activated && p.kind == Sort {
      OfKindMembers(activated, Sort, p);
    }
  }

  /** Every plugin `compileMeta` activated, filed under its kind. */
  function Filed(meta: Meta): seq<Plugin> {
    meta.filterPlugins + meta.injectPlugins + meta.sortPlugins
  }

  /** A field that some activated INJECT plugin manufactures. */
  ghost predicate Manufactured(meta: Meta, f: string) {
    exists q :: q in meta.injectPlugins && f in Produced(q)
  }

  /** Filed INJECT plugins manufacture exactly the ignored fields. */
  lemma ManufacturedIsIgnored(meta: Meta, activated: seq<Plugin>, f: string)
    requires forall p :: p in meta.injectPlugins <==> p in activated && p.kind == Inject
    ensures Manufactured(meta, f) <==> f in Ignored(activated)
  {
    IgnoredExactly(activated, f);
    if f in Ignored(activated) {
      var k :| 0 <= k < |activated| && activated[k].kind == Inject && f in activated[k].targets && f !in activated[k].needs;
      assert activated[k] in meta.injectPlugins && f in Produced(activated[k]);
    }
    if Manufactured(meta, f) {
      var q :| q in meta.injectPlugins && f in Produced(q);
      var k :| 0 <= k < |activated| && activated[k] == q;
    }
  }

  /** A field the closure must cover: requested, or required by an
      activated plugin. */
  ghost predicate Required(meta: Meta, fields: seq<string>, f: string) {
    f in fields || exists p :: p in Filed(meta) && f in p.needs
  }

  /** The worklist holds exactly the requested and the required fields. */
  lemma RequiredIsOnWorklist(meta: Meta, fields: seq<string>, required: seq<string>, activated: seq<Plugin>, f: string)
    requires required == fields + ConcatRequires(activated)
    requires forall p :: p in Filed(meta) <==> p in activated
    ensures Required(meta, fields, f) <==> f in required
  {
    ConcatRequiresExactly(activated, f);
  }

  /** The filed plugins are the activated ones, which come from the input. */
  lemma FiledFromInput(plugins: seq<Plugin>, meta: Meta, activated: seq<Plugin>, inactive: seq<Plugin>)
    requires multiset(meta.filterPlugins) + multiset(meta.injectPlugins) + multiset(meta.sortPlugins)
             + multiset(inactive) == multiset(plugins)
    requires forall p :: p in meta.filterPlugins <==> p in activated && p.kind == Filter
    requires forall p :: p in meta.injectPlugins <==> p in activated && p.kind == Inject
    requires forall p :: p in meta.sortPlugins <==> p in activated && p.kind == Sort
    ensures multiset(Filed(meta)) + multiset(inactive) == multiset(plugins)
    ensures forall p :: p in Filed(meta) <==> p in activated
    ensures forall p :: p in Filed(meta) ==> p in plugins
  {
    forall p | p in Filed(meta) ensures p in plugins {
      assert multiset(plugins)[p] == multiset(Filed(meta))[p] + multiset(inactive)[p];
    }
  }

  /** What is fetched: every required field unless it is manufactured, and
      nothing else. */
  lemma FetchFacts(fields: seq<string>, meta: Meta, required: seq<string>, activated: seq<Plugin>)
    requires required == fields + ConcatRequires(activated)
    requires forall p :: p in Filed(meta) <==> p in activated
    requires forall p :: p in meta.injectPlugins <==> p in activated && p.kind == Inject
    requires meta.fieldsToRequest == FieldsToRequest(required, Ignored(activated))
    ensures forall f :: Required(meta, fields, f) ==> f in meta.fieldsToRequest || Manufactured(meta, f)
    ensures forall f :: f in meta.fieldsToRequest ==> !Manufactured(meta, f) && Required(meta, fields, f)
  {
    forall f ensures (Manufactured(meta, f) <==> f in Ignored(activated)) && (Required(meta, fields, f) <==> f in required) {
      ManufacturedIsIgnored(meta, activated, f);
      RequiredIsOnWorklist(meta, fields, required, activated, f);
    }
  }

  /** No plugin left out activates for a required field. */
  lemma LeftOutFacts(plugins: seq<Plugin>, fields: seq<string>, meta: Meta, required: seq<string>,
                     activated: seq<Plugin>, inactive: seq<Plugin>)
    requires required == fields + ConcatRequires(activated)
    requires multiset(activated) + multiset(inactive) == multiset(plugins)
    requires forall p :: p in Filed(meta) <==> p in activated
    requires forall k, p :: 0 <= k < |required| && p in inactive ==> !Activates(p, required[k])
    requires multiset(Filed(meta)) == multiset(activated)
    ensures forall p, f :: multiset(Filed(meta))[p] < multiset(plugins)[p] && Required(meta, fields, f) ==> !Activates(p, f)
  {
    forall p, f | multiset(Filed(meta))[p] < multiset(plugins)[p] && Required(meta, fields, f)
      ensures !Activates(p, f)
    {
      RequiredIsOnWorklist(meta, fields, required, activated, f);
      assert multiset(inactive)[p] > 0;
      assert p in inactive;
      var k :| 0 <= k < |required| && required[k] == f;
    }
  }

  /** The outer loop of `compileMeta`: walk the growing worklist, testing
      every inactive plugin against each field in turn. On exit every
      worklist field has been tested. */
  method Worklist(plugins: seq<Plugin>, fields: seq<string>)
    returns (filterPs: seq<Plugin>, injectPs: seq<Plugin>, sortPs: seq<Plugin>,
             remaining: seq<Plugin>, required: seq<string>, ignored: set<string>,
             ghost activated: seq<Plugin>, ghost activatedAt: seq<nat>,
             ghost positions: seq<nat>, ghost remPos: seq<nat>)
    ensures Loop(plugins, fields, |required|, filterPs, injectPs, sortPs, remaining, required, ignored, activated, activatedAt)
    ensures Positioned(plugins, activated, remaining, positions, remPos)
    ensures InOrder(activated, required, activatedAt, positions)
  {
    filterPs, injectPs, sortPs := [], [], [];
    remaining := plugins;
    required := fields;
    ignored := {};
    activated, activatedAt, positions := [], [], [];
    remPos := seq(|plugins|, (n: nat) => n);
    forall n | 0 <= n < |plugins| ensures n in remPos {
      assert remPos[n] == n;
    }
    var i := 0;
    while i < |required|
      invariant Loop(plugins, fields, i, filterPs, injectPs, sortPs, remaining, required, ignored, activated, activatedAt)
      invariant Positioned(plugins, activated, remaining, positions, remPos)
      invariant InOrder(activated, required, activatedAt, positions)
      invariant forall k :: 0 <= k < |activatedAt| ==> activatedAt[k] < i
      decreases |fields| + SumRequires(plugins) - i
    {
      filterPs, injectPs, sortPs, remaining, required, ignored, activated, activatedAt, positions, remPos :=
        ActivateForField(plugins, fields, i, filterPs, injectPs, sortPs, remaining, required, ignored,
                         activated, activatedAt, positions, remPos);
      i := i + 1;
    }
  }

  /** The closure itself: the source's loop, then the result built from the
      per-kind lists and the worklist. Besides the result, the ghost outputs
      expose the final worklist `requiredFields`, the activated plugins in
      activation order, the plugins left inactive, and for each activated
      plugin the worklist index of the field that activated it and its
      position in the input. */
  method ResolveClosure(plugins: seq<Plugin>, fields: seq<string>)
    returns (meta: Meta, ghost requiredFields: seq<string>, ghost activated: seq<Plugin>,
             ghost inactive: seq<Plugin>, ghost activatedAt: seq<nat>, ghost positions: seq<nat>)
    // the requested fields are a prefix, and the worklist grows only by the
    // requires of activated plugins, in activation order
    ensures requiredFields == fields + ConcatRequires(activated)
    ensures |requiredFields| <= |fields| + SumRequires(plugins)
    // inactive and activated plugins partition the input
    ensures multiset(activated) + multiset(inactive) == multiset(plugins)
    // each activated plugin is filed under its own kind, and nothing else is filed
    ensures multiset(meta.filterPlugins) + multiset(meta.injectPlugins) + multiset(meta.sortPlugins)
            + multiset(inactive) == multiset(plugins)
    ensures forall p :: p in meta.filterPlugins <==> p in activated && p.kind == Filter
    ensures forall p :: p in meta.injectPlugins <==> p in activated && p.kind == Inject
    ensures forall p :: p in meta.sortPlugins <==> p in activated && p.kind == Sort
    ensures NoDuplicates(plugins) ==> NoDuplicates(activated)
    ensures meta.filterPlugins == OfKind(activated, Filter)
    ensures meta.injectPlugins == OfKind(activated, Inject)
    ensures meta.sortPlugins == OfKind(activated, Sort)
    // every activation is justified by a field already on the worklist
    // before that plugin's own requires were appended
    ensures |activatedAt| == |activated|
    ensures forall k :: 0 <= k < |activated| ==>
      && activatedAt[k] < |fields| + |ConcatRequires(activated[..k])|
      && activatedAt[k] < |requiredFields|
      && Activates(activated[k], requiredFields[activatedAt[k]])
    // fixed point: no plugin left inactive is activated by any required field
    ensures forall k, p :: 0 <= k < |requiredFields| && p in inactive ==> !Activates(p, requiredFields[k])
    // closure: the requires of every activated plugin are on the worklist
    ensures forall p, f :: p in activated && f in p.needs ==> f in requiredFields
    ensures meta.fieldsToRequest == FieldsToRequest(requiredFields, Ignored(activated))
    // the activation order: by the first worklist field that activates a
    // plugin, then by input position
    ensures Schedule(plugins, fields, activated, activatedAt, positions)
  {
    var filterPs, injectPs, sortPs, remaining, required, ignored;
    ghost var remPos;
    filterPs, injectPs, sortPs, remaining, required, ignored, activated, activatedAt, positions, remPos :=
      Worklist(plugins, fields);
    requiredFields, inactive := required, remaining;
    Filing(activated);
    if NoDuplicates(plugins) {
      SubMultisetNoDuplicates(activated, plugins);
    }
    forall p, f | p in activated && f in p.needs
      ensures f in requiredFields
    {
      ConcatRequiresExactly(activated, f);
    }
    LoopSchedule(plugins, fields, activated, remaining, required, activatedAt, positions, remPos);
    meta := Meta(filterPs, injectPs, sortPs, FieldsToRequest(required, ignored));
  }

  /** The order in which `compileMeta`'s loop activates plugins, over the
      input alone. `order[k]` is the input plugin at `pos[k]`, and `at[k]` is
      the index, on the worklist `fields + ConcatRequires(order)`, of the
      first field that activates it; that field was on the worklist before
      `order[k]`'s own requires were appended. Activations are ordered by
      that index and then by input position, and an input plugin that is not
      activated activates for no worklist field. */
  ghost predicate Schedule(plugins: seq<Plugin>, fields: seq<string>, order: seq<Plugin>, at: seq<nat>, pos: seq<nat>) {
    var worklist := fields + ConcatRequires(order);
    && |at| == |order| && |pos| == |order|
    && (forall k :: 0 <= k < |order| ==> pos[k] < |plugins| && order[k] == plugins[pos[k]])
    && (forall k {:trigger at[k]} :: 0 <= k < |order| ==>
          && at[k] < |fields| + |ConcatRequires(order[..k])|
          && at[k] < |worklist|
          && Activates(order[k], worklist[at[k]]))
    && (forall k, i {:trigger Activates(order[k], worklist[i])} :: 0 <= k < |order| && 0 <= i < at[k] && i < |worklist| ==>
          !Activates(order[k], worklist[i]))
    && (forall k, l :: 0 <= k < l < |order| ==> at[k] < at[l] || (at[k] == at[l] && pos[k] < pos[l]))
    && (forall n, i {:trigger Activates(plugins[n], worklist[i])} :: 0 <= n < |plugins| && n !in pos && 0 <= i < |worklist| ==>
          !Activates(plugins[n], worklist[i]))
  }

  /** The final state of the loop is a schedule. */
  lemma LoopSchedule(plugins: seq<Plugin>, fields: seq<string>, activated: seq<Plugin>, remaining: seq<Plugin>,
                     required: seq<string>, activatedAt: seq<nat>, positions: seq<nat>, remPos: seq<nat>)
    requires required == fields + ConcatRequires(activated)
    requires Justified(fields, activated, required, activatedAt, |required|)
    requires Settled(remaining, required, |required|)
    requires Positioned(plugins, activated, remaining, positions, remPos)
    requires InOrder(activated, required, activatedAt, positions)
    ensures Schedule(plugins, fields, activated, activatedAt, positions)
  {
    forall n, ii | 0 <= n < |plugins| && n !in positions && 0 <= ii < |required|
      ensures !Activates(plugins[n], required[ii])
    {
      var j :| 0 <= j < |remPos| && remPos[j] == n;
      assert remaining[j] in remaining;
    }
  }

  /** `order` could have been activated one plugin after another: each
      plugin activates for a field that was requested or required by a plugin
      activated before it. */
  ghost predicate ActivatedInOrder(fields: seq<string>, order: seq<Plugin>) {
    forall k :: 0 <= k < |order| ==> CausedBy(fields, order, k)
  }

  /** The plugin `order[k]` activates for a field that was requested or
      required by the plugins before it. */
  ghost predicate CausedBy(fields: seq<string>, order: seq<Plugin>, k: nat)
    requires k < |order|
  {
    exists f :: f in fields + ConcatRequires(order[..k]) && Activates(order[k], f)
  }

  /** What the requires of the first `k` activations appended is a prefix of
      what all of them appended. */
  lemma {:induction false} ConcatRequiresPrefix(ps: seq<Plugin>, k: nat)
    requires k <= |ps|
    ensures ConcatRequires(ps[..k]) <= ConcatRequires(ps)
  {
    if k < |ps| {
      var init := ps[..|ps| - 1];
      assert ps[..k] == init[..k];
      ConcatRequiresPrefix(init, k);
    } else {
      assert ps[..k] == ps;
    }
  }

  /** In a schedule each plugin activates for a field requested or required
      by the plugins activated before it. */
  lemma Minimality(plugins: seq<Plugin>, fields: seq<string>, order: seq<Plugin>, at: seq<nat>, pos: seq<nat>)
    requires Schedule(plugins, fields, order, at, pos)
    ensures ActivatedInOrder(fields, order)
  {
    var worklist := fields + ConcatRequires(order);
    forall k | 0 <= k < |order|
      ensures CausedBy(fields, order, k)
    {
      ConcatRequiresPrefix(order, k);
      var before := fields + ConcatRequires(order[..k]);
      var a := at[k];
      if a < |fields| {
        assert before[a] == fields[a] == worklist[a];
      } else {
        assert before[a] == ConcatRequires(order[..k])[a - |fields|];
        assert worklist[a] == ConcatRequires(order)[a - |fields|];
      }
      assert before[a] in before;
    }
  }

  /** The order of schedules: by first activating index, then by input position. */
  predicate LexLe(a: nat, p: nat, b: nat, q: nat) {
    a < b || (a == b && p <= q)
  }

  /** Activations ordered both ways round are at the same index and position. */
  lemma LexAntisymmetric(a: nat, p: nat, b: nat, q: nat)
    requires LexLe(a, p, b, q) && LexLe(b, q, a, p)
    ensures a == b && p == q
  {
  }

  /** Two runs of activations that agree on their first `k` plugins give
      worklists that agree up to where those `k` plugins' requires end. */
  lemma SharedWorklist(fields: seq<string>, o1: seq<Plugin>, o2: seq<Plugin>, k: nat)
    requires k <= |o1| && k <= |o2| && o1[..k] == o2[..k]
    ensures forall i :: 0 <= i < |fields| + |ConcatRequires(o1[..k])| ==>
      i < |fields + ConcatRequires(o1)| && i < |fields + ConcatRequires(o2)| &&
      (fields + ConcatRequires(o1))[i] == (fields + ConcatRequires(o2))[i]
  {
    ConcatRequiresPrefix(o1, k);
    ConcatRequiresPrefix(o2, k);
    var prefix := fields + ConcatRequires(o1[..k]);
    assert forall i :: 0 <= i < |prefix| ==>
      (fields + ConcatRequires(o1))[i] == prefix[i] && (fields + ConcatRequires(o2))[i] == prefix[i];
  }

  /** In a schedule, a plugin is activated no later than any worklist field
      that activates it. */
  lemma FirstCauseBound(plugins: seq<Plugin>, fields: seq<string>, o: seq<Plugin>, a: seq<nat>, p: seq<nat>,
                        m: nat, i: nat)
    requires Schedule(plugins, fields, o, a, p)
    requires m < |o| && i < |fields + ConcatRequires(o)|
    requires Activates(o[m], (fields + ConcatRequires(o))[i])
    ensures a[m] <= i
  {
  }

  /** In a schedule, an input plugin that activates for a worklist field is
      activated, and no input position is activated twice. */
  lemma ScheduledAt(plugins: seq<Plugin>, fields: seq<string>, o: seq<Plugin>, a: seq<nat>, p: seq<nat>,
                    n: nat, i: nat) returns (m: nat)
    requires Schedule(plugins, fields, o, a, p)
    requires n < |plugins| && i < |fields + ConcatRequires(o)|
    requires Activates(plugins[n], (fields + ConcatRequires(o))[i])
    ensures m < |o| && p[m] == n && a[m] <= i
    ensures forall l :: 0 <= l < |o| && p[l] == n ==> l == m
  {
    m :| 0 <= m < |p| && p[m] == n;
    var w := fields + ConcatRequires(o);
    forall l | 0 <= l < |o| && p[l] == n
      ensures l == m
    {
      assert o[l] == o[m];
      // each of the two is activated no later than the other's field
      assert Activates(o[l], w[a[m]]) && Activates(o[m], w[a[l]]);
    }
  }

  /** Two schedules that agree on their first `k` activations: the second
      one has a `k`-th activation too, and it comes no later than the first
      one's. */
  lemma ScheduleNotLater(plugins: seq<Plugin>, fields: seq<string>,
                         o1: seq<Plugin>, a1: seq<nat>, p1: seq<nat>,
                         o2: seq<Plugin>, a2: seq<nat>, p2: seq<nat>, k: nat)
    requires Schedule(plugins, fields, o1, a1, p1) && Schedule(plugins, fields, o2, a2, p2)
    requires k < |o1| && k <= |o2|
    requires o1[..k] == o2[..k] && a1[..k] == a2[..k] && p1[..k] == p2[..k]
    ensures k < |o2| && LexLe(a2[k], p2[k], a1[k], p1[k])
  {
    var w1, w2 := fields + ConcatRequires(o1), fields + ConcatRequires(o2);
    var n, a := p1[k], a1[k];
    assert o1[k] == plugins[n];
    assert a < |fields| + |ConcatRequires(o1[..k])| && Activates(o1[k], w1[a]);
    // the field that activated o1[k] is on both worklists
    SharedWorklist(fields, o1, o2, k);
    assert w2[a] == w1[a];
    var m := ScheduledAt(plugins, fields, o2, a2, p2, n, a);
    // o1[k] is the only activation of input position n in o1, so the
    // activation of n in o2 is not among the shared first k
    var m1 := ScheduledAt(plugins, fields, o1, a1, p1, n, a);
    PrefixAgrees(p1, p2, k);
    assert k <= m;
    // o1[k] activates for the field at a2[m] too, which is no later than a
    assert o2[m] == o1[k] && Activates(o2[m], w2[a2[m]]);
    assert w1[a2[m]] == w2[a2[m]];
    FirstCauseBound(plugins, fields, o1, a1, p1, k, a2[m]);
    if k < m {
      assert LexLe(a2[k], p2[k], a2[m], p2[m]);
    }
  }

  /** Two schedules that agree on their first `k` activations, with `k`
      short of the first one's length, agree on their first `k + 1`. */
  lemma ScheduleStep(plugins: seq<Plugin>, fields: seq<string>,
                     o1: seq<Plugin>, a1: seq<nat>, p1: seq<nat>,
                     o2: seq<Plugin>, a2: seq<nat>, p2: seq<nat>, k: nat)
    requires Schedule(plugins, fields, o1, a1, p1) && Schedule(plugins, fields, o2, a2, p2)
    requires k < |o1| && k <= |o2|
    requires o1[..k] == o2[..k] && a1[..k] == a2[..k] && p1[..k] == p2[..k]
    ensures k < |o2| && o1[..k + 1] == o2[..k + 1] && a1[..k + 1] == a2[..k + 1] && p1[..k + 1] == p2[..k + 1]
  {
    ScheduleNotLater(plugins, fields, o1, a1, p1, o2, a2, p2, k);
    ScheduleNotLater(plugins, fields, o2, a2, p2, o1, a1, p1, k);
    LexAntisymmetric(a1[k], p1[k], a2[k], p2[k]);
    assert o1[k] == plugins[p1[k]] == o2[k];
    PrefixExtends(o1, o2, k);
    PrefixExtends(a1, a2, k);
    PrefixExtends(p1, p2, k);
  }

  /** Schedules that agree on their first `k` activations agree completely. */
  lemma {:induction false} ScheduleAgrees(plugins: seq<Plugin>, fields: seq<string>,
                                          o1: seq<Plugin>, a1: seq<nat>, p1: seq<nat>,
                                          o2: seq<Plugin>, a2: seq<nat>, p2: seq<nat>, k: nat)
    requires Schedule(plugins, fields, o1, a1, p1) && Schedule(plugins, fields, o2, a2, p2)
    requires k <= |o1| && k <= |o2|
    requires o1[..k] == o2[..k] && a1[..k] == a2[..k] && p1[..k] == p2[..k]
    ensures o1 == o2 && a1 == a2 && p1 == p2
    decreases |o1| - k
  {
    if k < |o1| {
      ScheduleStep(plugins, fields, o1, a1, p1, o2, a2, p2, k);
      ScheduleAgrees(plugins, fields, o1, a1, p1, o2, a2, p2, k + 1);
    } else if k < |o2| {
      ScheduleNotLater(plugins, fields, o2, a2, p2, o1, a1, p1, k);
    } else {
      assert o1 == o1[..k] && o2 == o2[..k];
      assert a1 == a1[..k] && a2 == a2[..k];
      assert p1 == p1[..k] && p2 == p2[..k];
    }
  }

  /** The plugins, the request and the activation rule fix the schedule. */
  lemma ScheduleUnique(plugins: seq<Plugin>, fields: seq<string>,
                       o1: seq<Plugin>, a1: seq<nat>, p1: seq<nat>,
                       o2: seq<Plugin>, a2: seq<nat>, p2: seq<nat>)
    requires Schedule(plugins, fields, o1, a1, p1) && Schedule(plugins, fields, o2, a2, p2)
    ensures o1 == o2 && a1 == a2 && p1 == p2
  {
    ScheduleAgrees(plugins, fields, o1, a1, p1, o2, a2, p2, 0);
  }

  /** At most one `Meta` is compiled from given plugins and request, so
      `Compiled` fixes `compileMeta`'s result: its per-kind lists, their
      order, and `fieldsToRequest` with its order. */
  lemma CompiledUnique(plugins: seq<Plugin>, fields: seq<string>, m1: Meta, m2: Meta)
    requires Compiled(plugins, fields, m1) && Compiled(plugins, fields, m2)
    ensures m1 == m2
  {
    var o1, a1, p1 :| Schedule(plugins, fields, o1, a1, p1) && FiledInOrder(m1, fields, o1);
    var o2, a2, p2 :| Schedule(plugins, fields, o2, a2, p2) && FiledInOrder(m2, fields, o2);
    FiledUnique(plugins, fields, m1, m2, o1, a1, p1, o2, a2, p2);
  }

  /** Metas filed in the order of schedules of the same input are equal. */
  lemma FiledUnique(plugins: seq<Plugin>, fields: seq<string>, m1: Meta, m2: Meta,
                    o1: seq<Plugin>, a1: seq<nat>, p1: seq<nat>,
                    o2: seq<Plugin>, a2: seq<nat>, p2: seq<nat>)
    requires Schedule(plugins, fields, o1, a1, p1) && FiledInOrder(m1, fields, o1)
    requires Schedule(plugins, fields, o2, a2, p2) && FiledInOrder(m2, fields, o2)
    ensures m1 == m2
  {
    ScheduleUnique(plugins, fields, o1, a1, p1, o2, a2, p2);
  }

  /** `meta` files the plugins of `order` under their kinds, in that order,
      and fetches the deduplicated worklist of `order` without the fields
      its INJECT plugins manufacture. */
  ghost predicate FiledInOrder(meta: Meta, fields: seq<string>, order: seq<Plugin>) {
    && meta.filterPlugins == OfKind(order, Filter)
    && meta.injectPlugins == OfKind(order, Inject)
    && meta.sortPlugins == OfKind(order, Sort)
    && meta.fieldsToRequest == FieldsToRequest(fields + ConcatRequires(order), Ignored(order))
  }

  /** What `init` relies on about the result of `compileMeta(plugins, fields)`:
      - the filed plugins come from the input, each under its own kind;
      - they are the plugins of a schedule, filed in its order, and
        `fieldsToRequest` is computed from that schedule's worklist;
      - no copy of a plugin left out activates for a requested or required field;
      - `fieldsToRequest` has no duplicates, and holds exactly the requested
        or required fields that no filed INJECT plugin manufactures. */
  ghost predicate Compiled(plugins: seq<Plugin>, fields: seq<string>, meta: Meta) {
    && (forall p :: p in meta.filterPlugins ==> p in plugins && p.kind == Filter)
    && (forall p :: p in meta.injectPlugins ==> p in plugins && p.kind == Inject)
    && (forall p :: p in meta.sortPlugins ==> p in plugins && p.kind == Sort)
    && multiset(Filed(meta)) <= multiset(plugins)
    && (exists order, at, pos :: Schedule(plugins, fields, order, at, pos) && FiledInOrder(meta, fields, order))
    && (forall p, f :: multiset(Filed(meta))[p] < multiset(plugins)[p] && Required(meta, fields, f) ==> !Activates(p, f))
    && NoDuplicates(meta.fieldsToRequest)
    && (forall f :: Required(meta, fields, f) ==> f in meta.fieldsToRequest || Manufactured(meta, f))
    && (forall f :: f in meta.fieldsToRequest ==> !Manufactured(meta, f) && Required(meta, fields, f))
  }

  /** The loop's results, as `ResolveClosure` describes them, make its `Meta`
      a compiled one. */
  lemma ClosureIsCompiled(plugins: seq<Plugin>, fields: seq<string>, meta: Meta, required: seq<string>,
                          activated: seq<Plugin>, inactive: seq<Plugin>, activatedAt: seq<nat>, positions: seq<nat>)
    requires required == fields + ConcatRequires(activated)
    requires multiset(activated) + multiset(inactive) == multiset(plugins)
    requires multiset(meta.filterPlugins) + multiset(meta.injectPlugins) + multiset(meta.sortPlugins)
             + multiset(inactive) == multiset(plugins)
    requires forall p :: p in meta.filterPlugins <==> p in activated && p.kind == Filter
    requires forall p :: p in meta.injectPlugins <==> p in activated && p.kind == Inject
    requires forall p :: p in meta.sortPlugins <==> p in activated && p.kind == Sort
    requires forall k, p :: 0 <= k < |required| && p in inactive ==> !Activates(p, required[k])
    requires meta.filterPlugins == OfKind(activated, Filter)
    requires meta.injectPlugins == OfKind(activated, Inject)
    requires meta.sortPlugins == OfKind(activated, Sort)
    requires meta.fieldsToRequest == FieldsToRequest(required, Ignored(activated))
    requires Schedule(plugins, fields, activated, activatedAt, positions)
    ensures Compiled(plugins, fields, meta)
  {
    FiledFromInput(plugins, meta, activated, inactive);
    FetchFacts(fields, meta, required, activated);
    assert multiset(activated) == multiset(Filed(meta));
    LeftOutFacts(plugins, fields, meta, required, activated, inactive);
    assert FiledInOrder(meta, fields, activated);
  }

  /** `compileMeta(plugins, fields)`, described by its result alone. */
  method CompileMeta(plugins: seq<Plugin>, fields: seq<string>) returns (meta: Meta)
    ensures Compiled(plugins, fields, meta)
  {
    ghost var required, activated, inactive, activatedAt, positions;
    meta, required, activated, inactive, activatedAt, positions := ResolveClosure(plugins, fields);
    ClosureIsCompiled(plugins, fields, meta, required, activated, inactive, activatedAt, positions);
  }
}
