/** Instantiated plugins and the rule that decides whether a requested
    field activates one (src/module/rewriter.js:22-27). */
module Plugins {

  /** The three behaviour categories; `pluginsByType` has one list for each. */
  datatype PluginType = Filter | Inject | Sort

  /** What a SORT plugin's `limit` callback returns: `undefined`, an integer,
      or anything else (a fraction, NaN, null, a string, ...). */
  datatype LimitResult = Undefined | Int(n: int) | NonInteger

  /** One instantiated plugin. `targetRel` is the empty string when the
      plugin does not set it; only the comparison with "*" matters.
      `limit` is None when the plugin has no `limit` callback and otherwise
      holds what that callback returns for the current context. */
  datatype Plugin = Plugin(
    kind: PluginType,
    target: string,
    targetRel: string,
    targets: seq<string>,
    needs: seq<string>,
    limit: Option<LimitResult>)

  datatype Option<+T> = None | Some(value: T)

  /** The outcome of an operation the source may abort with a throw or a
      failing assertion. */
  datatype Result<+T, +E> = Success(value: T) | Failure(error: E)

  /** The activation test, literally: `targets.includes(field)`, or the plugin
      is not INJECT or is a wildcard INJECT, and either `field + "."` is its
      target or `field` starts with the target (no separator boundary). */
  predicate Activates(p: Plugin, field: string) {
    field in p.targets
    || ((p.kind != Inject || p.targetRel == "*")
        && (field + "." == p.target || p.target <= field))
  }

  /** The plugins of `ps` of one kind, in order. */
  function OfKind(ps: seq<Plugin>, k: PluginType): (r: seq<Plugin>)
  {
    if ps == [] then []
    else
      var init, last := ps[..|ps| - 1], ps[|ps| - 1];
      assert ps == init + [last];
      if last.kind == k then OfKind(init, k) + [last] else OfKind(init, k)
  }

  /** The plugins filed under a kind are exactly the plugins of that kind. */
  lemma {:induction false} OfKindMembers(ps: seq<Plugin>, k: PluginType, p: Plugin)
    ensures p in OfKind(ps, k) <==> p in ps && p.kind == k
  {
    if ps != [] {
      var init, last := ps[..|ps| - 1], ps[|ps| - 1];
      assert ps == init + [last];
      OfKindMembers(init, k, p);
    }
  }

  /** Filing by kind splits a run of plugins into three parts. */
  lemma {:induction false} OfKindPartition(ps: seq<Plugin>)
    ensures multiset(OfKind(ps, Filter)) + multiset(OfKind(ps, Inject)) + multiset(OfKind(ps, Sort)) == multiset(ps)
  {
    if ps != [] {
      var init, last := ps[..|ps| - 1], ps[|ps| - 1];
      assert ps == init + [last];
      OfKindPartition(init);
    }
  }

  /** The `requires` of `ps`, concatenated in order: what `requiredFields.push(...)`
      appends over a run of activations. */
  function ConcatRequires(ps: seq<Plugin>): (r: seq<string>)
  {
    if ps == [] then []
    else ConcatRequires(ps[..|ps| - 1]) + ps[|ps| - 1].needs
  }

  /** Total number of `requires` entries over a collection of plugins. */
  function SumRequires(ps: seq<Plugin>): nat
  {
    if ps == [] then 0 else |ps[0].needs| + SumRequires(ps[1..])
  }

  /** Synthetic fields an activated plugin manufactures: for INJECT, its
      `targets` that it does not itself require; none for other kinds. */
  function Produced(p: Plugin): set<string>
  {
    if p.kind == Inject then set t | t in p.targets && t !in p.needs else {}
  }

  /** The `ignoredFields` set after the plugins `ps` activated, in order. */
  function Ignored(ps: seq<Plugin>): set<string>
  {
    if ps == [] then {} else Ignored(ps[..|ps| - 1]) + Produced(ps[|ps| - 1])
  }

  /** Every INJECT plugin's `targets`, concatenated in plugin order. */
  function InjectTargets(ps: seq<Plugin>): (r: seq<string>)
  {
    if ps == [] then []
    else (if ps[0].kind == Inject then ps[0].targets else []) + InjectTargets(ps[1..])
  }

  /** A field is ignored exactly when some activated INJECT plugin lists it
      among its targets and not among its own requires. */
  lemma {:induction false} IgnoredExactly(ps: seq<Plugin>, t: string)
    ensures t in Ignored(ps) <==>
      exists k :: 0 <= k < |ps| && ps[k].kind == Inject && t in ps[k].targets && t !in ps[k].needs
  {
    if ps != [] {
      var init := ps[..|ps| - 1];
      IgnoredExactly(init, t);
      if t in Ignored(init) {
        var k :| 0 <= k < |init| && init[k].kind == Inject && t in init[k].targets && t !in init[k].needs;
        assert ps[k] == init[k];
      }
      if exists k :: 0 <= k < |ps| && ps[k].kind == Inject && t in ps[k].targets && t !in ps[k].needs {
        var k :| 0 <= k < |ps| && ps[k].kind == Inject && t in ps[k].targets && t !in ps[k].needs;
        if k < |init| {
          assert init[k] == ps[k];
        }
      }
    }
  }

  /** Every requirement of every plugin in `ps` is in `ConcatRequires(ps)`,
      and nothing else is. */
  lemma {:induction false} ConcatRequiresExactly(ps: seq<Plugin>, f: string)
    ensures f in ConcatRequires(ps) <==> exists p :: p in ps && f in p.needs
  {
    if ps != [] {
      var init, last := ps[..|ps| - 1], ps[|ps| - 1];
      assert ps == init + [last];
      ConcatRequiresExactly(init, f);
      if f in ConcatRequires(init) {
        var p :| p in init && f in p.needs;
        assert p in ps;
      }
    }
  }

  /** `|ConcatRequires(ps)|` is the total number of requirements of `ps`. */
  lemma {:induction false} ConcatRequiresLength(ps: seq<Plugin>)
    ensures |ConcatRequires(ps)| == SumRequires(ps)
  {
    if ps != [] {
      var init, last := ps[..|ps| - 1], ps[|ps| - 1];
      ConcatRequiresLength(init);
      SumRequiresSnoc(init, last);
      assert ps == init + [last];
    }
  }

  lemma {:induction false} SumRequiresSnoc(ps: seq<Plugin>, p: Plugin)
    ensures SumRequires(ps + [p]) == SumRequires(ps) + |p.needs|
  {
    if ps != [] {
      assert (ps + [p])[1..] == ps[1..] + [p];
      SumRequiresSnoc(ps[1..], p);
    }
  }

  /** Removing the plugin at index `j` takes its requirements out of the total. */
  lemma {:induction false} SumRequiresRemove(ps: seq<Plugin>, j: nat)
    requires j < |ps|
    ensures SumRequires(ps[..j] + ps[j + 1..]) + |ps[j].needs| == SumRequires(ps)
  {
    if j > 0 {
      assert (ps[..j] + ps[j + 1..])[1..] == ps[1..][..j - 1] + ps[1..][j..];
      SumRequiresRemove(ps[1..], j - 1);
    } else {
      assert ps[..j] + ps[j + 1..] == ps[1..];
    }
  }

  /** A field is among the INJECT targets exactly when some INJECT plugin
      lists it. */
  lemma {:induction false} InjectTargetsExactly(ps: seq<Plugin>, t: string)
    ensures t in InjectTargets(ps) <==> exists p :: p in ps && p.kind == Inject && t in p.targets
  {
    if ps != [] {
      InjectTargetsExactly(ps[1..], t);
      if t in InjectTargets(ps[1..]) {
        var p :| p in ps[1..] && p.kind == Inject && t in p.targets;
        assert p in ps;
      }
      if exists p :: p in ps && p.kind == Inject && t in p.targets {
        var p :| p in ps && p.kind == Inject && t in p.targets;
        if p != ps[0] {
          assert p in ps[1..];
        }
      }
    }
  }

  /** A non-INJECT or wildcard INJECT plugin activates for every field that
      starts with its target, with no separator boundary required. */
  lemma PrefixActivates(p: Plugin, field: string)
    requires p.kind != Inject || p.targetRel == "*"
    requires p.target <= field
    ensures Activates(p, field)
  {
  }

  /** So a plugin governing "ab" also activates for the unrelated sibling
      field "abc". */
  lemma PrefixWithoutBoundary(p: Plugin)
    requires p.kind == Sort && p.target == "ab"
    ensures Activates(p, "abc")
  {
    PrefixActivates(p, "abc");
  }

  /** An INJECT plugin without the wildcard relation activates only for
      fields it lists in `targets`. */
  lemma NonWildcardInjectOnlyByTargets(p: Plugin, field: string)
    requires p.kind == Inject && p.targetRel != "*"
    ensures Activates(p, field) <==> field in p.targets
  {
  }

  /** A container target (ending in ".") activates for the container field
      itself, even though the field does not start with the target. */
  lemma ContainerTargetActivatesForContainer(p: Plugin, field: string)
    requires p.kind != Inject && p.target == field + "."
    ensures Activates(p, field)
  {
  }
}
