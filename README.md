# object-rewrite: the rewriter core in Dafny

object-rewrite is a plugin-driven engine for JSON-like trees. A caller asks
for a list of output fields. The rewriter then works out which fields must
be fetched from the data store. It also works out which FILTER, INJECT and
SORT plugins must run. Each plugin governs a path and may require further
fields. An INJECT plugin can also manufacture fields of its own. At run time
the plugins rewrite the tree in place:

- INJECT adds values;
- FILTER removes nodes;
- SORT orders arrays and truncates them to a limit.

This project models the decision logic of `src/module/rewriter.js`:

- **Resolving the request** (`compileMeta`). This is a worklist fixed point.
  Requested fields activate plugins, each activated plugin appends its
  `requires` to the worklist, and the worklist yields `fieldsToRequest`.
  Module `Resolver` models it as an imperative method with the source's
  nested loop. Module `Plugins` holds the plugin datatype and the literal
  activation test. The proofs cover these points:
  - activated and inactive plugins partition the input;
  - every plugin is filed under its own kind;
  - the worklist is bounded, which is why the loop terminates;
  - the request is a prefix of the worklist;
  - every activated plugin's requires are on the worklist;
  - at the end, no inactive plugin activates for any worklist field;
  - the ignored set is exactly the self-produced INJECT targets;
  - `fieldsToRequest` has no duplicates, keeps the order of first
    occurrence, and holds exactly the worklist fields that are not ignored;
  - plugins are activated by the first worklist field that activates them,
    and in that field's index order, then in input order; this schedule is
    unique, so the contract of `CompileMeta` fixes its result, including the
    order of each per-kind list and of `fieldsToRequest`.
- **The registry** (`allowedFields` and `init`), in module `Registry`.
  `init` fails exactly when some requested field is not allowed, and the
  error names exactly the offending fields. Otherwise it compiles the
  request, and its compiled result satisfies everything `CompileMeta`
  promises. `init` then fails exactly when some field of that result is not
  a data-store field.
- **The per-node decisions of the traversal handlers**, in module
  `Handlers`:
  - the FILTER keep-or-remove rule, on an array node (splice) and on an
    object node (delete);
  - the SORT limit, which truncates to the least defined limit and fails on
    a limit that is not a non-negative integer;
  - the guard of the synchronous `rewrite`.

Module `Sequences` models two JavaScript idioms, `[...new Set(xs)]` and
`xs.filter((e) => !set.has(e))`, and proves their order properties.

Plugins are values here, since a JavaScript plugin object cannot be modelled
by identity. "Each plugin is activated at most once" is therefore stated as
a multiset partition: activated plus inactive plugins equal the input.
When the input has no duplicates, neither does the activated list.

Callbacks are not run. Their results are inputs:

- a FILTER callback's return value, as `Returned`;
- a SORT plugin's `limit` result, as `LimitResult` in the plugin;
- the thunks the INJECT stage collected.

Two fields are renamed because their names are Dafny keywords. The plugin's
`type` is `kind`, and its `requires` is `needs`. A plugin without a
`targetRel` has `targetRel == ""`. Only the comparison with `"*"` matters.

The activation test is reproduced literally. That includes
`field.startsWith(plugin.target)` with no separator boundary: a plugin
governing `"ab"` activates for the field `"abc"`, as `PrefixActivates`
and its instance `PrefixWithoutBoundary` show.

Three behaviours of the code worth noting:

- A FILTER callback keeps a node only when it returns exactly `true`
  (`=== true`). Another truthy value removes the node.
- A SORT `limit` callback that returns `undefined` contributes no limit.
- The data-store check after compiling covers `fieldsToRequest`, the
  worklist without the ignored fields. It does not cover every required
  field.

## Model

| member | source | states |
|---|---|---|
| Plugins.Activates | src/module/rewriter.js:22-27 | the activation test, literally: the field is one of the plugin's `targets`, or the plugin is not INJECT or has `targetRel` `*` and either `field + "."` is its target or the field starts with its target (a definition, whose consequences the next rows state) |
| Plugins.PrefixActivates | src/module/rewriter.js:25-26 | for every field: a non-INJECT or wildcard INJECT plugin activates for any field that starts with its target |
| Plugins.NonWildcardInjectOnlyByTargets | src/module/rewriter.js:22-27 | an INJECT plugin whose `targetRel` is not `*` activates for a field iff the field is one of its `targets` |
| Plugins.ContainerTargetActivatesForContainer | src/module/rewriter.js:25-26 | a non-INJECT plugin whose target is `field + "."` activates for `field` |
| Plugins.PrefixWithoutBoundary | src/module/rewriter.js:26 | the prefix test has no separator boundary: target `"ab"` activates for field `"abc"` |
| Plugins.OfKind | src/module/rewriter.js:31 | the plugins filed under one kind, in activation order (a definition; `OfKindMembers` and `OfKindPartition` state its properties) |
| Plugins.ConcatRequires | src/module/rewriter.js:28 | what `requiredFields.push(...plugin.requires)` appends over a run of activations (a definition; the next rows state its properties) |
| Plugins.OfKindMembers | src/module/rewriter.js:31 | a plugin is filed under a kind iff it was activated and has that kind |
| Plugins.OfKindPartition | src/module/rewriter.js:8-31 | the three per-kind lists together hold exactly the activated plugins, as a multiset |
| Plugins.ConcatRequiresExactly | src/module/rewriter.js:28 | a field was appended to the worklist iff some activated plugin requires it |
| Plugins.ConcatRequiresLength | src/module/rewriter.js:28 | the worklist grows by exactly the number of requires of the activated plugins |
| Plugins.SumRequiresRemove | src/module/rewriter.js:28-29 | taking a plugin out of the inactive list lowers their total requires by exactly that plugin's requires, which is the loop's termination measure |
| Plugins.Ignored | src/module/rewriter.js:16-37 | the `ignoredFields` set after a run of activations (a definition; `IgnoredExactly` states what it holds) |
| Plugins.IgnoredExactly | src/module/rewriter.js:32-37 | the ignored set is exactly the targets of activated INJECT plugins that are not in the same plugin's requires; other kinds add nothing |
| Plugins.InjectTargets | src/module/rewriter.js:59-63 | every INJECT plugin's `targets`, in plugin order, as the `reduce` adds them (a definition; `InjectTargetsExactly` states what it holds) |
| Plugins.InjectTargetsExactly | src/module/rewriter.js:59-63 | a field is among the collected INJECT targets iff some INJECT plugin lists it |
| Sequences.Dedup | src/module/rewriter.js:47 | `[...new Set(s)]` has no duplicates and the same elements as `s` |
| Sequences.DedupOrder | src/module/rewriter.js:47 | `[...new Set(s)]` lists elements in the order of their first occurrence in `s` |
| Sequences.Without | src/module/rewriter.js:47 | the filtered sequence holds exactly the elements outside the excluded set |
| Sequences.WithoutKeepsOrder | src/module/rewriter.js:47 | filtering keeps the first-occurrence order |
| Sequences.WithoutKeepsNoDuplicates | src/module/rewriter.js:47 | filtering a duplicate-free sequence leaves it duplicate-free |
| Sequences.SubMultisetNoDuplicates | src/module/rewriter.js:14-29 | the plugins taken from a duplicate-free list are duplicate-free |
| Resolver.FieldsToRequest | src/module/rewriter.js:47 | `fieldsToRequest` has no duplicates, holds a field iff it is required and not ignored, and keeps the order of first occurrence in the worklist |
| Resolver.MarkIgnored | src/module/rewriter.js:32-37 | the `forEach` over an INJECT plugin's targets adds exactly the plugin's self-produced fields to the ignored set |
| Resolver.PlaceStep | src/module/rewriter.js:29 | splicing a plugin out of the inactive list keeps the inactive plugins in input order and every input position accounted for |
| Resolver.OrderStep | src/module/rewriter.js:18-31 | an activation for field `i` is by the first field that activates the plugin, and comes after every plugin activated for an earlier field or earlier in the input |
| Resolver.Activate | src/module/rewriter.js:28-38 | one activation appends the plugin's requires, splices it out of the inactive list, files it under its kind and updates the ignored set, and keeps the loop invariant and the activation order |
| Resolver.ActivateForField | src/module/rewriter.js:19-40 | after the inner loop, no inactive plugin activates for any worklist field up to and including the current one, the invariant holds for the next index, and the plugins activated for this field were activated in input order |
| Resolver.Worklist | src/module/rewriter.js:18-41 | on exit from the outer loop every worklist field has been tested against every inactive plugin, and the activation order is kept |
| Resolver.LoopSchedule | src/module/rewriter.js:18-41 | the loop's activations form a `Schedule`: by the first worklist field that activates each plugin, then by input position, with no inactive plugin activating for any worklist field |
| Resolver.Filing | src/module/rewriter.js:31 | the per-kind lists hold exactly the activated plugins of each kind and together make up all of them |
| Resolver.ResolveClosure | src/module/rewriter.js:7-48 | the worklist is the request followed by the activated plugins' requires, and is bounded by the request plus all requires; activated and inactive plugins partition the input; each plugin is filed under its own kind and, for a duplicate-free input, at most once; each activation is caused by a field that was on the worklist before that plugin's requires were added; activations are ordered by the first worklist field that activates each plugin and then by input position; on exit no inactive plugin activates for any worklist field; every activated plugin's requires are on the worklist; `fieldsToRequest` is the deduplicated worklist without the ignored fields |
| Resolver.ManufacturedIsIgnored | src/module/rewriter.js:32-37 | the ignored fields are exactly those some filed INJECT plugin manufactures |
| Resolver.FiledFromInput | src/module/rewriter.js:14-31 | the filed plugins are exactly the activated ones, and together with the inactive plugins they make up the input |
| Resolver.FetchFacts | src/module/rewriter.js:47 | every requested or required field is fetched unless it is manufactured, and only such fields are fetched |
| Resolver.LeftOutFacts | src/module/rewriter.js:18-41 | a plugin filed fewer times than the input holds it activates for no requested or required field |
| Resolver.ConcatRequiresPrefix | src/module/rewriter.js:28 | the requires appended by the first activations are a prefix of all that was appended |
| Resolver.Minimality | src/module/rewriter.js:18-31 | in a schedule each plugin activates for a field requested or required by the plugins activated before it |
| Resolver.SharedWorklist | src/module/rewriter.js:28 | two runs of activations that share their first `k` plugins give worklists that agree up to the end of those plugins' requires |
| Resolver.ScheduledAt | src/module/rewriter.js:18-31 | in a schedule, an input plugin that activates for a worklist field is activated exactly once, no later than that field |
| Resolver.ScheduleNotLater | src/module/rewriter.js:18-31 | of two schedules agreeing on their first `k` activations, the second has a `k`-th one too, no later in (field index, input position) order than the first's |
| Resolver.ScheduleStep | src/module/rewriter.js:18-31 | schedules agreeing on their first `k` activations agree on the next one |
| Resolver.ScheduleAgrees | src/module/rewriter.js:18-41 | schedules agreeing on their first `k` activations agree completely |
| Resolver.ScheduleUnique | src/module/rewriter.js:18-41 | the plugins and the request fix the schedule: the activated plugins, their order, the fields that activated them and their input positions |
| Resolver.ClosureIsCompiled | src/module/rewriter.js:7-49 | the loop's final state makes its result satisfy `Compiled` |
| Resolver.CompileMeta | src/module/rewriter.js:7-49 | the result satisfies `Compiled`, over the inputs alone: the per-kind lists are the plugins of the schedule of the input, filed under their kinds in schedule order, and `fieldsToRequest` is the schedule's deduplicated worklist without the manufactured fields; so the filed plugins come from the input as a sub-multiset of it, no copy of a plugin left out activates for a requested or required field, and `fieldsToRequest` has no duplicates and holds exactly the requested or required fields that no filed INJECT plugin manufactures |
| Resolver.FiledUnique | src/module/rewriter.js:43-48 | results filed in the order of schedules of the same input are equal |
| Resolver.CompiledUnique | src/module/rewriter.js:7-49 | at most one `Meta` satisfies `Compiled` for given plugins and request, so `CompileMeta`'s contract fixes its result, order included |
| Registry.AllowedFields | src/module/rewriter.js:59-64 | `allowedFields` has no duplicates, holds a field iff it is a data-store field or an INJECT target, and keeps insertion order |
| Registry.Missing | src/module/rewriter.js:72-84 | the offending fields are exactly the fields outside the universe |
| Registry.Check | src/module/rewriter.js:71-84 | the `every` check passes iff every field is in the universe, and a failure names exactly the offending fields |
| Registry.Init | src/module/rewriter.js:68-85 | `init` throws "bad field requested" iff some requested field is outside `allowedFields`, naming exactly those fields; otherwise the compiled result satisfies `Compiled` for the plugins and the request, which fixes it, and `init` fails iff some field of its `fieldsToRequest` is not a data-store field, naming exactly those |
| Handlers.Keep | src/module/rewriter.js:108-110 | a node is kept iff some matching callback returned exactly `true` |
| Handlers.SpliceOne | src/module/rewriter.js:114 | `splice(k, 1)` removes the element at `k` and shifts the later ones down; past the end it changes nothing |
| Handlers.SpliceOneRemovesOne | src/module/rewriter.js:114 | splicing removes exactly one copy of the removed element and keeps every other element |
| Handlers.Limited | src/module/rewriter.js:142-145 | the array after truncation is a prefix of length `min(limit, length)`, and unchanged when there is no limit |
| Handlers.ArrayNode.FilterElement | src/module/rewriter.js:108-119 | the handler keeps the element iff some callback returned `true`, and otherwise splices it out of the parent array; the return value is the keep decision |
| Handlers.ObjectNode.FilterEntry | src/module/rewriter.js:108-119 | the handler keeps the property iff some callback returned `true`, and otherwise deletes exactly that key; no other property changes |
| Handlers.DefinesLimit | src/module/rewriter.js:139-141 | a plugin contributes a limit when its `limit` callback exists and returns something other than `undefined` (a definition, used by `LimitResults` and `EffectiveLimit`) |
| Handlers.NonNegativeInteger | src/module/rewriter.js:143 | the limit assertion's test `Number.isInteger(l) && l >= 0` (a definition, used by `EffectiveLimit`) |
| Handlers.LimitResults | src/module/rewriter.js:138-141 | the collected limits are exactly the defined results of the plugins' `limit` callbacks |
| Handlers.MinLimit | src/module/rewriter.js:144 | `Math.min` over the limits is one of them and is at most each of them |
| Handlers.Truncated | src/module/rewriter.js:144 | `splice(m)` keeps a prefix of length `min(m, length)` |
| Handlers.EffectiveLimit | src/module/rewriter.js:138-145 | the SORT handler fails iff some defined limit is not a non-negative integer; it truncates nowhere iff no plugin defines a limit; otherwise it truncates at a defined limit that is at most every defined limit |
| Handlers.ArrayNode.ApplyLimits | src/module/rewriter.js:138-145 | the array is truncated at the effective limit, left alone without limits, and the handler fails with the array unchanged on an invalid limit |
| Handlers.LimitedShortens | src/module/rewriter.js:142-145 | the limited array is a prefix of the sorted one, no longer than any defined limit, and unchanged when no limit is defined |
| Handlers.Rewrite | src/module/rewriter.js:165-169 | the synchronous `rewrite` fails iff the INJECT stage collected asynchronous work, and otherwise runs the FILTER, SORT and retain stage on the injected input |

## Left out

- The `object-scan` traversal (src/module/rewriter.js:87-150) is left out. It is an external library whose source is not part of this model. That covers pattern matching, visit order and how `matchedBy` is computed. How a handler's `parent` is chosen is part of it too: the root for top-level keys, otherwise `parents[0]`. Only the decision a handler makes on one given parent is modelled.
- The INJECT handler (src/module/rewriter.js:87-101) is left out. It only runs the opaque callbacks and collects their thunks, and `Handlers.Rewrite` takes those thunks as input.
- `compileTargetMap` (src/module/rewriter.js:44-46) is not part of this model. The compiled meta keeps the per-kind plugin lists it would be given.
- The comparator `cmpFn` is left out, and so is the in-place `Array.prototype.sort` with its per-depth `lookups` cache (src/module/rewriter.js:129-137, 146). They depend on the traversal order and on object identity in a `Map`. `Handlers.ArrayNode.ApplyLimits` runs on the array as already sorted.
- `Handlers.ArrayNode.ApplyLimits`: on an invalid limit the source has already sorted the array when the assertion fails. The model, which leaves sorting out, says the array is unchanged by the truncation step.
- The "Sort must be on Array" assertion (src/module/rewriter.js:128) is left out. The model's SORT step is only defined on an `ArrayNode`.
- The `Retainer` of `object-fields` (src/module/rewriter.js:151, 161) is left out. It is an external field-pruning primitive, so `Handlers.Rewrite` takes the final stage as a function.
- `rewriteAsync` (src/module/rewriter.js:170-174) is left out: it is promise plumbing over `Promise.all`.
- Plugin factory invocation `p(prefix)` (src/module/rewriter.js:55-58) is left out. The model takes the instantiated plugin list as input.
- The bodies of the `fn` and `limit` callbacks are left out. Their results are inputs.
- The argument-type assertions (src/module/rewriter.js:52-53, 69, 154) are left out. Dafny's types enforce them.
- The error-message texts are left out. Errors carry the offending fields rather than a joined string.
- `Handlers.Keep`: `some` stops at the first `true`, so later callbacks are not called. Their side effects are not modelled.
- `Resolver.ResolveClosure`: plugin identity is modelled by value together with the plugin's position in the input. "Activated at most once" is stated per input position (`ScheduledAt`), for duplicate-free inputs as duplicate-free `activated`, and as the multiset partition for every input.
- `Resolver.ActivateForField`: the inner loop of `compileMeta` is a method of its own, called from the outer loop. The source's `splice(j, 1); j -= 1` followed by `j += 1` is modelled as not advancing `j`.
