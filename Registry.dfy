/** The registry built by the module's export (src/module/rewriter.js:51-85):
    the universe of fields a caller may request, and `init`, which validates a
    request, runs the dependency closure and checks that everything left to
    fetch is a data-store field. */
module Registry {
  import opened Sequences
  import opened Plugins
  import opened Resolver

  /** Why `init` fails: a requested field outside `allowedFields` (the thrown
      `Bad field requested` error), or a field left to fetch that the data
      store does not have (the failing `Bad Field Requested` assertion). Each
      carries the offending fields. */
  datatype InitError = BadFieldRequested(fields: seq<string>) | NotInDataStore(fields: seq<string>)

  /** `allowedFields`: the data-store fields, then every INJECT plugin's
      `targets`, deduplicated in insertion order. */
  function AllowedFields(dataStoreFields: seq<string>, plugins: seq<Plugin>): (r: seq<string>)
    ensures NoDuplicates(r)
    ensures forall f :: f in r <==>
      f in dataStoreFields || exists p :: p in plugins && p.kind == Inject && f in p.targets
    ensures FirstOccurrenceOrder(r, dataStoreFields + InjectTargets(plugins))
  {
    forall f ensures f in InjectTargets(plugins) <==> exists p :: p in plugins && p.kind == Inject && f in p.targets {
      InjectTargetsExactly(plugins, f);
    }
    DedupOrder(dataStoreFields + InjectTargets(plugins));
    Dedup(dataStoreFields + InjectTargets(plugins))
  }

  /** The fields of `fields` that `universe` lacks, in order and with
      repetitions: `fields.filter((f) => !universe.includes(f))`. */
  function Missing(fields: seq<string>, universe: seq<string>): (r: seq<string>)
    ensures forall f :: f in r <==> f in fields && f !in universe
    ensures |r| <= |fields|
  {
    if fields == [] then []
    else (if fields[0] in universe then [] else [fields[0]]) + Missing(fields[1..], universe)
  }

  /** The check `fields.every((f) => universe.includes(f))`, failing with
      the offending fields. */
  function Check(fields: seq<string>, universe: seq<string>): (r: Result<(), seq<string>>)
    ensures r.Success? <==> forall f :: f in fields ==> f in universe
    ensures r.Failure? ==> |r.error| > 0 && forall f :: f in r.error <==> f in fields && f !in universe
  {
    var missing := Missing(fields, universe);
    if missing == [] then Success(())
    else
      assert missing[0] in missing;
      Failure(missing)
  }

  /** `init(fields)`: reject a request outside `allowedFields`, run
      `compileMeta`, and fail unless every field to request is a data-store
      field. `compiled` is what `compileMeta` returned when it ran (and an
      empty `Meta` when the request was rejected first). */
  method Init(plugins: seq<Plugin>, dataStoreFields: seq<string>, fields: seq<string>)
    returns (r: Result<Meta, InitError>, compiled: Meta)
    // the request is checked first, against allowedFields, naming every offender
    ensures r.Failure? && r.error.BadFieldRequested? <==>
      exists f :: f in fields && f !in AllowedFields(dataStoreFields, plugins)
    ensures r.Failure? && r.error.BadFieldRequested? ==>
      forall f :: f in r.error.fields <==> f in fields && f !in AllowedFields(dataStoreFields, plugins)
    // then the compiled fetch list is checked against the data store, naming every offender
    ensures r.Failure? && r.error.NotInDataStore? ==>
      && (forall f :: f in fields ==> f in AllowedFields(dataStoreFields, plugins))
      && (forall f :: f in r.error.fields <==> f in compiled.fieldsToRequest && f !in dataStoreFields)
      && |r.error.fields| > 0
    ensures r.Success? ==>
      && r.value == compiled
      && (forall f :: f in fields ==> f in AllowedFields(dataStoreFields, plugins))
      && (forall f :: f in compiled.fieldsToRequest ==> f in dataStoreFields)
    ensures (forall f :: f in fields ==> f in AllowedFields(dataStoreFields, plugins)) ==>
      (r.Success? <==> forall f :: f in compiled.fieldsToRequest ==> f in dataStoreFields)
    // once the request passes, `compiled` is the result of compileMeta
    ensures (forall f :: f in fields ==> f in AllowedFields(dataStoreFields, plugins)) ==>
      Compiled(plugins, fields, compiled)
  {
    var allowed := AllowedFields(dataStoreFields, plugins);
    compiled := Meta([], [], [], []);
    var requested := Check(fields, allowed);
    if requested.Failure? {
      return Failure(BadFieldRequested(requested.error)), compiled;
    }
    compiled := CompileMeta(plugins, fields);
    var fetched := Check(compiled.fieldsToRequest, dataStoreFields);
    if fetched.Failure? {
      return Failure(NotInDataStore(fetched.error)), compiled;
    }
    r := Success(compiled);
  }
}
