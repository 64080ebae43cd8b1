/** `get_schema`: where the JSON schema of a payload lives, and the
    process-wide cache of loaded schemas keyed by that relative path. */
module Schemas {
  import opened Outcomes
  import opened JsonValues
  import opened Errors
  import opened Messages

  /** A schema document, as parsed JSON. */
  type Schema = Json

  /** What reading and parsing one schema file gives: the file system and
      `json.loads` are outside the model, so callers pass the loader in. */
  datatype Load = Loaded(schema: Schema) | LoadFailed

  /** The `_schemas` map: relative path to parsed schema. */
  type Cache = map<string, Schema>

  /** The value `get_schema` returns or raises, with the cache after the call. */
  datatype Lookup = Lookup(result: Result<Schema, Error>, cache: Cache)

  const V16: string := "1.6"
  const V20: string := "2.0"

  /** The schema directory of a protocol version. */
  function SchemaDir(version: string): (r: Option<string>)
    ensures r.Some? <==> version == V16 || version == V20
    ensures version == V16 ==> r == Some("v16")
    ensures version == V20 ==> r == Some("v20")
  {
    if version == V16 then Some("v16")
    else if version == V20 then Some("v20")
    else None
  }

  /** The file name stem: the action, then "Response" for a CallResult or
      "Request" for a Call under 2.0 only, then "_v1p0" for every 2.0
      schema. Other message type ids get no direction suffix. */
  function SchemaName(typeId: int, action: string, version: string): string {
    action + NameSuffix(typeId, version)
  }

  /** The suffix `SchemaName` appends to the action. */
  function NameSuffix(typeId: int, version: string): string {
    (if typeId == CallResultTypeId then "Response" else if typeId == CallTypeId && version == V20 then "Request" else "")
    + (if version == V20 then "_v1p0" else "")
  }

  /** The part of a schema path before the action. */
  function PathPrefix(version: string): string {
    if version == V20 then "v20/schemas/" else "v16/schemas/"
  }

  lemma Regroup(d: string, a: string, n: string, j: string)
    ensures d + (a + n) + j == d + a + (n + j)
  {
  }

  /** The cache key `<dir>/schemas/<name>.json`, or the ValueError an
      unsupported version raises. */
  function SchemaPath(typeId: int, action: string, version: string): (r: Result<string, Error>)
    ensures r.Ok? <==> version == V16 || version == V20
    ensures r.Err? ==> r.error == UnsupportedVersion(version)
    ensures r.Ok? ==> r.value == PathPrefix(version) + action + (NameSuffix(typeId, version) + ".json")
  {
    match SchemaDir(version)
    case None => Err(UnsupportedVersion(version))
    case Some(dir) =>
      assert dir + "/schemas/" == PathPrefix(version);
      Regroup(dir + "/schemas/", action, NameSuffix(typeId, version), ".json");
      Ok(dir + "/schemas/" + SchemaName(typeId, action, version) + ".json")
  }

  /** Cancelling a common prefix and suffix. */
  lemma CancelAround(p: string, a: string, b: string, s: string)
    requires p + a + s == p + b + s
    ensures a == b
  {
    assert |a| == |b|;
    forall i | 0 <= i < |a|
      ensures a[i] == b[i]
    {
      assert a[i] == (p + a + s)[|p| + i];
      assert b[i] == (p + b + s)[|p| + i];
    }
  }

  /** A path names its protocol version: the two versions never share a
      schema, even for the same action and direction. */
  lemma PathIdentifiesVersion(t: int, a: string, v: string, t': int, a': string, v': string)
    requires SchemaPath(t, a, v).Ok? && SchemaPath(t', a', v').Ok?
    requires SchemaPath(t, a, v) == SchemaPath(t', a', v')
    ensures v == v'
  {
    var p, p' := SchemaPath(t, a, v).value, SchemaPath(t', a', v').value;
    assert p[2] == PathPrefix(v)[2];
    assert p'[2] == PathPrefix(v')[2];
  }

  /** Within one version and direction, distinct actions have distinct
      schema paths. */
  lemma PathIdentifiesAction(t: int, a: string, a': string, v: string)
    requires SchemaPath(t, a, v).Ok?
    requires SchemaPath(t, a, v) == SchemaPath(t, a', v)
    ensures a == a'
  {
    CancelAround(PathPrefix(v), a, a', NameSuffix(t, v) + ".json");
  }

  /** Under 2.0 a Call's schema path and a CallResult's never coincide:
      seventeen characters from the end one has the "R" of "Request", the
      other the "e" of "Response". */
  lemma V20RequestAndResponsePathsDiffer(x: string, y: string)
    ensures SchemaPath(CallTypeId, x, V20) != SchemaPath(CallResultTypeId, y, V20)
  {
    var request, response := SchemaPath(CallTypeId, x, V20).value, SchemaPath(CallResultTypeId, y, V20).value;
    var s2, s3 := NameSuffix(CallTypeId, V20) + ".json", NameSuffix(CallResultTypeId, V20) + ".json";
    assert s2 == "Request_v1p0.json";
    assert s3 == "Response_v1p0.json";
    assert request[|request| - 17] == 'R';
    assert response[|response| - 17] == 'e';
  }

  /** Under 2.0 a path names the direction and the action. */
  lemma V20PathIdentifiesDirection(t: int, a: string, t': int, a': string)
    requires t in {CallTypeId, CallResultTypeId} && t' in {CallTypeId, CallResultTypeId}
    requires SchemaPath(t, a, V20) == SchemaPath(t', a', V20)
    ensures t == t' && a == a'
  {
    if t == CallTypeId && t' == CallResultTypeId {
      V20RequestAndResponsePathsDiffer(a, a');
    } else if t == CallResultTypeId && t' == CallTypeId {
      V20RequestAndResponsePathsDiffer(a', a);
    } else {
      PathIdentifiesAction(t, a, a', V20);
    }
  }

  /** Under 1.6 the Request schema carries no suffix, so a Call whose action
      ends in "Response" shares the path of the other action's CallResult. */
  lemma V16CallAndResultPathsCollide(a: string)
    ensures SchemaPath(CallTypeId, a + "Response", V16) == SchemaPath(CallResultTypeId, a, V16)
  {
    assert NameSuffix(CallTypeId, V16) + ".json" == ".json";
    assert NameSuffix(CallResultTypeId, V16) + ".json" == "Response.json";
    assert "Response" + ".json" == "Response.json";
    Regroup(PathPrefix(V16), a, "Response", ".json");
  }

  /** `get_schema`: the cached schema when the path is cached; otherwise
      the loader's schema, stored under the path; a failed load stores
      nothing. An unsupported version raises before the cache is read. */
  function GetSchema(cache: Cache, typeId: int, action: string, version: string,
                     load: string -> Load): (r: Lookup)
    ensures SchemaPath(typeId, action, version).Err? ==>
              r == Lookup(Err(UnsupportedVersion(version)), cache)
    ensures SchemaPath(typeId, action, version).Ok? ==>
              var path := SchemaPath(typeId, action, version).value;
              && (path in cache ==> r == Lookup(Ok(cache[path]), cache))
              && (path !in cache && load(path).Loaded? ==>
                    r == Lookup(Ok(load(path).schema), cache[path := load(path).schema]))
              && (path !in cache && load(path).LoadFailed? ==>
                    r == Lookup(Err(SchemaUnavailable(path)), cache))
  {
    match SchemaPath(typeId, action, version)
    case Err(e) => Lookup(Err(e), cache)
    case Ok(path) =>
      if path in cache then Lookup(Ok(cache[path]), cache)
      else match load(path)
        case LoadFailed => Lookup(Err(SchemaUnavailable(path)), cache)
        case Loaded(schema) => Lookup(Ok(schema), cache[path := schema])
  }

  /** A cache hit does not depend on the loader at all. */
  lemma CacheHitIgnoresLoader(cache: Cache, typeId: int, action: string, version: string,
                              load: string -> Load, load': string -> Load)
    requires SchemaPath(typeId, action, version).Ok?
    requires SchemaPath(typeId, action, version).value in cache
    ensures GetSchema(cache, typeId, action, version, load)
         == GetSchema(cache, typeId, action, version, load')
  {
  }

  /** Every `m` entry is kept, with the same value, in `m'`. */
  ghost predicate Extends(m: Cache, m': Cache) {
    forall k :: k in m ==> k in m' && m'[k] == m[k]
  }

  /** A cache whose every entry is what the loader gives for its path. */
  ghost predicate Consistent(cache: Cache, load: string -> Load) {
    forall k :: k in cache ==> load(k) == Loaded(cache[k])
  }

  /** The schema a lookup would give with no cache at all. */
  function Fetch(typeId: int, action: string, version: string, load: string -> Load): Result<Schema, Error> {
    match SchemaPath(typeId, action, version)
    case Err(e) => Err(e)
    case Ok(path) =>
      match load(path)
      case LoadFailed => Err(SchemaUnavailable(path))
      case Loaded(schema) => Ok(schema)
  }

  /** With schema files that do not change, the cache is invisible: a
      lookup gives what an uncached read gives, never evicts or alters an
      entry, and keeps the cache consistent. */
  lemma CachedLookupIsTransparent(cache: Cache, typeId: int, action: string, version: string,
                                  load: string -> Load)
    requires Consistent(cache, load)
    ensures GetSchema(cache, typeId, action, version, load).result == Fetch(typeId, action, version, load)
    ensures Extends(cache, GetSchema(cache, typeId, action, version, load).cache)
    ensures Consistent(GetSchema(cache, typeId, action, version, load).cache, load)
  {
  }

  /** One call of `get_schema` in a sequence of calls. */
  datatype SchemaRequest = SchemaRequest(typeId: int, action: string, version: string)

  /** The cache after a sequence of lookups, the paths whose schema was
      read and stored, in order, and what each lookup returned or raised. */
  datatype Session = Session(cache: Cache, loads: seq<string>, results: seq<Result<Schema, Error>>)

  /** A lookup whose version is supported and whose schema loads leaves
      its path in the cache `c`. */
  ghost predicate Stored(q: SchemaRequest, load: string -> Load, c: Cache) {
    var path := SchemaPath(q.typeId, q.action, q.version);
    path.Ok? && load(path.value).Loaded? ==> path.value in c
  }

  /** `path` is the schema path of one of the requests. */
  ghost predicate Requested(path: string, requests: seq<SchemaRequest>) {
    exists j :: 0 <= j < |requests| && SchemaPath(requests[j].typeId, requests[j].action, requests[j].version) == Ok(path)
  }

  /** A path requested by the tail of a sequence is requested by the whole. */
  lemma RequestedInTail(paths: seq<string>, requests: seq<SchemaRequest>)
    requires |requests| > 0
    requires forall i :: 0 <= i < |paths| ==> Requested(paths[i], requests[1..])
    ensures forall i :: 0 <= i < |paths| ==> Requested(paths[i], requests)
  {
  }

  /** Runs the requests in order against one cache. Each path is loaded
      successfully at most once, only if it was not cached to begin with,
      and the cache only ever grows by exactly the loaded paths. */
  function RunLookups(cache: Cache, requests: seq<SchemaRequest>, load: string -> Load): (r: Session)
    ensures Extends(cache, r.cache)
    ensures forall k :: k in r.cache <==> k in cache || k in r.loads
    ensures forall i :: 0 <= i < |r.loads| ==> r.loads[i] !in cache
    ensures forall i, j :: 0 <= i < j < |r.loads| ==> r.loads[i] != r.loads[j]
    ensures forall i :: 0 <= i < |r.loads| ==> load(r.loads[i]) == Loaded(r.cache[r.loads[i]])
    ensures |r.results| == |requests|
    ensures forall i :: 0 <= i < |requests| ==> Stored(requests[i], load, r.cache)
    ensures forall i :: 0 <= i < |r.loads| ==> Requested(r.loads[i], requests)
    decreases |requests|
  {
    if |requests| == 0 then Session(cache, [], [])
    else
      var q := requests[0];
      var step := GetSchema(cache, q.typeId, q.action, q.version, load);
      var added := Added(cache, q, load);
      var rest := RunLookups(step.cache, requests[1..], load);
      LookupStep(cache, q, load);
      assert Stored(q, load, rest.cache);
      assert forall i :: 0 < i < |requests| ==> requests[i] == requests[1..][i - 1];
      RequestedInTail(rest.loads, requests);
      assert forall i :: 0 <= i < |added| ==> Requested(added[i], requests);
      Session(rest.cache, added + rest.loads, [step.result] + rest.results)
  }

  /** The path one lookup reads and stores: none on a hit, an unsupported
      version or a failed load. */
  function Added(cache: Cache, q: SchemaRequest, load: string -> Load): (added: seq<string>)
    ensures |added| <= 1
    ensures forall i :: 0 <= i < |added| ==>
              && SchemaPath(q.typeId, q.action, q.version) == Ok(added[i])
              && added[i] !in cache && load(added[i]).Loaded?
  {
    var path := SchemaPath(q.typeId, q.action, q.version);
    if path.Ok? && path.value !in cache && load(path.value).Loaded? then [path.value] else []
  }

  /** One lookup grows the cache by exactly the path it stores, keeps every
      other entry, and leaves a loadable requested path cached. */
  lemma LookupStep(cache: Cache, q: SchemaRequest, load: string -> Load)
    ensures var c := GetSchema(cache, q.typeId, q.action, q.version, load).cache;
            && Extends(cache, c)
            && (forall k :: k in c <==> k in cache || k in Added(cache, q, load))
            && (forall k :: k in Added(cache, q, load) ==> load(k) == Loaded(c[k]))
            && Stored(q, load, c)
  {
  }

  /** Over any sequence of lookups starting from a cache that agrees with
      the loader, every lookup returns what an uncached read returns, so
      repeated lookups of one schema give the same document, and the cache
      keeps agreeing with the loader. */
  lemma {:induction false} RunAgreesWithUncachedReads(cache: Cache, requests: seq<SchemaRequest>,
                                                      load: string -> Load)
    requires Consistent(cache, load)
    ensures var r := RunLookups(cache, requests, load);
            forall i :: 0 <= i < |requests| ==>
              r.results[i] == Fetch(requests[i].typeId, requests[i].action, requests[i].version, load)
    ensures Consistent(RunLookups(cache, requests, load).cache, load)
    decreases |requests|
  {
    if |requests| > 0 {
      var q := requests[0];
      var step := GetSchema(cache, q.typeId, q.action, q.version, load);
      CachedLookupIsTransparent(cache, q.typeId, q.action, q.version, load);
      RunAgreesWithUncachedReads(step.cache, requests[1..], load);
      var r := RunLookups(cache, requests, load);
      var rest := RunLookups(step.cache, requests[1..], load);
      assert r.results == [step.result] + rest.results;
      forall i | 0 < i < |requests|
        ensures r.results[i] == Fetch(requests[i].typeId, requests[i].action, requests[i].version, load)
      {
        assert r.results[i] == rest.results[i - 1];
        assert requests[i] == requests[1..][i - 1];
      }
    }
  }
}
