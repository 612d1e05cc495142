/** The workflow registry (packages/core/registry.py): the list of workflows
    n8n can run, read once from `workflows/registry.json` and cached, and the
    exact-key search `workflow_exists` the job route admits requests by. */
module Registry {
  import opened Results
  import opened Json
  import opened Schema

  datatype WorkflowMetadata = WorkflowMetadata(
    key: string,
    name: string,
    version: string,
    description: Option<string>)

  datatype WorkflowRegistry = WorkflowRegistry(workflows: seq<WorkflowMetadata>)

  // ---------------------------------------------------------------------
  // Search

  /** `any(entry.key == key for entry in entries)`. */
  function AnyKey(entries: seq<WorkflowMetadata>, key: string): (b: bool)
    ensures b <==> exists i :: 0 <= i < |entries| && entries[i].key == key
  {
    if entries == [] then false
    else
      assert forall i :: 1 <= i < |entries| ==> entries[i] == entries[1..][i - 1];
      entries[0].key == key || AnyKey(entries[1..], key)
  }

  /** An empty registry knows no workflow. */
  lemma AnyKeyEmpty(key: string)
    ensures !AnyKey([], key)
  {
  }

  /** Only the keys are compared: two registries whose entries have the same
      keys, position by position, answer alike whatever their names,
      versions and descriptions. */
  lemma AnyKeyKeyOnly(a: seq<WorkflowMetadata>, b: seq<WorkflowMetadata>, key: string)
    requires |a| == |b| && forall i :: 0 <= i < |a| ==> a[i].key == b[i].key
    ensures AnyKey(a, key) == AnyKey(b, key)
  {
    if AnyKey(a, key) {
      var i :| 0 <= i < |a| && a[i].key == key;
      assert b[i].key == key;
    }
  }

  /** The answer does not depend on the order of the entries. */
  lemma AnyKeyOrderIndependent(a: seq<WorkflowMetadata>, b: seq<WorkflowMetadata>, key: string)
    requires multiset(a) == multiset(b)
    ensures AnyKey(a, key) == AnyKey(b, key)
  {
    forall x: seq<WorkflowMetadata>, y: seq<WorkflowMetadata> | multiset(x) == multiset(y) && AnyKey(x, key)
      ensures AnyKey(y, key)
    {
      var i :| 0 <= i < |x| && x[i].key == key;
      assert x[i] in multiset(x);
      assert x[i] in y;
      var j :| 0 <= j < |y| && y[j] == x[i];
    }
  }

  // ---------------------------------------------------------------------
  // Loading

  /** Why `_load_registry` raises: the file is missing, its text is not
      JSON, the document is not an object (`WorkflowRegistry(**data)` needs a
      mapping), or pydantic rejects it. */
  datatype LoadError = FileNotFound | NotJson | NotAMapping | Invalid(error: SchemaError)

  /** One `WorkflowMetadata`. The model keeps pydantic's default
      `extra="ignore"`: undeclared keys are dropped, not refused. */
  function ParseMetadata(v: Json): (r: Result<WorkflowMetadata, SchemaError>)
    ensures r.Ok? <==>
      && v.Obj?
      && Lookup(v.fields, "key").Some? && Lookup(v.fields, "key").value.Str?
      && Lookup(v.fields, "name").Some? && Lookup(v.fields, "name").value.Str?
      && Lookup(v.fields, "version").Some? && Lookup(v.fields, "version").value.Str?
      && (Lookup(v.fields, "description") in {None, Some(Null)} || Lookup(v.fields, "description").value.Str?)
    ensures r.Ok? ==> Lookup(v.fields, "key") == Some(Str(r.value.key))
    ensures r.Ok? ==> Lookup(v.fields, "name") == Some(Str(r.value.name))
    ensures r.Ok? ==> Lookup(v.fields, "version") == Some(Str(r.value.version))
    ensures r.Ok? ==> (r.value.description.None? <==> Lookup(v.fields, "description") in {None, Some(Null)})
    ensures r.Ok? && r.value.description.Some? ==> Lookup(v.fields, "description") == Some(Str(r.value.description.value))
  {
    if !v.Obj? then Err(NotAnObject)
    else
      var key :- RequiredStr(v.fields, "key", 0);
      var name :- RequiredStr(v.fields, "name", 0);
      var version :- RequiredStr(v.fields, "version", 0);
      var description :- OptionalStr(v.fields, "description");
      Ok(WorkflowMetadata(key, name, version, description))
  }

  /** An undeclared key added to an entry changes nothing. */
  lemma MetadataIgnoresExtra(fs: Fields, k: string, v: Json)
    requires k !in {"key", "name", "version", "description"}
    ensures ParseMetadata(Obj(fs + [(k, v)])) == ParseMetadata(Obj(fs))
  {
    LookupAppend(fs, (k, v), "key");
    LookupAppend(fs, (k, v), "name");
    LookupAppend(fs, (k, v), "version");
    LookupAppend(fs, (k, v), "description");
  }

  /** `workflows: list[WorkflowMetadata]`: every element must parse, and the
      entries keep the order of the elements they came from. */
  function ParseWorkflowList(items: seq<Json>): (r: Result<seq<WorkflowMetadata>, SchemaError>)
    ensures r.Ok? <==> forall i :: 0 <= i < |items| ==> ParseMetadata(items[i]).Ok?
    ensures r.Ok? ==> |r.value| == |items|
    ensures r.Ok? ==> forall i :: 0 <= i < |items| ==> ParseMetadata(items[i]) == Ok(r.value[i])
    decreases |items|
  {
    if items == [] then Ok([])
    else
      var e :- ParseMetadata(items[0]);
      var rest :- ParseWorkflowList(items[1..]);
      assert forall i :: 1 <= i < |items| ==> items[i] == items[1..][i - 1];
      Ok([e] + rest)
  }

  /** `WorkflowRegistry(**data)` for the decoded document `data`. */
  function ParseRegistry(doc: Json): (r: Result<WorkflowRegistry, LoadError>)
    ensures !doc.Obj? ==> r == Err(NotAMapping)
    ensures r.Ok? <==>
      && doc.Obj? && Lookup(doc.fields, "workflows").Some? && Lookup(doc.fields, "workflows").value.Arr?
      && ParseWorkflowList(Lookup(doc.fields, "workflows").value.items).Ok?
    ensures r.Ok? ==> ParseWorkflowList(Lookup(doc.fields, "workflows").value.items) == Ok(r.value.workflows)
  {
    if !doc.Obj? then Err(NotAMapping)
    else match Lookup(doc.fields, "workflows")
      case None => Err(Invalid(Missing("workflows")))
      case Some(w) =>
        if !w.Arr? then Err(Invalid(WrongType("workflows")))
        else match ParseWorkflowList(w.items)
          case Err(e) => Err(Invalid(e))
          case Ok(entries) => Ok(WorkflowRegistry(entries))
  }

  /** `_load_registry`: the file's text, if the file exists, is decoded by
      `decode` (`json.loads`) and validated. */
  function LoadRegistry(file: Option<string>, decode: string -> Option<Json>): (r: Result<WorkflowRegistry, LoadError>)
    ensures file.None? ==> r == Err(FileNotFound)
    ensures file.Some? && decode(file.value).None? ==> r == Err(NotJson)
    ensures file.Some? && decode(file.value).Some? ==> r == ParseRegistry(decode(file.value).value)
  {
    match file
    case None => Err(FileNotFound)
    case Some(text) =>
      match decode(text)
      case None => Err(NotJson)
      case Some(doc) => ParseRegistry(doc)
  }

  /** A missing registry file is an error, never an empty registry that
      would reject every workflow. */
  lemma MissingFileIsError(decode: string -> Option<Json>)
    ensures LoadRegistry(None, decode).Err?
    ensures forall reg :: LoadRegistry(None, decode) != Ok(reg)
  {
  }

  /** Entry `i` of a parsed list came from element `i`, an object whose
      `key` field holds the entry's key. */
  lemma ListedKeyAt(items: seq<Json>, entries: seq<WorkflowMetadata>, i: int)
    requires ParseWorkflowList(items) == Ok(entries) && 0 <= i < |items|
    ensures i < |entries| && items[i].Obj? && Lookup(items[i].fields, "key") == Some(Str(entries[i].key))
  {
    assert ParseMetadata(items[i]) == Ok(entries[i]);
  }

  /** An element of the `workflows` array that is an object whose `key`
      field is the string `key`. */
  predicate ItemHasKey(item: Json, key: string) {
    item.Obj? && Lookup(item.fields, "key") == Some(Str(key))
  }

  /** A parsed list knows a key exactly when one of its elements has it. */
  lemma ListedKeys(items: seq<Json>, entries: seq<WorkflowMetadata>, key: string)
    requires ParseWorkflowList(items) == Ok(entries)
    ensures AnyKey(entries, key) <==> exists i :: 0 <= i < |items| && ItemHasKey(items[i], key)
  {
    if AnyKey(entries, key) {
      ListedKeyFound(items, entries, key);
    }
    if exists i :: 0 <= i < |items| && ItemHasKey(items[i], key) {
      var i :| 0 <= i < |items| && ItemHasKey(items[i], key);
      ListedKeyEntry(items, entries, key, i);
    }
  }

  lemma ListedKeyEntry(items: seq<Json>, entries: seq<WorkflowMetadata>, key: string, i: int)
    requires ParseWorkflowList(items) == Ok(entries)
    requires 0 <= i < |items| && ItemHasKey(items[i], key)
    ensures AnyKey(entries, key)
  {
    ListedKeyAt(items, entries, i);
    assert entries[i].key == key;
  }

  lemma ListedKeyFound(items: seq<Json>, entries: seq<WorkflowMetadata>, key: string)
    requires ParseWorkflowList(items) == Ok(entries)
    requires AnyKey(entries, key)
    ensures exists i :: 0 <= i < |items| && ItemHasKey(items[i], key)
  {
    var i :| 0 <= i < |entries| && entries[i].key == key;
    ListedKeyAt(items, entries, i);
    assert ItemHasKey(items[i], key);
  }

  /** Once loaded, a workflow is known exactly when some element of the
      document's `workflows` array has that string as its `key`. */
  lemma LoadedKeys(doc: Json, items: seq<Json>, reg: WorkflowRegistry, key: string)
    requires ParseRegistry(doc) == Ok(reg)
    requires doc.Obj? && Lookup(doc.fields, "workflows") == Some(Arr(items))
    ensures AnyKey(reg.workflows, key) <==> exists i :: 0 <= i < |items| && ItemHasKey(items[i], key)
  {
    ListedKeys(items, reg.workflows, key);
  }

  // ---------------------------------------------------------------------
  // The load-once cache

  /** `get_registry` behind `functools.lru_cache`: the first successful load
      is kept and returned by every later call; a load that raises is not
      cached, so the next call reads the file again. */
  class RegistryCache {
    var cached: Option<WorkflowRegistry>
    ghost var diskReads: nat   // how many times `_load_registry` ran
    ghost var loads: nat       // how many of those succeeded

    ghost predicate Valid()
      reads this
    {
      loads <= 1 && (cached.Some? <==> loads == 1) && loads <= diskReads
    }

    constructor()
      ensures Valid()
      ensures cached == None && diskReads == 0 && loads == 0
    {
      cached := None;
      diskReads := 0;
      loads := 0;
    }

    /** The registry as the file describes it at the time of the call, read
        only if nothing is cached yet. */
    method GetRegistry(file: Option<string>, decode: string -> Option<Json>) returns (r: Result<WorkflowRegistry, LoadError>)
      requires Valid()
      modifies this
      ensures Valid()
      ensures old(cached).Some? ==> r == Ok(old(cached).value) && cached == old(cached) && diskReads == old(diskReads)
      ensures old(cached).None? ==> r == LoadRegistry(file, decode) && diskReads == old(diskReads) + 1
      ensures old(cached).None? ==> cached == (if r.Ok? then Some(r.value) else None)
      ensures r.Ok? <==> cached.Some?
      ensures r.Ok? ==> cached == Some(r.value)
    {
      if cached.Some? {
        return Ok(cached.value);
      }
      r := LoadRegistry(file, decode);
      diskReads := diskReads + 1;
      if r.Ok? {
        cached := Some(r.value);
        loads := loads + 1;
      }
    }

    /** `workflow_exists(key)`: the search over the cached registry; a
        failing first load propagates its error. */
    method WorkflowExists(key: string, file: Option<string>, decode: string -> Option<Json>) returns (r: Result<bool, LoadError>)
      requires Valid()
      modifies this
      ensures Valid()
      ensures old(cached).Some? ==> cached == old(cached) && r == Ok(AnyKey(old(cached).value.workflows, key))
      ensures old(cached).None? && LoadRegistry(file, decode).Err? ==>
        r == Err(LoadRegistry(file, decode).error) && cached == None
      ensures old(cached).None? && LoadRegistry(file, decode).Ok? ==>
        cached == Some(LoadRegistry(file, decode).value) && r == Ok(AnyKey(cached.value.workflows, key))
    {
      var reg := GetRegistry(file, decode);
      match reg
      case Err(e) => r := Err(e);
      case Ok(registry) => r := Ok(AnyKey(registry.workflows, key));
    }
  }
}
