/** `_categorize_changes` and its six `_process_*` steps (diff_detector.py):
    they sort the locations listed by a DeepDiff result into the `added`,
    `changed` and `removed` category dicts of a change report.  Each step is a
    function from the report before it to the report after it; the class
    `Changes` and the `Process*` methods below do the same in place. */
module Categorizer {
  import opened Results
  import opened PyStr
  import opened PyJson
  import opened Seqs
  import opened DeepDiffOutput
  import opened Extractors

  /** The three dicts of a change report, each from a category name (`paths`,
      `operations`, `schemas`, ...) to the entries found for it. */
  datatype ChangeReport = ChangeReport(
    added: map<string, seq<string>>,
    changed: map<string, seq<string>>,
    removed: map<string, seq<string>>)

  const EmptyReport := ChangeReport(map[], map[], map[])

  /** A category dict never holds an empty list. */
  predicate NoEmptyEntries(d: map<string, seq<string>>) {
    forall c :: c in d ==> d[c] != []
  }

  predicate WellFormed(r: ChangeReport) {
    NoEmptyEntries(r.added) && NoEmptyEntries(r.changed) && NoEmptyEntries(r.removed)
  }

  /** Two dicts say the same about category `c`. */
  predicate Agrees(d: map<string, seq<string>>, e: map<string, seq<string>>, c: string) {
    (c in d <==> c in e) && (c in d ==> d[c] == e[c])
  }

  /** The `if entries: d[category] = entries` that closes every step: it writes
      the category only when something was found, and touches no other. */
  function Record(d: map<string, seq<string>>, category: string, entries: seq<string>): (r: map<string, seq<string>>)
    ensures NoEmptyEntries(d) ==> NoEmptyEntries(r)
    ensures category in r <==> category in d || entries != []
    ensures entries != [] ==> r[category] == entries
    ensures entries == [] ==> r == d
    ensures forall c :: c != category ==> Agrees(d, r, c)
  {
    if entries != [] then d[category := entries] else d
  }

  /** The component types `_process_component_changes` walks, in order. */
  const ComponentTypes: seq<string> := ["schemas", "parameters", "responses", "requestBodies", "headers"]

  // ---------------------------------------------------------------- paths

  /** `_process_path_changes`: the API paths added, changed and removed. */
  function PathChanges(diff: Diff, report: ChangeReport): ChangeReport {
    report.(added := Record(report.added, "paths", PathsIn(diff.itemsAdded, "paths")),
            changed := Record(report.changed, "paths", PathsIn(ChangedKeys(diff), "paths")),
            removed := Record(report.removed, "paths", PathsIn(diff.itemsRemoved, "paths")))
  }

  // ----------------------------------------------------------- operations

  /** `previous_spec.get('paths', {})`. */
  function PreviousPaths(previous: Json): Result<Json> {
    Get(previous, "paths", Obj([]))
  }

  /** `path in previous_spec.get('paths', {})`; whether it raises does not
      depend on the path. */
  function KnownPath(previous: Json, path: string): (r: Result<bool>)
    ensures r.Ok? <==> PreviousPaths(previous).Ok? && Container(PreviousPaths(previous).value)
  {
    var paths :- PreviousPaths(previous);
    StrIn(path, paths)
  }

  /** What the first loop of `_process_operation_changes` has collected: the
      operations on new paths, those on existing paths, and the paths seen. */
  datatype OperationScan = OperationScan(added: seq<string>, changed: seq<string>, processed: seq<string>)

  /** The first loop, over the added locations, in order. */
  function ScanAdded(items: seq<string>, previous: Json): Result<OperationScan>
    decreases |items|
  {
    if items == [] then Ok(OperationScan([], [], []))
    else
      var scan :- ScanAdded(items[..|items| - 1], previous);
      match OperationOf(items[|items| - 1])
      case None => Ok(scan)
      case Some(po) =>
        var known :- KnownPath(previous, po.0);
        if known then Ok(scan.(changed := scan.changed + [po.1], processed := scan.processed + [po.0]))
        else Ok(scan.(added := scan.added + [po.1], processed := scan.processed + [po.0]))
  }

  /** The operation an added location names, when the previous specification
      did (`known`) or did not have its path. */
  function Bucket(item: string, previous: Json, known: bool): Option<string> {
    match OperationOf(item)
    case Some(po) => if KnownPath(previous, po.0) == Ok(known) then Some(po.1) else None
    case None => None
  }

  /** The path of the operation a location names. */
  function OperationPath(item: string): Option<string> {
    match OperationOf(item)
    case Some(po) => Some(po.0)
    case None => None
  }

  /** The operation a location names. */
  function OperationName(item: string): Option<string> {
    match OperationOf(item)
    case Some(po) => Some(po.1)
    case None => None
  }

  /** The operation a changed value names, when its path is among `processed`. */
  function ChangedOperation(key: string, processed: seq<string>): Option<string> {
    match OperationOf(key)
    case Some(po) => if po.0 in processed then Some(po.1) else None
    case None => None
  }

  /** The third loop: the operation of a changed value joins `changed` when it is
      not there yet and its path was among those of the added locations. */
  function MergeChanged(keys: seq<string>, changed: seq<string>, processed: seq<string>): seq<string> {
    MergeNew(keys, changed, key => ChangedOperation(key, processed))
  }

  /** `_process_operation_changes`: operations on new paths are added,
      operations on known paths and changed values under them are changed,
      operations of removed locations are removed.  Looking a path up in the
      previous specification raises when that is not a dict or its `paths` is
      not a container. */
  function OperationChanges(diff: Diff, previous: Json, report: ChangeReport): Result<ChangeReport> {
    var scan :- ScanAdded(diff.itemsAdded, previous);
    var changed := MergeChanged(ChangedKeys(diff), scan.changed, scan.processed);
    Ok(report.(added := Record(report.added, "operations", scan.added),
               removed := Record(report.removed, "operations", FilterMap(diff.itemsRemoved, OperationName)),
               changed := Record(report.changed, "operations", changed)))
  }

  // ----------------------------------------------------------- parameters

  /** Python's `if x:` on an optional string result. */
  function Kept(x: Option<string>): Option<string> {
    if Present(x) then x else None
  }

  /** What the first loop of `_process_parameter_changes` adds for a changed
      value: a parameter that went from not required to required. */
  function RequiredAddedOf(entry: (string, ValueChange)): Option<string> {
    if Contains(entry.0, "required") && Contains(entry.0, "parameters")
       && EqualsBool(entry.1.oldValue, false) && EqualsBool(entry.1.newValue, true)
    then Kept(ParameterInfo(entry.0))
    else None
  }

  /** The `elif` of the same loop: a parameter that stopped being required. */
  function RequiredRemovedOf(entry: (string, ValueChange)): Option<string> {
    if Contains(entry.0, "required") && Contains(entry.0, "parameters")
       && !(EqualsBool(entry.1.oldValue, false) && EqualsBool(entry.1.newValue, true))
       && EqualsBool(entry.1.oldValue, true) && EqualsBool(entry.1.newValue, false)
    then Kept(ParameterInfo(entry.0))
    else None
  }

  /** The second loop: an added location under some `parameters`. */
  function NewRequiredOf(item: string): Option<string> {
    if Contains(item, "parameters") then Kept(NewParameterInfo(item)) else None
  }

  /** `_process_parameter_changes`. */
  function ParameterChanges(diff: Diff, report: ChangeReport): ChangeReport {
    var addedParams := FilterMap(diff.valuesChanged, RequiredAddedOf) + FilterMap(diff.itemsAdded, NewRequiredOf);
    var removedParams := FilterMap(diff.valuesChanged, RequiredRemovedOf);
    report.(added := Record(report.added, "required_parameters", addedParams),
            removed := Record(report.removed, "required_parameters", removedParams))
  }

  // ---------------------------------------------- request / response formats

  /** A changed value under a request body's schema or content. */
  function RequestFormatOf(key: string): Option<string> {
    if Contains(key, "requestBody") && (Contains(key, "schema") || Contains(key, "content"))
    then Kept(OperationFromKey(key))
    else None
  }

  /** A changed value under a response's schema or content. */
  function ResponseFormatOf(key: string): Option<string> {
    if Contains(key, "responses") && (Contains(key, "schema") || Contains(key, "content"))
    then Kept(OperationFromKey(key))
    else None
  }

  /** An operation marked as having gained a content type. */
  function NewContentType(x: Option<string>): Option<string> {
    if Present(x) then Some(x.value + " (new content type)") else None
  }

  /** An added location under a request body's content. */
  function NewRequestContentOf(item: string): Option<string> {
    if Contains(item, "requestBody") && Contains(item, "content") then NewContentType(OperationFromKey(item)) else None
  }

  /** An added location under a response's content (the `elif` branch). */
  function NewResponseContentOf(item: string): Option<string> {
    if Contains(item, "requestBody") && Contains(item, "content") then None
    else if Contains(item, "responses") && Contains(item, "content") then NewContentType(OperationFromKey(item))
    else None
  }

  /** `_process_request_response_changes`; `list(set(...))` is `Distinct`. */
  function RequestResponseChanges(diff: Diff, report: ChangeReport): ChangeReport {
    var requests := FilterMap(ChangedKeys(diff), RequestFormatOf) + FilterMap(diff.itemsAdded, NewRequestContentOf);
    var responses := FilterMap(ChangedKeys(diff), ResponseFormatOf) + FilterMap(diff.itemsAdded, NewResponseContentOf);
    report.(changed := Record(Record(report.changed, "request_formats", Distinct(requests)),
                              "response_formats", Distinct(responses)))
  }

  // ------------------------------------------------------------- security

  /** The location DeepDiff prints for the top-level `security` list. */
  const GlobalSecurityKey := "root['security']"
  const GlobalSecurityMarker := "Global security requirements changed"

  function GlobalSecurityOf(key: string): Option<string> {
    if key == GlobalSecurityKey then Some(GlobalSecurityMarker) else None
  }

  /** A changed value under some operation's `security`. */
  function OperationSecurityOf(key: string): Option<string> {
    if Contains(key, "security") && Contains(key, "paths") then
      var op := OperationFromKey(key);
      if Present(op) then Some(op.value + " security changed") else None
    else None
  }

  /** The dotted key prefix `_extract_components` is given for a component type. */
  function ComponentKey(kind: string): (k: string)
    ensures Contains(k, ".")
  {
    var k := "components." + kind;
    assert OccursAt(k, ".", 10);
    k
  }

  /** `_process_security_changes`. */
  function SecurityChanges(diff: Diff, report: ChangeReport): ChangeReport {
    var keys := ChangedKeys(diff);
    var schemes := ComponentKey("securitySchemes");
    report.(changed := Record(Record(report.changed, "global_security", FilterMap(keys, GlobalSecurityOf)),
                              "operation_security", FilterMap(keys, OperationSecurityOf)),
            added := Record(report.added, "security_schemes", ComponentsIn(diff.itemsAdded, schemes)),
            removed := Record(report.removed, "security_schemes", ComponentsIn(diff.itemsRemoved, schemes)))
  }

  // ----------------------------------------------------------- components

  /** One pass of the loop of `_process_component_changes`, for component type `kind`. */
  function ComponentTypeChanges(diff: Diff, r: ChangeReport, kind: string): ChangeReport {
    var k := ComponentKey(kind);
    r.(added := Record(r.added, kind, ComponentsIn(diff.itemsAdded, k)),
       changed := Record(r.changed, kind, ComponentsIn(ChangedKeys(diff), k)),
       removed := Record(r.removed, kind, ComponentsIn(diff.itemsRemoved, k)))
  }

  /** The loop of `_process_component_changes` after the component types `kinds`. */
  function ComponentTypesChanges(diff: Diff, report: ChangeReport, kinds: seq<string>): ChangeReport
    decreases |kinds|
  {
    if kinds == [] then report
    else ComponentTypeChanges(diff, ComponentTypesChanges(diff, report, kinds[..|kinds| - 1]), kinds[|kinds| - 1])
  }

  /** `_process_component_changes`. */
  function ComponentChanges(diff: Diff, report: ChangeReport): ChangeReport {
    ComponentTypesChanges(diff, report, ComponentTypes)
  }

  // ------------------------------------------------------------ all steps

  /** `_categorize_changes`: the six steps in order, from an empty report. */
  function Categorize(diff: Diff, previous: Json): Result<ChangeReport> {
    var r1 := PathChanges(diff, EmptyReport);
    var r2 :- OperationChanges(diff, previous, r1);
    var r3 := ParameterChanges(diff, r2);
    var r4 := RequestResponseChanges(diff, r3);
    var r5 := SecurityChanges(diff, r4);
    Ok(ComponentChanges(diff, r5))
  }

  // ------------------------------------------------------------- lemmas

  /** The first loop of `_process_operation_changes` raises exactly when some
      added location names an operation and the previous specification's
      `paths` cannot be searched. */
  lemma {:induction false} ScanAddedRaises(items: seq<string>, previous: Json)
    ensures ScanAdded(items, previous).Ok? <==>
      (forall i :: 0 <= i < |items| ==> OperationOf(items[i]).None?)
      || (PreviousPaths(previous).Ok? && Container(PreviousPaths(previous).value))
    decreases |items|
  {
    if items != [] {
      var init := items[..|items| - 1];
      var last := items[|items| - 1];
      ScanAddedRaises(init, previous);
      assert forall i :: 0 <= i < |init| ==> init[i] == items[i];
    }
  }

  /** When it succeeds, the first loop sorts the operations the added locations
      name by whether the previous specification had their path, and collects
      their paths. */
  lemma {:induction false} ScanAddedSorts(items: seq<string>, previous: Json)
    requires ScanAdded(items, previous).Ok?
    ensures ScanAdded(items, previous).value == OperationScan(
      FilterMap(items, item => Bucket(item, previous, false)),
      FilterMap(items, item => Bucket(item, previous, true)),
      FilterMap(items, OperationPath))
    decreases |items|
  {
    if items != [] {
      ScanAddedSorts(items[..|items| - 1], previous);
    }
  }

  /** The third loop only appends to `changed`, and what it appends is new to
      `changed` and appears once. */
  lemma MergeChangedExtends(keys: seq<string>, changed: seq<string>, processed: seq<string>)
    ensures |MergeChanged(keys, changed, processed)| >= |changed|
    ensures MergeChanged(keys, changed, processed)[..|changed|] == changed
    ensures NoDuplicates(MergeChanged(keys, changed, processed)[|changed|..])
    ensures forall op :: op in MergeChanged(keys, changed, processed)[|changed|..] ==> op !in changed
  {
    MergeNewExtends(keys, changed, key => ChangedOperation(key, processed));
  }

  /** After the third loop, an operation is among the changed ones exactly when
      it already was or some changed value under a processed path names it. */
  lemma MergeChangedMember(keys: seq<string>, changed: seq<string>, processed: seq<string>, op: string)
    ensures op in MergeChanged(keys, changed, processed) <==>
      op in changed || exists i :: 0 <= i < |keys| && ChangedOperation(keys[i], processed) == Some(op)
  {
    MergeNewMember(keys, changed, key => ChangedOperation(key, processed), op);
  }

  /** `_process_parameter_changes` never writes a category: the operation lookup
      behind both of its kinds of entries never succeeds. */
  lemma ParameterChangesWriteNothing(diff: Diff, report: ChangeReport)
    ensures ParameterChanges(diff, report) == report
  {
    forall i | 0 <= i < |diff.valuesChanged|
      ensures RequiredAddedOf(diff.valuesChanged[i]).None? && RequiredRemovedOf(diff.valuesChanged[i]).None?
    {
      OperationFromKeyNeverSucceeds(diff.valuesChanged[i].0);
    }
    forall i | 0 <= i < |diff.itemsAdded|
      ensures NewRequiredOf(diff.itemsAdded[i]).None?
    {
      OperationFromKeyNeverSucceeds(diff.itemsAdded[i]);
    }
    FilterMapEmpty(diff.valuesChanged, RequiredAddedOf);
    FilterMapEmpty(diff.valuesChanged, RequiredRemovedOf);
    FilterMapEmpty(diff.itemsAdded, NewRequiredOf);
  }

  /** `_process_request_response_changes` never writes a category, for the same
      reason. */
  lemma RequestResponseChangesWriteNothing(diff: Diff, report: ChangeReport)
    ensures RequestResponseChanges(diff, report) == report
  {
    var keys := ChangedKeys(diff);
    forall i | 0 <= i < |keys|
      ensures RequestFormatOf(keys[i]).None? && ResponseFormatOf(keys[i]).None?
    {
      OperationFromKeyNeverSucceeds(keys[i]);
    }
    forall i | 0 <= i < |diff.itemsAdded|
      ensures NewRequestContentOf(diff.itemsAdded[i]).None? && NewResponseContentOf(diff.itemsAdded[i]).None?
    {
      OperationFromKeyNeverSucceeds(diff.itemsAdded[i]);
    }
    FilterMapEmpty(keys, RequestFormatOf);
    FilterMapEmpty(keys, ResponseFormatOf);
    FilterMapEmpty(diff.itemsAdded, NewRequestContentOf);
    FilterMapEmpty(diff.itemsAdded, NewResponseContentOf);
    assert Distinct([]) == [];
  }

  /** `_process_security_changes` reports global security exactly when the
      top-level `security` value changed, always with the fixed marker, and never
      reports operation-level security. */
  lemma SecurityChangesReport(diff: Diff, report: ChangeReport)
    requires "global_security" !in report.changed && "operation_security" !in report.changed
    ensures "global_security" in SecurityChanges(diff, report).changed <==> GlobalSecurityKey in ChangedKeys(diff)
    ensures "global_security" in SecurityChanges(diff, report).changed ==>
      forall e :: e in SecurityChanges(diff, report).changed["global_security"] ==> e == GlobalSecurityMarker
    ensures "operation_security" !in SecurityChanges(diff, report).changed
  {
    var keys := ChangedKeys(diff);
    FilterMapEmpty(keys, GlobalSecurityOf);
    if GlobalSecurityKey in keys {
      var i :| 0 <= i < |keys| && keys[i] == GlobalSecurityKey;
      assert GlobalSecurityOf(keys[i]).Some?;
    }
    forall e | e in FilterMap(keys, GlobalSecurityOf)
      ensures e == GlobalSecurityMarker
    {
      FilterMapMember(keys, GlobalSecurityOf, e);
    }
    forall i | 0 <= i < |keys|
      ensures OperationSecurityOf(keys[i]).None?
    {
      OperationFromKeyNeverSucceeds(keys[i]);
    }
    FilterMapEmpty(keys, OperationSecurityOf);
  }

  /** The component loop keeps the report free of empty lists. */
  lemma {:induction false} ComponentTypesWellFormed(diff: Diff, report: ChangeReport, kinds: seq<string>)
    requires WellFormed(report)
    ensures WellFormed(ComponentTypesChanges(diff, report, kinds))
    decreases |kinds|
  {
    if kinds != [] {
      ComponentTypesWellFormed(diff, report, kinds[..|kinds| - 1]);
    }
  }

  /** The component loop leaves every category but the given types alone. */
  lemma {:induction false} ComponentTypesKeep(diff: Diff, report: ChangeReport, kinds: seq<string>, c: string)
    requires c !in kinds
    ensures Agrees(report.added, ComponentTypesChanges(diff, report, kinds).added, c)
    ensures Agrees(report.changed, ComponentTypesChanges(diff, report, kinds).changed, c)
    ensures Agrees(report.removed, ComponentTypesChanges(diff, report, kinds).removed, c)
    decreases |kinds|
  {
    if kinds != [] {
      var init := kinds[..|kinds| - 1];
      assert c != kinds[|kinds| - 1];
      assert c !in init by {
        assert forall j :: 0 <= j < |init| ==> init[j] == kinds[j];
      }
      ComponentTypesKeep(diff, report, init, c);
      ComponentTypeKeeps(diff, ComponentTypesChanges(diff, report, init), kinds[|kinds| - 1], c);
    }
  }

  /** Each component type, listed once, gets its own components written. */
  lemma {:induction false} ComponentTypesWrite(diff: Diff, report: ChangeReport, kinds: seq<string>, j: nat)
    requires NoDuplicates(kinds) && j < |kinds|
    ensures Agrees(ComponentTypesChanges(diff, report, kinds).added,
                   Record(report.added, kinds[j], ComponentsIn(diff.itemsAdded, ComponentKey(kinds[j]))), kinds[j])
    ensures Agrees(ComponentTypesChanges(diff, report, kinds).changed,
                   Record(report.changed, kinds[j], ComponentsIn(ChangedKeys(diff), ComponentKey(kinds[j]))), kinds[j])
    ensures Agrees(ComponentTypesChanges(diff, report, kinds).removed,
                   Record(report.removed, kinds[j], ComponentsIn(diff.itemsRemoved, ComponentKey(kinds[j]))), kinds[j])
    decreases |kinds|
  {
    var init := kinds[..|kinds| - 1];
    var last := kinds[|kinds| - 1];
    var r := ComponentTypesChanges(diff, report, init);
    var kind := kinds[j];
    var k := ComponentKey(kind);
    var added, changed, removed := ComponentsIn(diff.itemsAdded, k), ComponentsIn(ChangedKeys(diff), k),
                                   ComponentsIn(diff.itemsRemoved, k);
    var next := ComponentTypeChanges(diff, r, last);
    assert ComponentTypesChanges(diff, report, kinds) == next;
    assert forall i :: 0 <= i < |init| ==> init[i] == kinds[i];
    if j < |kinds| - 1 {
      ComponentTypesWrite(diff, report, init, j);
      assert kind != last;
      ComponentTypeKeeps(diff, r, last, kind);
      AgreesTrans(next.added, r.added, Record(report.added, kind, added), kind);
      AgreesTrans(next.changed, r.changed, Record(report.changed, kind, changed), kind);
      AgreesTrans(next.removed, r.removed, Record(report.removed, kind, removed), kind);
    } else {
      assert kind !in init;
      ComponentTypesKeep(diff, report, init, kind);
      RecordAgrees(r.added, report.added, kind, added);
      RecordAgrees(r.changed, report.changed, kind, changed);
      RecordAgrees(r.removed, report.removed, kind, removed);
    }
  }

  lemma AgreesTrans(a: map<string, seq<string>>, b: map<string, seq<string>>, d: map<string, seq<string>>, c: string)
    requires Agrees(b, a, c) && Agrees(b, d, c)
    ensures Agrees(a, d, c)
  {
  }

  /** Writing a category into two dicts that agree on it leaves them agreeing. */
  lemma RecordAgrees(d: map<string, seq<string>>, e: map<string, seq<string>>, c: string, entries: seq<string>)
    requires Agrees(e, d, c)
    ensures Agrees(Record(d, c, entries), Record(e, c, entries), c)
  {
  }

  /** One pass of the component loop leaves every category but its own type alone. */
  lemma ComponentTypeKeeps(diff: Diff, r: ChangeReport, kind: string, c: string)
    requires c != kind
    ensures Agrees(r.added, ComponentTypeChanges(diff, r, kind).added, c)
    ensures Agrees(r.changed, ComponentTypeChanges(diff, r, kind).changed, c)
    ensures Agrees(r.removed, ComponentTypeChanges(diff, r, kind).removed, c)
  {
  }

  /** `_process_path_changes` writes only `paths`. */
  lemma PathChangesFrame(diff: Diff, report: ChangeReport)
    ensures WellFormed(report) ==> WellFormed(PathChanges(diff, report))
    ensures forall c :: c != "paths" ==>
      Agrees(report.added, PathChanges(diff, report).added, c)
      && Agrees(report.changed, PathChanges(diff, report).changed, c)
      && Agrees(report.removed, PathChanges(diff, report).removed, c)
  {
  }

  /** `_process_operation_changes`, when it does not raise, writes only `operations`. */
  lemma OperationChangesFrame(diff: Diff, previous: Json, report: ChangeReport)
    requires OperationChanges(diff, previous, report).Ok?
    ensures WellFormed(report) ==> WellFormed(OperationChanges(diff, previous, report).value)
    ensures forall c :: c != "operations" ==>
      Agrees(report.added, OperationChanges(diff, previous, report).value.added, c)
      && Agrees(report.changed, OperationChanges(diff, previous, report).value.changed, c)
      && Agrees(report.removed, OperationChanges(diff, previous, report).value.removed, c)
  {
  }

  /** `_process_security_changes` writes only the security categories. */
  lemma SecurityChangesFrame(diff: Diff, report: ChangeReport)
    ensures WellFormed(report) ==> WellFormed(SecurityChanges(diff, report))
    ensures forall c :: c != "security_schemes" ==>
      Agrees(report.added, SecurityChanges(diff, report).added, c)
      && Agrees(report.removed, SecurityChanges(diff, report).removed, c)
    ensures forall c :: c != "global_security" && c != "operation_security" ==>
      Agrees(report.changed, SecurityChanges(diff, report).changed, c)
  {
    var keys := ChangedKeys(diff);
    var globals := Record(report.changed, "global_security", FilterMap(keys, GlobalSecurityOf));
    var changed := Record(globals, "operation_security", FilterMap(keys, OperationSecurityOf));
    assert SecurityChanges(diff, report).changed == changed;
    forall c | c != "global_security" && c != "operation_security"
      ensures Agrees(report.changed, changed, c)
    {
      assert Agrees(report.changed, globals, c) && Agrees(globals, changed, c);
    }
  }

  /** The report before the component step, as the earlier steps leave it. */
  lemma BeforeComponents(diff: Diff, previous: Json)
    requires Categorize(diff, previous).Ok?
    ensures OperationChanges(diff, previous, PathChanges(diff, EmptyReport)).Ok?
    ensures var r2 := OperationChanges(diff, previous, PathChanges(diff, EmptyReport)).value;
      Categorize(diff, previous).value == ComponentChanges(diff, SecurityChanges(diff, r2))
  {
    var r2 := OperationChanges(diff, previous, PathChanges(diff, EmptyReport)).value;
    ParameterChangesWriteNothing(diff, r2);
    RequestResponseChangesWriteNothing(diff, r2);
  }

  /** Only the categories of the first two steps, `paths` and `operations`, are
      present, and no list is empty. */
  ghost predicate EarlyOnly(r: ChangeReport) {
    WellFormed(r)
    && forall c :: (c in r.added || c in r.changed || c in r.removed) ==> c == "paths" || c == "operations"
  }

  lemma PathChangesEarlyOnly(diff: Diff)
    ensures EarlyOnly(PathChanges(diff, EmptyReport))
  {
    PathChangesFrame(diff, EmptyReport);
  }

  lemma OperationChangesEarlyOnly(diff: Diff, previous: Json, report: ChangeReport)
    requires EarlyOnly(report) && OperationChanges(diff, previous, report).Ok?
    ensures EarlyOnly(OperationChanges(diff, previous, report).value)
  {
    OperationChangesFrame(diff, previous, report);
  }

  /** After the path and operation steps no list is empty and no detail or
      security category is present yet. */
  lemma AfterOperations(diff: Diff, previous: Json)
    requires OperationChanges(diff, previous, PathChanges(diff, EmptyReport)).Ok?
    ensures EarlyOnly(OperationChanges(diff, previous, PathChanges(diff, EmptyReport)).value)
  {
    PathChangesEarlyOnly(diff);
    OperationChangesEarlyOnly(diff, previous, PathChanges(diff, EmptyReport));
  }

  /** The component loop leaves every category outside `kinds` alone. */
  lemma ComponentTypesKeepAll(diff: Diff, report: ChangeReport, kinds: seq<string>)
    ensures forall c :: c !in kinds ==>
      Agrees(report.added, ComponentTypesChanges(diff, report, kinds).added, c)
      && Agrees(report.changed, ComponentTypesChanges(diff, report, kinds).changed, c)
      && Agrees(report.removed, ComponentTypesChanges(diff, report, kinds).removed, c)
  {
    forall c | c !in kinds
      ensures Agrees(report.added, ComponentTypesChanges(diff, report, kinds).added, c)
      ensures Agrees(report.changed, ComponentTypesChanges(diff, report, kinds).changed, c)
      ensures Agrees(report.removed, ComponentTypesChanges(diff, report, kinds).removed, c)
    {
      ComponentTypesKeep(diff, report, kinds, c);
    }
  }

  /** No detail category is a component type. */
  lemma DetailsNotComponents()
    ensures "required_parameters" !in ComponentTypes
    ensures "request_formats" !in ComponentTypes && "response_formats" !in ComponentTypes
    ensures "operation_security" !in ComponentTypes
  {
  }

  /** The security and component steps on a report holding only `paths` and
      `operations`. */
  lemma LastSteps(diff: Diff, r2: ChangeReport)
    requires EarlyOnly(r2)
    ensures var rep := ComponentChanges(diff, SecurityChanges(diff, r2));
      WellFormed(rep)
      && "required_parameters" !in rep.added && "required_parameters" !in rep.removed
      && "request_formats" !in rep.changed && "response_formats" !in rep.changed
      && "operation_security" !in rep.changed
  {
    var r5 := SecurityChanges(diff, r2);
    SecurityChangesFrame(diff, r2);
    SecurityChangesReport(diff, r2);
    ComponentTypesWellFormed(diff, r5, ComponentTypes);
    ComponentTypesKeepAll(diff, r5, ComponentTypes);
    DetailsNotComponents();
  }

  /** What `_categorize_changes` reports: never an empty list, and never the
      detail categories (required parameters, request and response formats,
      operation-level security), which all depend on the operation lookup that
      never succeeds. */
  lemma CategorizeOmitsDetails(diff: Diff, previous: Json)
    requires Categorize(diff, previous).Ok?
    ensures WellFormed(Categorize(diff, previous).value)
    ensures "required_parameters" !in Categorize(diff, previous).value.added
    ensures "required_parameters" !in Categorize(diff, previous).value.removed
    ensures "request_formats" !in Categorize(diff, previous).value.changed
    ensures "response_formats" !in Categorize(diff, previous).value.changed
    ensures "operation_security" !in Categorize(diff, previous).value.changed
  {
    BeforeComponents(diff, previous);
    AfterOperations(diff, previous);
    LastSteps(diff, OperationChanges(diff, previous, PathChanges(diff, EmptyReport)).value);
  }

  /** Category `c` of dict `d` holds exactly `entries`: present with them when
      there are any, absent otherwise. */
  predicate Holds(d: map<string, seq<string>>, c: string, entries: seq<string>) {
    (c in d <==> entries != []) && (c in d ==> d[c] == entries)
  }

  /** The categories the steps write, besides the component types. */
  predicate StepCategory(c: string) {
    c == "paths" || c == "operations" || c == "security_schemes" || c == "global_security"
    || c == "operation_security"
  }

  /** The component types are distinct and none is a category of another step. */
  lemma ComponentTypesApart()
    ensures NoDuplicates(ComponentTypes)
    ensures forall t :: t in ComponentTypes ==> !StepCategory(t)
  {
  }

  /** The security and component steps leave a category of the earlier steps alone. */
  lemma LastStepsKeep(diff: Diff, r: ChangeReport, c: string)
    requires c == "paths" || c == "operations"
    ensures var rep := ComponentChanges(diff, SecurityChanges(diff, r));
      Agrees(r.added, rep.added, c) && Agrees(r.changed, rep.changed, c) && Agrees(r.removed, rep.removed, c)
  {
    var r5 := SecurityChanges(diff, r);
    SecurityChangesFrame(diff, r);
    assert Agrees(r.added, r5.added, c) && Agrees(r.changed, r5.changed, c) && Agrees(r.removed, r5.removed, c);
    ComponentTypesApart();
    assert StepCategory(c);
    assert c !in ComponentTypes;
    ComponentTypesKeep(diff, r5, ComponentTypes, c);
  }

  /** `_categorize_changes` raises exactly when the first operation loop does:
      some added location names an operation while the previous specification
      is not a dict or its `paths` is not a container. */
  lemma CategorizeRaises(diff: Diff, previous: Json)
    ensures Categorize(diff, previous).Ok? <==>
      (forall i :: 0 <= i < |diff.itemsAdded| ==> OperationOf(diff.itemsAdded[i]).None?)
      || (PreviousPaths(previous).Ok? && Container(PreviousPaths(previous).value))
  {
    ScanAddedRaises(diff.itemsAdded, previous);
  }

  /** The path step on an empty report writes what `_extract_paths` finds. */
  lemma PathChangesHolds(diff: Diff)
    ensures Holds(PathChanges(diff, EmptyReport).added, "paths", PathsIn(diff.itemsAdded, "paths"))
    ensures Holds(PathChanges(diff, EmptyReport).changed, "paths", PathsIn(ChangedKeys(diff), "paths"))
    ensures Holds(PathChanges(diff, EmptyReport).removed, "paths", PathsIn(diff.itemsRemoved, "paths"))
  {
  }

  /** The steps after the path step leave `paths` alone. */
  lemma AfterPathsKeep(diff: Diff, previous: Json, r1: ChangeReport)
    requires OperationChanges(diff, previous, r1).Ok?
    ensures var rep := ComponentChanges(diff, SecurityChanges(diff, OperationChanges(diff, previous, r1).value));
      Agrees(r1.added, rep.added, "paths") && Agrees(r1.changed, rep.changed, "paths")
      && Agrees(r1.removed, rep.removed, "paths")
  {
    var r2 := OperationChanges(diff, previous, r1).value;
    OperationChangesFrame(diff, previous, r1);
    assert Agrees(r1.added, r2.added, "paths") && Agrees(r1.changed, r2.changed, "paths")
      && Agrees(r1.removed, r2.removed, "paths");
    LastStepsKeep(diff, r2, "paths");
  }

  /** The `paths` categories hold exactly the paths `_extract_paths` finds in the
      added, changed and removed locations. */
  lemma CategorizePaths(diff: Diff, previous: Json)
    requires Categorize(diff, previous).Ok?
    ensures Holds(Categorize(diff, previous).value.added, "paths", PathsIn(diff.itemsAdded, "paths"))
    ensures Holds(Categorize(diff, previous).value.changed, "paths", PathsIn(ChangedKeys(diff), "paths"))
    ensures Holds(Categorize(diff, previous).value.removed, "paths", PathsIn(diff.itemsRemoved, "paths"))
  {
    BeforeComponents(diff, previous);
    PathChangesHolds(diff);
    AfterPathsKeep(diff, previous, PathChanges(diff, EmptyReport));
  }

  /** The `operations` categories: operations on paths the previous
      specification lacked are added; those on paths it had, and then those of
      changed values under a path seen among the added ones, are changed; those
      of removed locations are removed. */
  lemma CategorizeOperations(diff: Diff, previous: Json)
    requires Categorize(diff, previous).Ok?
    ensures Holds(Categorize(diff, previous).value.added, "operations",
                  FilterMap(diff.itemsAdded, item => Bucket(item, previous, false)))
    ensures Holds(Categorize(diff, previous).value.changed, "operations",
                  MergeChanged(ChangedKeys(diff),
                               FilterMap(diff.itemsAdded, item => Bucket(item, previous, true)),
                               FilterMap(diff.itemsAdded, OperationPath)))
    ensures Holds(Categorize(diff, previous).value.removed, "operations",
                  FilterMap(diff.itemsRemoved, OperationName))
  {
    var r1 := PathChanges(diff, EmptyReport);
    BeforeComponents(diff, previous);
    ScanAddedSorts(diff.itemsAdded, previous);
    LastStepsKeep(diff, OperationChanges(diff, previous, r1).value, "operations");
  }

  /** The component step leaves the categories of the other steps alone. */
  lemma ComponentChangesKeep(diff: Diff, r: ChangeReport, c: string)
    requires StepCategory(c)
    ensures Agrees(r.added, ComponentChanges(diff, r).added, c)
    ensures Agrees(r.changed, ComponentChanges(diff, r).changed, c)
    ensures Agrees(r.removed, ComponentChanges(diff, r).removed, c)
  {
    ComponentTypesApart();
    assert c !in ComponentTypes;
    ComponentTypesKeep(diff, r, ComponentTypes, c);
  }

  /** The security step on a report holding only `paths` and `operations`
      writes the security schemes `_extract_components` finds. */
  lemma SecurityChangesHolds(diff: Diff, r: ChangeReport)
    requires EarlyOnly(r)
    ensures Holds(SecurityChanges(diff, r).added, "security_schemes",
                  ComponentsIn(diff.itemsAdded, ComponentKey("securitySchemes")))
    ensures Holds(SecurityChanges(diff, r).removed, "security_schemes",
                  ComponentsIn(diff.itemsRemoved, ComponentKey("securitySchemes")))
  {
    assert "security_schemes" !in r.added && "security_schemes" !in r.removed;
  }

  /** Global security is reported exactly when the top-level `security` value
      changed, always with the fixed marker; security schemes are reported as
      `_extract_components` finds them under `components.securitySchemes`. */
  lemma CategorizeSecurity(diff: Diff, previous: Json)
    requires Categorize(diff, previous).Ok?
    ensures "global_security" in Categorize(diff, previous).value.changed <==> GlobalSecurityKey in ChangedKeys(diff)
    ensures "global_security" in Categorize(diff, previous).value.changed ==>
      forall e :: e in Categorize(diff, previous).value.changed["global_security"] ==> e == GlobalSecurityMarker
    ensures Holds(Categorize(diff, previous).value.added, "security_schemes",
                  ComponentsIn(diff.itemsAdded, ComponentKey("securitySchemes")))
    ensures Holds(Categorize(diff, previous).value.removed, "security_schemes",
                  ComponentsIn(diff.itemsRemoved, ComponentKey("securitySchemes")))
  {
    BeforeComponents(diff, previous);
    AfterOperations(diff, previous);
    var r2 := OperationChanges(diff, previous, PathChanges(diff, EmptyReport)).value;
    var r5 := SecurityChanges(diff, r2);
    assert "global_security" !in r2.changed && "operation_security" !in r2.changed;
    SecurityChangesReport(diff, r2);
    SecurityChangesHolds(diff, r2);
    ComponentChangesKeep(diff, r5, "global_security");
    ComponentChangesKeep(diff, r5, "security_schemes");
  }

  /** After the security step no component type is present yet. */
  lemma SecurityLeavesComponents(diff: Diff, r: ChangeReport, kind: string)
    requires EarlyOnly(r) && kind in ComponentTypes
    ensures kind !in SecurityChanges(diff, r).added
    ensures kind !in SecurityChanges(diff, r).changed
    ensures kind !in SecurityChanges(diff, r).removed
  {
    ComponentTypesApart();
    assert !StepCategory(kind);
    SecurityChangesFrame(diff, r);
    assert Agrees(r.added, SecurityChanges(diff, r).added, kind);
    assert Agrees(r.changed, SecurityChanges(diff, r).changed, kind);
    assert Agrees(r.removed, SecurityChanges(diff, r).removed, kind);
  }

  /** The component step writes, for each component type, the components
      `_extract_components` finds under `components.<type>` into the category
      of that type, in each of the three dicts. */
  lemma ComponentChangesHolds(diff: Diff, r: ChangeReport, j: nat)
    requires j < |ComponentTypes|
    requires ComponentTypes[j] !in r.added && ComponentTypes[j] !in r.changed && ComponentTypes[j] !in r.removed
    ensures Holds(ComponentChanges(diff, r).added, ComponentTypes[j],
                  ComponentsIn(diff.itemsAdded, ComponentKey(ComponentTypes[j])))
    ensures Holds(ComponentChanges(diff, r).changed, ComponentTypes[j],
                  ComponentsIn(ChangedKeys(diff), ComponentKey(ComponentTypes[j])))
    ensures Holds(ComponentChanges(diff, r).removed, ComponentTypes[j],
                  ComponentsIn(diff.itemsRemoved, ComponentKey(ComponentTypes[j])))
  {
    ComponentTypesApart();
    ComponentTypesWrite(diff, r, ComponentTypes, j);
  }

  /** Every component type is reported exactly as `_extract_components` finds
      it in the added, changed and removed locations. */
  lemma CategorizeComponents(diff: Diff, previous: Json, j: nat)
    requires Categorize(diff, previous).Ok? && j < |ComponentTypes|
    ensures Holds(Categorize(diff, previous).value.added, ComponentTypes[j],
                  ComponentsIn(diff.itemsAdded, ComponentKey(ComponentTypes[j])))
    ensures Holds(Categorize(diff, previous).value.changed, ComponentTypes[j],
                  ComponentsIn(ChangedKeys(diff), ComponentKey(ComponentTypes[j])))
    ensures Holds(Categorize(diff, previous).value.removed, ComponentTypes[j],
                  ComponentsIn(diff.itemsRemoved, ComponentKey(ComponentTypes[j])))
  {
    BeforeComponents(diff, previous);
    AfterOperations(diff, previous);
    var r2 := OperationChanges(diff, previous, PathChanges(diff, EmptyReport)).value;
    SecurityLeavesComponents(diff, r2, ComponentTypes[j]);
    ComponentChangesHolds(diff, SecurityChanges(diff, r2), j);
  }

  /** The component loop writes nothing for an empty diff. */
  lemma {:induction false} ComponentTypesNoDiff(report: ChangeReport, kinds: seq<string>)
    ensures ComponentTypesChanges(Diff([], [], []), report, kinds) == report
    decreases |kinds|
  {
    if kinds != [] {
      ComponentTypesNoDiff(report, kinds[..|kinds| - 1]);
      assert ChangedKeys(Diff([], [], [])) == [];
    }
  }

  /** Identical specifications give an empty diff, and an empty diff an empty
      report, whatever the previous specification is. */
  lemma CategorizeNoDiff(previous: Json)
    ensures Categorize(Diff([], [], []), previous) == Ok(EmptyReport)
  {
    var diff := Diff([], [], []);
    assert ChangedKeys(diff) == [];
    var r2 := OperationChanges(diff, previous, PathChanges(diff, EmptyReport));
    assert r2 == Ok(EmptyReport);
    ParameterChangesWriteNothing(diff, EmptyReport);
    RequestResponseChangesWriteNothing(diff, EmptyReport);
    assert SecurityChanges(diff, EmptyReport) == EmptyReport;
    ComponentTypesNoDiff(EmptyReport, ComponentTypes);
  }
}
