/** `_categorize_changes` as the detector runs it: one `changes` dict updated
    in place by the six `_process_*` steps (diff_detector.py).  Each step is a
    method proved to leave the report that its function in `Categorizer`
    computes from the report before it. */
module Processing {
  import opened Results
  import opened PyStr
  import opened PyJson
  import opened Seqs
  import opened DeepDiffOutput
  import opened Extractors
  import opened Categorizer

  /** The `changes` dict: its `added`, `changed` and `removed` sub-dicts, each
      from a category name to the entries found for it. */
  class Changes {
    var added: map<string, seq<string>>
    var changed: map<string, seq<string>>
    var removed: map<string, seq<string>>

    /** The three sub-dicts, as a value. */
    function Report(): ChangeReport
      reads this
    {
      ChangeReport(added, changed, removed)
    }

    /** `{'added': {}, 'changed': {}, 'removed': {}}`. */
    constructor ()
      ensures Report() == EmptyReport
    {
      added, changed, removed := map[], map[], map[];
    }
  }

  /** `_process_path_changes`. */
  method ProcessPathChanges(diff: Diff, changes: Changes)
    modifies changes
    ensures changes.Report() == PathChanges(diff, old(changes.Report()))
  {
    var addedPaths := ExtractPaths(diff.itemsAdded, "paths");
    if addedPaths != [] {
      changes.added := changes.added["paths" := addedPaths];
    }
    var changedPaths := ExtractPaths(ChangedKeys(diff), "paths");
    if changedPaths != [] {
      changes.changed := changes.changed["paths" := changedPaths];
    }
    var removedPaths := ExtractPaths(diff.itemsRemoved, "paths");
    if removedPaths != [] {
      changes.removed := changes.removed["paths" := removedPaths];
    }
  }

  /** Once the first operation loop raises on a prefix of the added locations,
      it raises the same exception on all of them. */
  lemma {:induction false} ScanAddedRaisedEarly(items: seq<string>, previous: Json, k: nat)
    requires k <= |items| && ScanAdded(items[..k], previous).Raised?
    ensures ScanAdded(items, previous) == ScanAdded(items[..k], previous)
    decreases |items| - k
  {
    if k < |items| {
      var init := items[..|items| - 1];
      assert init[..k] == items[..k];
      ScanAddedRaisedEarly(init, previous, k);
    } else {
      assert items[..k] == items;
    }
  }

  /** The first loop of `_process_operation_changes`: the operations of the
      added locations, sorted by whether the previous specification had their
      path, and the paths seen. */
  method ScanAddedOperations(items: seq<string>, previous: Json) returns (r: Result<OperationScan>)
    ensures r == ScanAdded(items, previous)
  {
    var addedOperations: seq<string> := [];
    var changedOperations: seq<string> := [];
    var processedPaths: seq<string> := [];
    var i := 0;
    while i < |items|
      invariant 0 <= i <= |items|
      invariant ScanAdded(items[..i], previous) == Ok(OperationScan(addedOperations, changedOperations, processedPaths))
    {
      assert items[..i + 1][..i] == items[..i];
      ghost var scan := OperationScan(addedOperations, changedOperations, processedPaths);
      match OperationOf(items[i]) {
        case Some(po) =>
          var known := KnownPath(previous, po.0);
          if known.Raised? {
            assert ScanAdded(items[..i + 1], previous) == Raised(known.error);
            ScanAddedRaisedEarly(items, previous, i + 1);
            return Raised(known.error);
          }
          if known.value {
            changedOperations := changedOperations + [po.1];
          } else {
            addedOperations := addedOperations + [po.1];
          }
          processedPaths := processedPaths + [po.0];
        case None =>
          assert ScanAdded(items[..i + 1], previous) == Ok(scan);
      }
      i := i + 1;
    }
    assert items[..|items|] == items;
    r := Ok(OperationScan(addedOperations, changedOperations, processedPaths));
  }

  /** The second loop of `_process_operation_changes`: the operations of the
      removed locations. */
  method RemovedOperations(items: seq<string>) returns (removed: seq<string>)
    ensures removed == FilterMap(items, OperationName)
  {
    removed := [];
    var i := 0;
    while i < |items|
      invariant 0 <= i <= |items|
      invariant removed == FilterMap(items[..i], OperationName)
    {
      FilterMapSnoc(items, i, OperationName);
      match OperationOf(items[i]) {
        case Some(po) => removed := removed + [po.1];
        case None =>
      }
      i := i + 1;
    }
    assert items[..|items|] == items;
  }

  /** The third loop of `_process_operation_changes`: the operations of changed
      values under a processed path join `changed` when not there yet. */
  method MergeChangedOperations(keys: seq<string>, changed: seq<string>, processed: seq<string>)
    returns (merged: seq<string>)
    ensures merged == MergeChanged(keys, changed, processed)
  {
    merged := changed;
    var i := 0;
    while i < |keys|
      invariant 0 <= i <= |keys|
      invariant merged == MergeChanged(keys[..i], changed, processed)
    {
      assert keys[..i + 1][..i] == keys[..i];
      match OperationOf(keys[i]) {
        case Some(po) =>
          if po.1 !in merged && po.0 in processed {
            merged := merged + [po.1];
          }
        case None =>
      }
      i := i + 1;
    }
    assert keys[..|keys|] == keys;
  }

  /** `_process_operation_changes`.  Looking a path up in the previous
      specification may raise; the exception is returned and `changes` is left
      as it was. */
  method ProcessOperationChanges(diff: Diff, previous: Json, changes: Changes) returns (r: Result<()>)
    modifies changes
    ensures OperationChanges(diff, previous, old(changes.Report())).Ok? ==>
      r == Ok(()) && changes.Report() == OperationChanges(diff, previous, old(changes.Report())).value
    ensures OperationChanges(diff, previous, old(changes.Report())).Raised? ==>
      r == Raised(OperationChanges(diff, previous, old(changes.Report())).error)
      && changes.Report() == old(changes.Report())
  {
    var scan := ScanAddedOperations(diff.itemsAdded, previous);
    if scan.Raised? {
      return Raised(scan.error);
    }
    var removedOperations := RemovedOperations(diff.itemsRemoved);
    var changedOperations := MergeChangedOperations(ChangedKeys(diff), scan.value.changed, scan.value.processed);
    if scan.value.added != [] {
      changes.added := changes.added["operations" := scan.value.added];
    }
    if removedOperations != [] {
      changes.removed := changes.removed["operations" := removedOperations];
    }
    if changedOperations != [] {
      changes.changed := changes.changed["operations" := changedOperations];
    }
    r := Ok(());
  }

  /** The first loop of `_process_parameter_changes`: parameters that became
      required, and (the `elif`) parameters that stopped being required. */
  method RequiredParameterChanges(entries: seq<(string, ValueChange)>)
    returns (paramsAdded: seq<string>, paramsRemoved: seq<string>)
    ensures paramsAdded == FilterMap(entries, RequiredAddedOf)
    ensures paramsRemoved == FilterMap(entries, RequiredRemovedOf)
  {
    paramsAdded, paramsRemoved := [], [];
    var i := 0;
    while i < |entries|
      invariant 0 <= i <= |entries|
      invariant paramsAdded == FilterMap(entries[..i], RequiredAddedOf)
      invariant paramsRemoved == FilterMap(entries[..i], RequiredRemovedOf)
    {
      assert entries[..i + 1][..i] == entries[..i];
      var (key, change) := entries[i];
      if Contains(key, "required") && Contains(key, "parameters") {
        if EqualsBool(change.oldValue, false) && EqualsBool(change.newValue, true) {
          var info := ExtractParameterInfo(key);
          match info {
            case Some(p) => if p != "" { paramsAdded := paramsAdded + [p]; }
            case None =>
          }
        } else if EqualsBool(change.oldValue, true) && EqualsBool(change.newValue, false) {
          var info := ExtractParameterInfo(key);
          match info {
            case Some(p) => if p != "" { paramsRemoved := paramsRemoved + [p]; }
            case None =>
          }
        }
      }
      i := i + 1;
    }
    assert entries[..|entries|] == entries;
  }

  /** The second loop of `_process_parameter_changes`: added locations under
      some `parameters`. */
  method NewRequiredParameters(items: seq<string>) returns (found: seq<string>)
    ensures found == FilterMap(items, NewRequiredOf)
  {
    found := [];
    var i := 0;
    while i < |items|
      invariant 0 <= i <= |items|
      invariant found == FilterMap(items[..i], NewRequiredOf)
    {
      FilterMapSnoc(items, i, NewRequiredOf);
      if Contains(items[i], "parameters") {
        var info := CheckIfRequiredParameter(items[i]);
        match info {
          case Some(p) => if p != "" { found := found + [p]; }
          case None =>
        }
      }
      i := i + 1;
    }
    assert items[..|items|] == items;
  }

  /** `_process_parameter_changes`. */
  method ProcessParameterChanges(diff: Diff, changes: Changes)
    modifies changes
    ensures changes.Report() == ParameterChanges(diff, old(changes.Report()))
  {
    var paramsAdded, paramsRemoved := RequiredParameterChanges(diff.valuesChanged);
    var found := NewRequiredParameters(diff.itemsAdded);
    paramsAdded := paramsAdded + found;
    if paramsAdded != [] {
      changes.added := changes.added["required_parameters" := paramsAdded];
    }
    if paramsRemoved != [] {
      changes.removed := changes.removed["required_parameters" := paramsRemoved];
    }
  }

  /** The first loop of `_process_request_response_changes`: changed values under
      a request body or a response's schema or content. */
  method FormatChanges(keys: seq<string>) returns (requests: seq<string>, responses: seq<string>)
    ensures requests == FilterMap(keys, RequestFormatOf)
    ensures responses == FilterMap(keys, ResponseFormatOf)
  {
    requests, responses := [], [];
    var i := 0;
    while i < |keys|
      invariant 0 <= i <= |keys|
      invariant requests == FilterMap(keys[..i], RequestFormatOf)
      invariant responses == FilterMap(keys[..i], ResponseFormatOf)
    {
      assert keys[..i + 1][..i] == keys[..i];
      var key := keys[i];
      if Contains(key, "requestBody") && (Contains(key, "schema") || Contains(key, "content")) {
        var info := ExtractOperationFromKey(key);
        match info {
          case Some(op) => if op != "" { requests := requests + [op]; }
          case None =>
        }
      }
      if Contains(key, "responses") && (Contains(key, "schema") || Contains(key, "content")) {
        var info := ExtractOperationFromKey(key);
        match info {
          case Some(op) => if op != "" { responses := responses + [op]; }
          case None =>
        }
      }
      i := i + 1;
    }
    assert keys[..|keys|] == keys;
  }

  /** The second loop of `_process_request_response_changes`: added content
      types of request bodies, and (the `elif`) of responses. */
  method NewContentTypes(items: seq<string>) returns (requests: seq<string>, responses: seq<string>)
    ensures requests == FilterMap(items, NewRequestContentOf)
    ensures responses == FilterMap(items, NewResponseContentOf)
  {
    requests, responses := [], [];
    var i := 0;
    while i < |items|
      invariant 0 <= i <= |items|
      invariant requests == FilterMap(items[..i], NewRequestContentOf)
      invariant responses == FilterMap(items[..i], NewResponseContentOf)
    {
      assert items[..i + 1][..i] == items[..i];
      var item := items[i];
      if Contains(item, "requestBody") && Contains(item, "content") {
        var info := ExtractOperationFromKey(item);
        match info {
          case Some(op) => if op != "" { requests := requests + [op + " (new content type)"]; }
          case None =>
        }
      } else if Contains(item, "responses") && Contains(item, "content") {
        var info := ExtractOperationFromKey(item);
        match info {
          case Some(op) => if op != "" { responses := responses + [op + " (new content type)"]; }
          case None =>
        }
      }
      i := i + 1;
    }
    assert items[..|items|] == items;
  }

  /** `_process_request_response_changes`; `list(set(...))` is `Distinct`. */
  method ProcessRequestResponseChanges(diff: Diff, changes: Changes)
    modifies changes
    ensures changes.Report() == RequestResponseChanges(diff, old(changes.Report()))
  {
    var requests, responses := FormatChanges(ChangedKeys(diff));
    var newRequests, newResponses := NewContentTypes(diff.itemsAdded);
    requests, responses := requests + newRequests, responses + newResponses;
    if requests != [] {
      changes.changed := changes.changed["request_formats" := Distinct(requests)];
    }
    if responses != [] {
      changes.changed := changes.changed["response_formats" := Distinct(responses)];
    }
  }

  /** The first loop of `_process_security_changes`: one marker per change of
      the top-level `security` value. */
  method GlobalSecurityChanges(keys: seq<string>) returns (found: seq<string>)
    ensures found == FilterMap(keys, GlobalSecurityOf)
  {
    found := [];
    var i := 0;
    while i < |keys|
      invariant 0 <= i <= |keys|
      invariant found == FilterMap(keys[..i], GlobalSecurityOf)
    {
      assert keys[..i + 1][..i] == keys[..i];
      if keys[i] == GlobalSecurityKey {
        found := found + [GlobalSecurityMarker];
      }
      i := i + 1;
    }
    assert keys[..|keys|] == keys;
  }

  /** The second loop of `_process_security_changes`: changed values under some
      operation's `security`. */
  method OperationSecurityChanges(keys: seq<string>) returns (found: seq<string>)
    ensures found == FilterMap(keys, OperationSecurityOf)
  {
    found := [];
    var i := 0;
    while i < |keys|
      invariant 0 <= i <= |keys|
      invariant found == FilterMap(keys[..i], OperationSecurityOf)
    {
      var key := keys[i];
      FilterMapSnoc(keys, i, OperationSecurityOf);
      OperationFromKeyNeverSucceeds(key);
      assert OperationSecurityOf(key) == None;
      if Contains(key, "security") && Contains(key, "paths") {
        var info := ExtractOperationFromKey(key);
        match info {
          case Some(op) => if op != "" { found := found + [op + " security changed"]; }
          case None =>
        }
      }
      i := i + 1;
    }
    assert keys[..|keys|] == keys;
  }

  /** `_process_security_changes`. */
  method ProcessSecurityChanges(diff: Diff, changes: Changes)
    modifies changes
    ensures changes.Report() == SecurityChanges(diff, old(changes.Report()))
  {
    var globalChanges := GlobalSecurityChanges(ChangedKeys(diff));
    var operationChanges := OperationSecurityChanges(ChangedKeys(diff));
    var schemes := ComponentKey("securitySchemes");
    var schemesAdded := ExtractComponents(diff.itemsAdded, schemes);
    var schemesRemoved := ExtractComponents(diff.itemsRemoved, schemes);
    // each `if entries: changes[...][category] = entries` is `Record`
    changes.changed := Record(changes.changed, "global_security", globalChanges);
    changes.changed := Record(changes.changed, "operation_security", operationChanges);
    changes.added := Record(changes.added, "security_schemes", schemesAdded);
    changes.removed := Record(changes.removed, "security_schemes", schemesRemoved);
  }

  /** One pass of the loop of `_process_component_changes`, for component type `kind`. */
  method ProcessComponentType(diff: Diff, changes: Changes, kind: string)
    modifies changes
    ensures changes.Report() == ComponentTypeChanges(diff, old(changes.Report()), kind)
  {
    var compPath := ComponentKey(kind);
    var added := ExtractComponents(diff.itemsAdded, compPath);
    if added != [] {
      changes.added := changes.added[kind := added];
    }
    var changed := ExtractComponents(ChangedKeys(diff), compPath);
    if changed != [] {
      changes.changed := changes.changed[kind := changed];
    }
    var removed := ExtractComponents(diff.itemsRemoved, compPath);
    if removed != [] {
      changes.removed := changes.removed[kind := removed];
    }
  }

  /** One more pass of the component loop is one more step on the report so far. */
  lemma ComponentTypesSnoc(diff: Diff, report: ChangeReport, kinds: seq<string>, i: nat)
    requires i < |kinds|
    ensures ComponentTypesChanges(diff, report, kinds[..i + 1])
      == ComponentTypeChanges(diff, ComponentTypesChanges(diff, report, kinds[..i]), kinds[i])
  {
    assert kinds[..i + 1][..i] == kinds[..i];
  }

  /** `_process_component_changes`, with its loop over the component types. */
  method ProcessComponentChanges(diff: Diff, changes: Changes)
    modifies changes
    ensures changes.Report() == ComponentChanges(diff, old(changes.Report()))
  {
    var kinds := ComponentTypes;
    var i := 0;
    while i < |kinds|
      invariant 0 <= i <= |kinds|
      invariant changes.Report() == ComponentTypesChanges(diff, old(changes.Report()), kinds[..i])
    {
      ProcessComponentType(diff, changes, kinds[i]);
      ComponentTypesSnoc(diff, old(changes.Report()), kinds, i);
      i := i + 1;
    }
    assert kinds[..|kinds|] == kinds;
  }

  /** `_categorize_changes`: a fresh `changes` dict run through the six steps. */
  method CategorizeChanges(diff: Diff, previous: Json) returns (r: Result<ChangeReport>)
    ensures r == Categorize(diff, previous)
  {
    var changes := new Changes();
    ProcessPathChanges(diff, changes);
    var raised := ProcessOperationChanges(diff, previous, changes);
    if raised.Raised? {
      return Raised(raised.error);
    }
    ProcessParameterChanges(diff, changes);
    ProcessRequestResponseChanges(diff, changes);
    ProcessSecurityChanges(diff, changes);
    ProcessComponentChanges(diff, changes);
    r := Ok(changes.Report());
  }
}
