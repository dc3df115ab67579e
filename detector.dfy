/** `detect_changes` (diff_detector.py): the entry point that compares the
    current API specification with the previous one.  The structural diff of
    the two specifications is computed by a library that is not modelled; its
    result, or the exception it raises, is an input. */
module Detector {
  import opened Results
  import opened PyJson
  import opened DeepDiffOutput
  import opened Categorizer
  import opened Processing

  /** `key` is absent or holds a dict. */
  predicate DictOrAbsent(fields: seq<(string, Json)>, key: string) {
    Lookup(fields, key).None? || Lookup(fields, key).value.Obj?
  }

  /** The keys of the dict under `key`, none when the key is absent. */
  function KeysUnder(fields: seq<(string, Json)>, key: string): seq<string>
    requires DictOrAbsent(fields, key)
  {
    match Lookup(fields, key)
    case Some(v) => KeysOf(v.fields)
    case None => []
  }

  /** The first-version report.  It succeeds exactly when the current
      specification is a dict whose `paths` and `components` are dicts or
      absent, and whose `components.securitySchemes` is a dict or absent
      (`.get` and `.keys()` on anything else raise `AttributeError`, which
      nothing catches).  It then reports every path key and every security
      scheme key as added, under `paths` and `security_schemes` even when there
      are none, and nothing else. */
  function Bootstrap(current: Json): (r: Result<ChangeReport>)
    ensures r.Ok? <==>
      current.Obj? && DictOrAbsent(current.fields, "paths") && DictOrAbsent(current.fields, "components")
      && (Lookup(current.fields, "components").Some? ==>
            DictOrAbsent(Lookup(current.fields, "components").value.fields, "securitySchemes"))
    ensures r.Ok? ==>
      r.value == ChangeReport(
        map["paths" := KeysUnder(current.fields, "paths"),
            "security_schemes" := if Lookup(current.fields, "components").Some?
                                  then KeysUnder(Lookup(current.fields, "components").value.fields, "securitySchemes")
                                  else []],
        map[], map[])
    ensures r.Raised? ==> r.error == AttributeError
  {
    match current
    case Obj(fields) =>
      var pathKeys :- Keys(GetOr(fields, "paths", Obj([])));
      var schemes :- Get(GetOr(fields, "components", Obj([])), "securitySchemes", Obj([]));
      var schemeKeys :- Keys(schemes);
      Ok(ChangeReport(map["paths" := pathKeys, "security_schemes" := schemeKeys], map[], map[]))
    case _ => Raised(AttributeError)
  }

  /** `any(changes.values())`: some category dict of the report is not empty. */
  predicate Populated(r: ChangeReport) {
    r.added != map[] || r.changed != map[] || r.removed != map[]
  }

  /** `detect_changes(current, previous)`, where `diff` is what the structural
      diff of `previous` and `current` returns or raises.  `Ok(None)` is Python's
      `None`; `Raised` is an exception escaping the call, which only the
      first-version branch, outside the `try`, can let through: with no current
      specification the result is `None`, and a comparison catches every
      exception. */
  function Detect(current: Json, previous: Json, diff: Result<Diff>): (r: Result<Option<ChangeReport>>)
    ensures !Truthy(current) ==> r == Ok(None)
    ensures r.Raised? <==> Truthy(current) && !Truthy(previous) && Bootstrap(current).Raised?
    ensures Truthy(current) && !Truthy(previous) && Bootstrap(current).Ok? ==> r == Ok(Some(Bootstrap(current).value))
  {
    if !Truthy(current) then Ok(None)
    else if !Truthy(previous) then
      var report :- Bootstrap(current);
      Ok(Some(report))
    else
      match diff
      case Raised(_) => Ok(None)
      case Ok(d) =>
        match Categorize(d, previous)
        case Raised(_) => Ok(None)
        case Ok(report) => if Populated(report) then Ok(Some(report)) else Ok(None)
  }

  /** `detect_changes`, running the in-place categorisation. */
  method DetectChanges(current: Json, previous: Json, diff: Result<Diff>) returns (r: Result<Option<ChangeReport>>)
    ensures r == Detect(current, previous, diff)
  {
    if !Truthy(current) {
      return Ok(None);
    }
    if !Truthy(previous) {
      var report := Bootstrap(current);
      if report.Raised? {
        return Raised(report.error);
      }
      return Ok(Some(report.value));
    }
    if diff.Raised? {
      return Ok(None);
    }
    var changes := CategorizeChanges(diff.value, previous);
    if changes.Raised? {
      return Ok(None);
    }
    if Populated(changes.value) {
      r := Ok(Some(changes.value));
    } else {
      r := Ok(None);
    }
  }

  // ------------------------------------------------------------- lemmas

  /** A comparison reports exactly when the diff and the categorisation both
      succeed and some category was written; what it reports is then the
      categorisation. */
  lemma ComparisonReports(current: Json, previous: Json, diff: Result<Diff>)
    requires Truthy(current) && Truthy(previous)
    ensures Detect(current, previous, diff).Ok?
    ensures Detect(current, previous, diff).value.Some? <==>
      diff.Ok? && Categorize(diff.value, previous).Ok? && Populated(Categorize(diff.value, previous).value)
    ensures Detect(current, previous, diff).value.Some? ==>
      Detect(current, previous, diff).value.value == Categorize(diff.value, previous).value
  {
  }

  /** A comparison report holds no empty list, has some category, and never the
      detail categories (required parameters, request and response formats,
      operation-level security). */
  lemma ComparisonReportShape(current: Json, previous: Json, diff: Result<Diff>)
    requires Truthy(current) && Truthy(previous)
    requires Detect(current, previous, diff).Ok? && Detect(current, previous, diff).value.Some?
    ensures var report := Detect(current, previous, diff).value.value;
      WellFormed(report) && Populated(report)
      && "required_parameters" !in report.added && "required_parameters" !in report.removed
      && "request_formats" !in report.changed && "response_formats" !in report.changed
      && "operation_security" !in report.changed
  {
    ComparisonReports(current, previous, diff);
    CategorizeOmitsDetails(diff.value, previous);
  }

  /** Identical specifications: the diff is empty and nothing is reported. */
  lemma IdenticalSpecifications(current: Json, previous: Json)
    requires Truthy(current) && Truthy(previous)
    ensures Detect(current, previous, Ok(Diff([], [], []))) == Ok(None)
  {
    CategorizeNoDiff(previous);
  }

  /** The first-version report of a specification with one path and one
      security scheme. */
  lemma FirstVersionExample()
    ensures Detect(
      Obj([("openapi", Str("3.0.0")),
           ("paths", Obj([("/users", Obj([("get", Obj([]))]))])),
           ("components", Obj([("securitySchemes", Obj([("bearerAuth", Obj([]))]))]))]),
      Null, Raised(DeepDiffError))
      == Ok(Some(ChangeReport(map["paths" := ["/users"], "security_schemes" := ["bearerAuth"]], map[], map[])))
  {
    var paths := Obj([("/users", Obj([("get", Obj([]))]))]);
    var schemes := Obj([("bearerAuth", Obj([]))]);
    var components := Obj([("securitySchemes", schemes)]);
    var fields := [("openapi", Str("3.0.0")), ("paths", paths), ("components", components)];
    assert fields[1..] == [("paths", paths), ("components", components)];
    assert fields[2..] == [("components", components)];
    assert Lookup(fields, "paths") == Some(paths) by {
      assert fields[0].0 != "paths" by { assert fields[0].0[0] != "paths"[0]; }
    }
    assert Lookup(fields, "components") == Some(components) by {
      assert fields[0].0 != "components" by { assert fields[0].0[0] != "components"[0]; }
      assert fields[1].0 != "components" by { assert fields[1].0[0] != "components"[0]; }
    }
    assert KeysOf(paths.fields) == ["/users"];
    assert KeysOf(schemes.fields) == ["bearerAuth"];
    assert Lookup(components.fields, "securitySchemes") == Some(schemes);
  }
}
