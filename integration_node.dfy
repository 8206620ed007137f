/** nodes/integration_node.py: computes conversion statistics from the
    blueprint, asks the model for a README, writes the requirements file when
    there is none yet, and records where the three artifacts went. */
module IntegrationNode {
  import opened Text
  import opened Json
  import opened Llm
  import opened State
  import ConverterNode

  const NodeName := "integration_node"
  /** The requirements used when the blueprint has none, the same list the converter falls back to. */
  const DefaultRequirements := ConverterNode.DefaultRequirements

  /** `os.path.join(a, b)` on POSIX paths. */
  function PathJoin(a: string, b: string): (p: string)
    ensures "/" <= b ==> p == b
  {
    if "/" <= b then b
    else if a == [] || EndsWith(a, "/") then a + b
    else a + "/" + b
  }

  // ---------------------------------------------------------------------
  // Statistics
  // ---------------------------------------------------------------------

  /** `[app.get("name") for app in apps]`. */
  function AppNames(apps: seq<Json>): Result<seq<Json>>
    decreases |apps|
  {
    if apps == [] then Ok([])
    else
      var name :- Get(apps[0], "name", JNull);
      var rest :- AppNames(apps[1..]);
      Ok([name] + rest)
  }

  /** `sum(1 for app in apps if app.get(key))`. */
  function CountTruthy(apps: seq<Json>, key: string): Result<nat>
    decreases |apps|
  {
    if apps == [] then Ok(0)
    else
      var v :- Get(apps[0], key, JNull);
      var rest :- CountTruthy(apps[1..], key);
      Ok((if Truthy(v) then 1 else 0) + rest)
  }

  datatype Stats = Stats(
    railsFilesAnalyzed: nat, djangoFilesGenerated: nat, apps: seq<Json>,
    modelsCount: nat, viewsCount: nat, templatesCount: nat)
  {
    function ToJson(): Json {
      JObj(map[
        "rails_files_analyzed" := JNum(railsFilesAnalyzed),
        "django_files_generated" := JNum(djangoFilesGenerated),
        "apps" := JArr(apps),
        "models_count" := JNum(modelsCount),
        "views_count" := JNum(viewsCount),
        "templates_count" := JNum(templatesCount)])
    }
  }

  /** The `stats` entry of the conversion summary, evaluated in the order
      of the source: names, models, views, templates, then the two lengths. */
  function ComputeStats(blueprint: Json, generated: Json, filesToRead: Json): Result<Stats> {
    var appsValue :- Get(blueprint, "apps", EmptyList);
    var apps :- ReceiversOf(appsValue);
    var names :- AppNames(apps);
    var models :- CountTruthy(apps, "models_code");
    var views :- CountTruthy(apps, "views_code");
    var templates :- ConverterNode.TemplatesCount(blueprint);
    var analyzed :- Len(filesToRead);
    var produced :- Len(generated);
    Ok(Stats(analyzed, produced, names, models, views, templates))
  }

  /** The names are read one per app, in blueprint order. */
  lemma {:induction false} AppNamesSpec(apps: seq<Json>)
    requires forall a <- apps :: a.JObj?
    ensures AppNames(apps).Ok?
    ensures |AppNames(apps).value| == |apps|
    ensures forall i :: 0 <= i < |apps| ==> AppNames(apps).value[i] == Lookup(apps[i].fields, "name")
    decreases |apps|
  {
    if apps != [] {
      AppNamesSpec(apps[1..]);
    }
  }

  /** A count of apps never exceeds the number of apps. */
  lemma {:induction false} CountTruthyBounded(apps: seq<Json>, key: string)
    ensures CountTruthy(apps, key).Ok? ==> CountTruthy(apps, key).value <= |apps|
    decreases |apps|
  {
    if apps != [] {
      CountTruthyBounded(apps[1..], key);
    }
  }

  /** The statistics agree with the blueprint: one name per app, both code
      counts bounded by the number of apps, and the template count is the
      converter's template count. */
  lemma StatsSpec(blueprint: Json, generated: Json, filesToRead: Json)
    requires ComputeStats(blueprint, generated, filesToRead).Ok?
    ensures var st := ComputeStats(blueprint, generated, filesToRead).value;
      && |st.apps| == |ReceiversOf(Get(blueprint, "apps", EmptyList).value).value|
      && st.modelsCount <= |st.apps| && st.viewsCount <= |st.apps|
      && ConverterNode.TemplatesCount(blueprint) == Ok(st.templatesCount)
      && Len(filesToRead) == Ok(st.railsFilesAnalyzed) && Len(generated) == Ok(st.djangoFilesGenerated)
  {
    var apps := ReceiversOf(Get(blueprint, "apps", EmptyList).value).value;
    CountTruthyBounded(apps, "models_code");
    CountTruthyBounded(apps, "views_code");
    AppNamesLength(apps);
  }

  lemma {:induction false} AppNamesLength(apps: seq<Json>)
    ensures AppNames(apps).Ok? ==> |AppNames(apps).value| == |apps|
    decreases |apps|
  {
    if apps != [] {
      AppNamesLength(apps[1..]);
    }
  }

  /** A missing or `None` file list counts as empty. */
  lemma MissingListCountsZero(fields: map<string, Json>, key: string)
    requires key !in fields || !Truthy(fields[key])
    ensures Len(OrElse(GetOr(fields, key, EmptyList), EmptyList)) == Ok(0)
  {
  }

  // ---------------------------------------------------------------------
  // requirements.txt
  // ---------------------------------------------------------------------

  /** `"\n".join(items)` over the elements of a list: every element must be a string. */
  function JoinStrings(items: seq<Json>): Result<string>
    decreases |items|
  {
    if items == [] then Ok("")
    else if !items[0].JStr? then Raise(TypeError)
    else if |items| == 1 then Ok(items[0].s)
    else
      var rest :- JoinStrings(items[1..]);
      Ok(items[0].s + "\n" + rest)
  }

  /** The text of `requirements.txt`: `"\n".join(blueprint.get("requirements") or default)`.
      A string joins its characters; a non-empty dict would join its keys in
      insertion order, which a map does not record. */
  function RequirementsText(blueprint: Json): Result<string> {
    var declared :- Get(blueprint, "requirements", JNull);
    var reqs := OrElse(declared, JArr(Strings(DefaultRequirements)));
    match reqs
    case JArr(items) => JoinStrings(items)
    case JStr(s) => Ok(Join("\n", seq(|s|, i requires 0 <= i < |s| => [s[i]])))
    case JObj(_) => Raise(KeyOrderNotModelled)
    case _ => Raise(TypeError)
  }

  lemma {:induction false} JoinStringsSpec(ss: seq<string>)
    ensures JoinStrings(Strings(ss)) == Ok(Join("\n", ss))
    decreases |ss|
  {
    if |ss| > 1 {
      assert Strings(ss)[1..] == Strings(ss[1..]);
      JoinStringsSpec(ss[1..]);
    }
  }

  /** A blueprint without (truthy) requirements gets Django 5 and Pillow, one per line. */
  lemma RequirementsFallback(blueprint: Json)
    requires blueprint.JObj? && !Truthy(Lookup(blueprint.fields, "requirements"))
    ensures RequirementsText(blueprint) == Ok("Django>=5,<6\nPillow")
  {
    var declared := Lookup(blueprint.fields, "requirements");
    assert Get(blueprint, "requirements", JNull) == Ok(declared);
    assert OrElse(declared, JArr(Strings(DefaultRequirements))) == JArr(Strings(DefaultRequirements));
    JoinStringsSpec(DefaultRequirements);
    assert DefaultRequirements[1..] == ["Pillow"];
    assert Join("\n", DefaultRequirements) == "Django>=5,<6" + "\n" + "Pillow" == "Django>=5,<6\nPillow";
    assert RequirementsText(blueprint) == JoinStrings(Strings(DefaultRequirements));
  }

  /** A list of requirement strings is written one per line, in order. */
  lemma RequirementsListed(blueprint: Json, ss: seq<string>)
    requires blueprint.JObj? && ss != [] && Lookup(blueprint.fields, "requirements") == JArr(Strings(ss))
    ensures RequirementsText(blueprint) == Ok(Join("\n", ss))
  {
    JoinStringsSpec(ss);
  }

  // ---------------------------------------------------------------------
  // run
  // ---------------------------------------------------------------------

  /** What the node writes: the summary, the README, and the requirements
      text when the requirements file did not exist yet. */
  datatype Outputs = Outputs(
    summaryPath: string, summary: Json, readmePath: string, readme: string,
    requirementsPath: string, requirements: Option<string>)
  {
    /** The value stored in `state.integration`. */
    function Record(): Json {
      JObj(map["readme" := JStr(readmePath), "summary" := JStr(summaryPath), "requirements" := JStr(requirementsPath)])
    }
  }

  function Attr(fields: map<string, Json>, key: string, default: Json): Json {
    GetOr(fields, key, default)
  }

  /** `getattr(state, key, default) or default`. */
  function AttrOr(fields: map<string, Json>, key: string, default: Json): Json {
    OrElse(GetOr(fields, key, default), default)
  }

  /** The project root: the state's when set, else `<output_dir>/converted_project`. */
  function ProjectRoot(fields: map<string, Json>, outputDir: string): Result<string> {
    var root := GetOr(fields, "project_root", JNull);
    if !Truthy(root) then Ok(PathJoin(outputDir, "converted_project"))
    else if root.JStr? then Ok(root.s)
    else Raise(TypeError)
  }

  /** The conversion summary written to disk and embedded in the README prompt. */
  function SummaryJson(fields: map<string, Json>, now: string, outputDir: string, root: string, stats: Stats): Json {
    JObj(map[
      "timestamp" := JStr(now),
      "input_dir" := Attr(fields, "input_dir", JNull),
      "output_dir" := JStr(outputDir),
      "project_root" := JStr(root),
      "rails_summary" := Attr(fields, "rails_summary", EmptyDict),
      "rails_units" := AttrOr(fields, "rails_units", EmptyDict),
      "django_blueprint" := AttrOr(fields, "django_blueprint", EmptyDict),
      "generated_files" := AttrOr(fields, "generated_files", EmptyList),
      "stats" := stats.ToJson()])
  }

  /** What the node works out before it asks the model: the output
      directory, the project root, the blueprint and its statistics. */
  datatype Plan = Plan(outputDir: string, root: string, blueprint: Json, stats: Stats)

  /** The steps of the node before the README request; any of them can raise. */
  function Prepare(fields: map<string, Json>): Result<Plan> {
    var outputDirValue := GetOr(fields, "output_dir", JNull);
    if !outputDirValue.JStr? then Raise(TypeError)
    else
      var outputDir := outputDirValue.s;
      var root :- ProjectRoot(fields, outputDir);
      var blueprint := AttrOr(fields, "django_blueprint", EmptyDict);
      var stats :- ComputeStats(blueprint, AttrOr(fields, "generated_files", EmptyList), AttrOr(fields, "files_to_read", EmptyList));
      Ok(Plan(outputDir, root, blueprint, stats))
  }

  /** The node as a function of the state it reads, the model, the clock and
      whether `requirements.txt` already exists; the model call is the only
      request it sends. */
  function Integrate(fields: map<string, Json>, model: Model, now: string, reqsExists: bool): Result<Outputs> {
    var plan :- Prepare(fields);
    var summary := SummaryJson(fields, now, plan.outputDir, plan.root, plan.stats);
    var readme := Answer(model, WriteReadme(summary));
    if readme.None? then Raise(ModelCallFailed)
    else
      var reqPath := PathJoin(plan.root, "requirements.txt");
      var reqs :- if reqsExists then Ok(None) else
        var text :- RequirementsText(plan.blueprint); Ok(Some(text));
      Ok(Outputs(PathJoin(plan.outputDir, "conversion_summary.json"), summary,
                 PathJoin(plan.outputDir, "README.md"), readme.value, reqPath, reqs))
  }

  /** The node's own `current_node` write changes nothing it reads afterwards. */
  lemma PrepareIgnoresMarker(fields: map<string, Json>, v: Json)
    ensures Prepare(fields["current_node" := v]) == Prepare(fields)
  {
  }

  lemma SummaryIgnoresMarker(fields: map<string, Json>, v: Json, now: string, outputDir: string, root: string, stats: Stats)
    ensures SummaryJson(fields["current_node" := v], now, outputDir, root, stats) == SummaryJson(fields, now, outputDir, root, stats)
  {
  }

  /** The part of `run` before the README request, reading the state. */
  method ReadPlan(state: ConversionState) returns (plan: Result<Plan>)
    ensures plan == Prepare(state.fields)
  {
    var outputDirValue := state.Get("output_dir", JNull);
    if !outputDirValue.JStr? {
      return Raise(TypeError);
    }
    var outputDir := outputDirValue.s;
    var rootValue := state.Get("project_root", JNull);
    var projectRoot: string;
    if !Truthy(rootValue) {
      projectRoot := PathJoin(outputDir, "converted_project");
    } else if rootValue.JStr? {
      projectRoot := rootValue.s;
    } else {
      return Raise(TypeError);
    }
    assert ProjectRoot(state.fields, outputDir) == Ok(projectRoot);
    var blueprint := OrElse(state.Get("django_blueprint", EmptyDict), EmptyDict);
    var generatedFiles := OrElse(state.Get("generated_files", EmptyList), EmptyList);
    var filesToRead := OrElse(state.Get("files_to_read", EmptyList), EmptyList);
    var stats := ComputeStats(blueprint, generatedFiles, filesToRead);
    if stats.Raise? {
      return Raise(stats.error);
    }
    plan := Ok(Plan(outputDir, projectRoot, blueprint, stats.value));
  }

  method Run(state: ConversionState, model: Model, now: string, reqsExists: bool)
    returns (outcome: Result<Outputs>, calls: seq<Request>)
    requires state.Valid()
    modifies state
    ensures state.Valid()
    ensures outcome == Integrate(old(state.fields), model, now, reqsExists)
    ensures |calls| <= 1 && (calls != [] <==> Prepare(old(state.fields)).Ok?)
    ensures outcome.Ok? ==>
      state.fields == old(state.fields)["current_node" := JStr(NodeName)]["integration" := outcome.value.Record()]
    ensures outcome.Raise? ==> state.fields == old(state.fields)["current_node" := JStr(NodeName)]
  {
    ghost var before := state.fields;
    state.Set("current_node", JStr(NodeName));
    calls := [];
    var prepared := ReadPlan(state);
    PrepareIgnoresMarker(before, JStr(NodeName));
    if prepared.Raise? {
      return Raise(prepared.error), calls;
    }
    var plan := prepared.value;
    var summary := SummaryJson(state.fields, now, plan.outputDir, plan.root, plan.stats);
    SummaryIgnoresMarker(before, JStr(NodeName), now, plan.outputDir, plan.root, plan.stats);
    var summaryPath := PathJoin(plan.outputDir, "conversion_summary.json");

    var request := WriteReadme(summary);
    calls := [request];
    var response := model(request);
    if response.None? {
      return Raise(ModelCallFailed), calls;
    }
    var readmeText := Strip(response.value);
    var readmePath := PathJoin(plan.outputDir, "README.md");

    var reqPath := PathJoin(plan.root, "requirements.txt");
    var written: Option<string> := None;
    if !reqsExists {
      var reqs := RequirementsText(plan.blueprint);
      if reqs.Raise? {
        return Raise(reqs.error), calls;
      }
      written := Some(reqs.value);
    }

    var outputs := Outputs(summaryPath, summary, readmePath, readmeText, reqPath, written);
    state.Set("integration", outputs.Record());
    outcome := Ok(outputs);
  }

  /** The recorded integration holds exactly the three artifact paths. */
  lemma RecordKeys(o: Outputs)
    ensures o.Record().JObj? && o.Record().fields.Keys == {"readme", "summary", "requirements"}
  {
  }

  /** The requirements file is produced exactly when it did not exist, and
      then from the blueprint's requirements; the README and summary go to
      the output directory. */
  lemma IntegrateOutputs(fields: map<string, Json>, model: Model, now: string, reqsExists: bool)
    requires Integrate(fields, model, now, reqsExists).Ok?
    ensures var o := Integrate(fields, model, now, reqsExists).value;
      var outputDir := fields["output_dir"].s;
      && o.readmePath == PathJoin(outputDir, "README.md")
      && o.summaryPath == PathJoin(outputDir, "conversion_summary.json")
      && (o.requirements.Some? <==> !reqsExists)
      && (o.requirements.Some? ==> RequirementsText(AttrOr(fields, "django_blueprint", EmptyDict)) == Ok(o.requirements.value))
      && Answer(model, WriteReadme(o.summary)) == Some(o.readme)
  {
  }
}
