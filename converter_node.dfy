/** nodes/converter_node.py: turns the Rails summary and units into a Django
    blueprint. One synthesis request, at most one repair request when the
    answer does not decode, a fixed fallback blueprint when nothing decodes,
    and at most one refinement request when the blueprint looks incomplete. */
module ConverterNode {
  import opened Text
  import opened Json
  import opened Llm
  import opened State

  const Fence := "```"
  const ViewsDir := "/app/views/"
  const NodeName := "converter_node"

  predicate IsBacktick(c: char) { c == '`' }

  // ---------------------------------------------------------------------
  // _try_parse_json
  // ---------------------------------------------------------------------

  /** The text `_try_parse_json` hands to `json.loads`: trimmed, and when it
      opens with a fence, stripped of backticks on both sides and of a
      leading `json` tag. */
  function StripFence(text: string): string {
    var t := Strip(text);
    if Fence <= t then
      var u := Trim(t, IsBacktick);
      if "json" <= u then Strip(u[4..]) else u
    else t
  }

  /** `_try_parse_json(text)`: the decoded value, or `None` (`JNull`) when decoding fails. */
  function TryParseJson(decode: Decoder, text: string): Json {
    match decode(StripFence(text))
    case Some(v) => v
    case None => JNull
  }

  /** `_repair_json_with_llm` and `_refine_blueprint_with_llm`: one call whose
      stripped answer goes through `_try_parse_json`; a call that raises gives `None`. */
  function AskForJson(model: Model, req: Request, decode: Decoder): Json {
    match Answer(model, req)
    case None => JNull
    case Some(t) => TryParseJson(decode, t)
  }

  /** A trimmed text that is not fenced reaches the decoder unchanged. */
  lemma UnfencedUnchanged(x: string)
    requires Strip(x) == x && !(Fence <= x)
    ensures StripFence(x) == x
  {
  }

  /** A fenced answer is already trimmed, and trimming its backticks leaves what is inside the fences. */
  lemma FenceTrimmed(inner: string)
    requires inner != [] && inner[0] != '`' && inner[|inner| - 1] != '`'
    ensures Strip("```" + inner + "```") == "```" + inner + "```"
    ensures Trim("```" + inner + "```", IsBacktick) == inner
  {
    var text := "```" + inner + "```";
    assert text == "" + text + "";
    TrimPadded("", text, "", IsSpace);
    TrimPadded("```", inner, "```", IsBacktick);
  }

  /** The fenced answer "```json\n<x>\n```" reaches the decoder as exactly `x`,
      for any `x` without surrounding whitespace. */
  lemma FencedJsonUnwrapped(x: string)
    requires x == [] || (!IsSpace(x[0]) && !IsSpace(x[|x| - 1]))
    ensures StripFence("```json\n" + x + "\n```") == x
  {
    var u := "json\n" + x + "\n";
    assert "```json\n" + x + "\n```" == "```" + u + "```";
    FenceTrimmed(u);
    assert "json" <= u;
    assert u[4..] == "\n" + x + "\n";
    TrimPadded("\n", x, "\n", IsSpace);
  }

  /** A fence without the `json` tag only loses its backticks: the newlines stay. */
  lemma FencedPlainUnwrapped(x: string)
    requires x == [] || (!IsSpace(x[0]) && !IsSpace(x[|x| - 1]))
    requires !("json" <= "\n" + x + "\n")
    ensures StripFence("```\n" + x + "\n```") == "\n" + x + "\n"
  {
    var u := "\n" + x + "\n";
    assert "```\n" + x + "\n```" == "```" + u + "```";
    FenceTrimmed(u);
  }

  // ---------------------------------------------------------------------
  // The fallback blueprint
  // ---------------------------------------------------------------------

  const DefaultRequirements: seq<string> := ["Django>=5,<6", "Pillow"]

  /** The minimal blueprint used when nothing decodes. */
  function Fallback(): Json {
    JObj(map[
      "project_name" := JStr("converted_project"),
      "settings_code" := JStr(""),
      "urls_code" := JStr(""),
      "apps" := JArr([]),
      "settings_overrides" := JObj(map["MEDIA" := JBool(true), "STATIC" := JBool(true)]),
      "requirements" := JArr(Strings(DefaultRequirements))])
  }

  // ---------------------------------------------------------------------
  // The refinement trigger
  // ---------------------------------------------------------------------

  /** How many of `items` satisfy `"/app/views/" in f`; an item that is not a
      string, list or dict makes the test raise. */
  function CountViews(items: seq<Json>): Result<nat>
    decreases |items|
  {
    if items == [] then Ok(0)
    else
      var hit :- In(ViewsDir, items[0]);
      var rest :- CountViews(items[1..]);
      Ok((if hit then 1 else 0) + rest)
  }

  /** The number of strings among `files` that contain "/app/views/". */
  function ViewFiles(files: seq<string>): nat
    decreases |files|
  {
    if files == [] then 0 else (if Contains(files[0], ViewsDir) then 1 else 0) + ViewFiles(files[1..])
  }

  /** `len([f for f in rails_summary.get("candidates_to_read", []) if "/app/views/" in f])`.
      A string is iterated by characters, none of which contains the marker;
      a dict is iterated by its keys. */
  function SourceViewCount(summary: Json): Result<nat> {
    var candidates :- Get(summary, "candidates_to_read", JArr([]));
    match candidates
    case JArr(items) => CountViews(items)
    case JStr(_) => Ok(0)
    case JObj(m) => Ok(|set k | k in m && Contains(k, ViewsDir)|)
    case _ => Raise(TypeError)
  }

  /** `sum(len(a.get("templates", [])) for a in apps)`, evaluated in order. */
  function SumTemplates(apps: seq<Json>): Result<nat>
    decreases |apps|
  {
    if apps == [] then Ok(0)
    else
      var templates :- Get(apps[0], "templates", JArr([]));
      var n :- Len(templates);
      var rest :- SumTemplates(apps[1..]);
      Ok(n + rest)
  }

  /** `sum(len(a.get("templates", [])) for a in parsed.get("apps", []))`. */
  function TemplatesCount(parsed: Json): Result<nat> {
    var apps :- Get(parsed, "apps", JArr([]));
    var receivers :- ReceiversOf(apps);
    SumTemplates(receivers)
  }

  const CodeKeys: seq<string> := ["models_code", "views_code", "urls_code", "admin_code"]

  /** `any(t.get("content") == "" for t in templates)`, stopping at the first hit. */
  function AnyEmptyContent(templates: seq<Json>): Result<bool>
    decreases |templates|
  {
    if templates == [] then Ok(false)
    else
      var content :- Get(templates[0], "content", JNull);
      if content == JStr("") then Ok(true) else AnyEmptyContent(templates[1..])
  }

  /** Whether one of `keys` of `app` is exactly the empty string, stopping at the first hit. */
  function AnyEmptyCode(app: Json, keys: seq<string>): Result<bool>
    decreases |keys|
  {
    if keys == [] then Ok(false)
    else
      var code :- Get(app, keys[0], JNull);
      if code == JStr("") then Ok(true) else AnyEmptyCode(app, keys[1..])
  }

  /** The per-app test of `needs_refine`: an empty code field, else an empty template. */
  function AppIncomplete(app: Json): Result<bool> {
    var emptyCode :- AnyEmptyCode(app, CodeKeys);
    if emptyCode then Ok(true)
    else
      var templates :- Get(app, "templates", JArr([]));
      var receivers :- ReceiversOf(templates);
      AnyEmptyContent(receivers)
  }

  function AnyAppIncomplete(apps: seq<Json>): Result<bool>
    decreases |apps|
  {
    if apps == [] then Ok(false)
    else
      var incomplete :- AppIncomplete(apps[0]);
      if incomplete then Ok(true) else AnyAppIncomplete(apps[1..])
  }

  /** `needs_refine`, with Python's short-circuit order. */
  function NeedsRefine(parsed: Json, views: nat, templates: nat): Result<bool> {
    var settings :- Get(parsed, "settings_code", JNull);
    if !Truthy(settings) then Ok(true)
    else
      var urls :- Get(parsed, "urls_code", JNull);
      if !Truthy(urls) then Ok(true)
      else
        var apps :- Get(parsed, "apps", JArr([]));
        var receivers :- ReceiversOf(apps);
        var incomplete :- AnyAppIncomplete(receivers);
        Ok(incomplete || templates < views)
  }

  /** The whole trigger: the two counts, then `needs_refine`. */
  function RefineCheck(summary: Json, parsed: Json): Result<bool> {
    var views :- SourceViewCount(summary);
    var templates :- TemplatesCount(parsed);
    NeedsRefine(parsed, views, templates)
  }

  // ---------------------------------------------------------------------
  // A reference reading of the trigger on well-formed blueprints
  // ---------------------------------------------------------------------

  /** `v[key]` of a dict, with a missing key (or a non-dict) read as `None`. */
  function Field(v: Json, key: string): Json {
    if v.JObj? then Lookup(v.fields, key) else JNull
  }

  /** The list under `key` of a dict, with a missing key read as the empty list. */
  function ListField(v: Json, key: string): seq<Json> {
    if v.JObj? && key in v.fields && v.fields[key].JArr? then v.fields[key].items else []
  }

  /** A dict whose `key` is missing or holds a list of dicts. */
  predicate DictsUnder(v: Json, key: string) {
    v.JObj? && (key !in v.fields || (v.fields[key].JArr? && forall t <- v.fields[key].items :: t.JObj?))
  }

  /** The blueprint shape the synthesis prompt asks for: a dict whose apps
      are dicts whose templates are dicts. */
  predicate WellFormed(bp: Json) {
    DictsUnder(bp, "apps") && forall a <- ListField(bp, "apps") :: DictsUnder(a, "templates")
  }

  /** An app with a code field that is exactly "" or a template whose content is exactly "". */
  predicate Incomplete(app: Json) {
    (exists k <- CodeKeys :: Field(app, k) == JStr(""))
    || (exists t <- ListField(app, "templates") :: t.JObj? && Field(t, "content") == JStr(""))
  }

  function TemplateTotal(apps: seq<Json>): nat
    decreases |apps|
  {
    if apps == [] then 0 else |ListField(apps[0], "templates")| + TemplateTotal(apps[1..])
  }

  lemma {:induction false} AnyEmptyContentSpec(templates: seq<Json>)
    requires forall t <- templates :: t.JObj?
    ensures AnyEmptyContent(templates) == Ok(exists t <- templates :: t.JObj? && Field(t, "content") == JStr(""))
    decreases |templates|
  {
    if templates != [] {
      AnyEmptyContentSpec(templates[1..]);
      assert forall t <- templates :: t == templates[0] || t in templates[1..];
    }
  }

  lemma {:induction false} AnyEmptyCodeSpec(app: Json, keys: seq<string>)
    requires app.JObj?
    ensures AnyEmptyCode(app, keys) == Ok(exists k <- keys :: Field(app, k) == JStr(""))
    decreases |keys|
  {
    if keys != [] {
      assert Get(app, keys[0], JNull) == Ok(Field(app, keys[0]));
      AnyEmptyCodeSpec(app, keys[1..]);
      assert forall k <- keys :: k == keys[0] || k in keys[1..];
    }
  }

  lemma AppIncompleteSpec(app: Json)
    requires DictsUnder(app, "templates")
    ensures AppIncomplete(app) == Ok(Incomplete(app))
  {
    AnyEmptyCodeSpec(app, CodeKeys);
    AnyEmptyContentSpec(ListField(app, "templates"));
  }

  lemma {:induction false} AnyAppIncompleteSpec(apps: seq<Json>)
    requires forall a <- apps :: DictsUnder(a, "templates")
    ensures AnyAppIncomplete(apps) == Ok(exists a <- apps :: a.JObj? && Incomplete(a))
    decreases |apps|
  {
    if apps != [] {
      AppIncompleteSpec(apps[0]);
      AnyAppIncompleteSpec(apps[1..]);
      assert forall a <- apps :: a == apps[0] || a in apps[1..];
    }
  }

  lemma {:induction false} SumTemplatesSpec(apps: seq<Json>)
    requires forall a <- apps :: DictsUnder(a, "templates")
    ensures SumTemplates(apps) == Ok(TemplateTotal(apps))
    decreases |apps|
  {
    if apps != [] {
      var a := apps[0];
      assert DictsUnder(a, "templates");
      assert Get(a, "templates", JArr([])) == Ok(JArr(ListField(a, "templates")));
      SumTemplatesSpec(apps[1..]);
    }
  }

  /** On a well-formed blueprint the template count is the total length of the template lists. */
  lemma TemplatesCountSpec(bp: Json)
    requires WellFormed(bp)
    ensures TemplatesCount(bp) == Ok(TemplateTotal(ListField(bp, "apps")))
  {
    SumTemplatesSpec(ListField(bp, "apps"));
  }

  /** On a well-formed blueprint the trigger fires exactly when the top-level
      settings or urls code is falsy, some app is incomplete, or there are
      fewer Django templates than Rails views. A missing code key is not "". */
  lemma NeedsRefineSpec(bp: Json, views: nat, templates: nat)
    requires WellFormed(bp)
    ensures NeedsRefine(bp, views, templates) == Ok(
      !Truthy(Field(bp, "settings_code")) || !Truthy(Field(bp, "urls_code"))
      || (exists a <- ListField(bp, "apps") :: a.JObj? && Incomplete(a))
      || templates < views)
  {
    AnyAppIncompleteSpec(ListField(bp, "apps"));
  }

  /** On a list of file names, the view count is the number of names containing "/app/views/". */
  lemma {:induction false} CountViewsOfStrings(files: seq<string>)
    ensures CountViews(Strings(files)) == Ok(ViewFiles(files))
    ensures ViewFiles(files) <= |files|
    decreases |files|
  {
    if files != [] {
      CountViewsOfStrings(files[1..]);
      assert Strings(files)[1..] == Strings(files[1..]);
    }
  }

  /** The fallback blueprint always asks for refinement: its settings code is "". */
  lemma FallbackTriggersRefine(summary: Json)
    requires SourceViewCount(summary).Ok?
    ensures RefineCheck(summary, Fallback()) == Ok(true)
  {
    assert TemplatesCount(Fallback()) == Ok(0);
  }

  /** An app that leaves out its code keys entirely, and has no template
      whose content is "", is not incomplete: a missing key is not "". */
  lemma AppWithoutCodeKeysComplete(app: Json)
    requires DictsUnder(app, "templates")
    requires forall k <- CodeKeys :: k !in app.fields
    requires forall t <- ListField(app, "templates") :: Field(t, "content") != JStr("")
    ensures AppIncomplete(app) == Ok(false)
  {
    AppIncompleteSpec(app);
  }

  /** A well-formed blueprint with truthy settings and urls code, enough
      templates, and apps that leave out their code keys and have no empty
      template content does not trigger refinement. */
  lemma MissingKeysDoNotTrigger(bp: Json, views: nat, templates: nat)
    requires WellFormed(bp)
    requires Truthy(Field(bp, "settings_code")) && Truthy(Field(bp, "urls_code")) && views <= templates
    requires forall a <- ListField(bp, "apps") :: forall k <- CodeKeys :: k !in a.fields
    requires forall a <- ListField(bp, "apps") ::
      forall t <- ListField(a, "templates") :: Field(t, "content") != JStr("")
    ensures NeedsRefine(bp, views, templates) == Ok(false)
  {
    NeedsRefineSpec(bp, views, templates);
    forall a <- ListField(bp, "apps") ensures !Incomplete(a) {
      AppWithoutCodeKeysComplete(a);
      AppIncompleteSpec(a);
    }
  }

  /** For instance, an app holding only its name. */
  lemma MissingKeyExample()
    ensures NeedsRefine(
      JObj(map["settings_code" := JStr("S"), "urls_code" := JStr("U"),
               "apps" := JArr([JObj(map["name" := JStr("blog")])])]), 0, 0) == Ok(false)
  {
    var app := JObj(map["name" := JStr("blog")]);
    AppIncompleteSpec(app);
    assert !Incomplete(app);
  }

  // ---------------------------------------------------------------------
  // run
  // ---------------------------------------------------------------------

  /** What `run` produces: the requests it sends, in order, and the blueprint
      it stores, or the exception that escapes before it stores one. */
  datatype Conversion = Conversion(calls: seq<Request>, blueprint: Result<Json>)

  /** The answer to the synthesis request, stripped, or `None` when the call raised. */
  function RawContent(summary: Json, units: Json, model: Model): Option<string> {
    Answer(model, SynthesizeBlueprint(summary, units))
  }

  /** Repair is attempted when the first answer exists, is non-empty and did not decode. */
  predicate Repairs(summary: Json, units: Json, model: Model, decode: Decoder) {
    var raw := RawContent(summary, units, model);
    raw.Some? && raw.value != "" && TryParseJson(decode, raw.value) == JNull
  }

  /** `parsed` after the synthesis, repair and fallback steps. */
  function Draft(summary: Json, units: Json, model: Model, decode: Decoder): Json {
    var raw := RawContent(summary, units, model);
    var parsed := if raw.Some? then TryParseJson(decode, raw.value) else JNull;
    var repaired :=
      if Repairs(summary, units, model, decode) then AskForJson(model, RepairJson(raw.value), decode)
      else parsed;
    if repaired == JNull then Fallback() else repaired
  }

  function Convert(summary: Json, units: Json, model: Model, decode: Decoder): Conversion {
    var raw := RawContent(summary, units, model);
    var first := [SynthesizeBlueprint(summary, units)]
      + (if Repairs(summary, units, model, decode) then [RepairJson(raw.value)] else []);
    var draft := Draft(summary, units, model, decode);
    match RefineCheck(summary, draft)
    case Raise(e) => Conversion(first, Raise(e))
    case Ok(needed) =>
      if !needed then Conversion(first, Ok(draft))
      else
        var refined := AskForJson(model, RefineBlueprint(draft, summary, units), decode);
        Conversion(first + [RefineBlueprint(draft, summary, units)], Ok(if Truthy(refined) then refined else draft))
  }

  /** `state.get(key, {}) or {}`. */
  function Input(fields: map<string, Json>, key: string): Json {
    OrElse(GetOr(fields, key, EmptyDict), EmptyDict)
  }

  method Run(state: ConversionState, model: Model, decode: Decoder)
    returns (outcome: Result<Json>, calls: seq<Request>)
    requires state.Valid()
    modifies state
    ensures state.Valid()
    ensures var c := Convert(Input(old(state.fields), "rails_summary"), Input(old(state.fields), "rails_units"), model, decode);
      outcome == c.blueprint && calls == c.calls
    ensures outcome.Ok? ==>
      state.fields == old(state.fields)["current_node" := JStr(NodeName)]["django_blueprint" := outcome.value]
    ensures outcome.Raise? ==> state.fields == old(state.fields)["current_node" := JStr(NodeName)]
  {
    ghost var before := state.fields;
    state.Set("current_node", JStr(NodeName));
    var railsSummary := OrElse(state.Get("rails_summary", EmptyDict), EmptyDict);
    var railsUnits := OrElse(state.Get("rails_units", EmptyDict), EmptyDict);
    assert railsSummary == Input(before, "rails_summary") && railsUnits == Input(before, "rails_units");

    var rawContent: Option<string> := None;
    var parsed := JNull;
    var request := SynthesizeBlueprint(railsSummary, railsUnits);
    calls := [request];
    var response := model(request);
    if response.Some? {
      rawContent := Some(Strip(response.value));
      parsed := TryParseJson(decode, rawContent.value);
    }

    if parsed == JNull && rawContent.Some? && rawContent.value != "" {
      var repair := RepairJson(rawContent.value);
      calls := calls + [repair];
      parsed := AskForJson(model, repair, decode);
    }

    assert rawContent == RawContent(railsSummary, railsUnits, model);
    assert calls == [request] + (if Repairs(railsSummary, railsUnits, model, decode) then [RepairJson(rawContent.value)] else []);
    if parsed == JNull {
      parsed := Fallback();
    }
    assert parsed == Draft(railsSummary, railsUnits, model, decode);

    var totalRailsViews := SourceViewCount(railsSummary);
    if totalRailsViews.Raise? {
      return Raise(totalRailsViews.error), calls;
    }
    var djangoTemplatesCount := TemplatesCount(parsed);
    if djangoTemplatesCount.Raise? {
      return Raise(djangoTemplatesCount.error), calls;
    }
    var needsRefine := NeedsRefine(parsed, totalRailsViews.value, djangoTemplatesCount.value);
    assert RefineCheck(railsSummary, parsed) == needsRefine;
    if needsRefine.Raise? {
      return Raise(needsRefine.error), calls;
    }

    var refined := JNull;
    if needsRefine.value {
      var refine := RefineBlueprint(parsed, railsSummary, railsUnits);
      calls := calls + [refine];
      refined := AskForJson(model, refine, decode);
      if Truthy(refined) {
        parsed := refined;
      }
    }

    state.Set("django_blueprint", parsed);
    outcome := Ok(parsed);
  }

  // ---------------------------------------------------------------------
  // Properties of run
  // ---------------------------------------------------------------------

  /** After the fallback step the blueprint is never `None`. */
  lemma DraftNeverNone(summary: Json, units: Json, model: Model, decode: Decoder)
    ensures Draft(summary, units, model, decode) != JNull
  {
  }

  /** The synthesis request always goes first, repair is requested at most
      once and exactly when the first answer is non-empty but undecodable,
      and refinement at most once, last. */
  lemma CallShape(summary: Json, units: Json, model: Model, decode: Decoder)
    ensures var c := Convert(summary, units, model, decode);
      1 <= |c.calls| <= 3
      && c.calls[0] == SynthesizeBlueprint(summary, units)
      && ((exists i :: 0 <= i < |c.calls| && c.calls[i].RepairJson?) <==> Repairs(summary, units, model, decode))
      && (forall i :: 0 <= i < |c.calls| && c.calls[i].RepairJson? ==> i == 1)
      && (forall i :: 0 <= i < |c.calls| && c.calls[i].RefineBlueprint? ==> i == |c.calls| - 1)
  {
    var c := Convert(summary, units, model, decode);
    if Repairs(summary, units, model, decode) {
      assert c.calls[1].RepairJson?;
    }
  }

  /** A synthesis call that raises skips repair and falls back. */
  lemma FailedCallFallsBack(summary: Json, units: Json, model: Model, decode: Decoder)
    requires model(SynthesizeBlueprint(summary, units)).None?
    ensures !Repairs(summary, units, model, decode)
    ensures Draft(summary, units, model, decode) == Fallback()
  {
  }

  /** When nothing ever decodes, the stored blueprint is exactly the fallback,
      after one (fruitless) refinement request. */
  lemma NothingDecodes(summary: Json, units: Json, model: Model, decode: Decoder)
    requires forall t :: decode(t).None?
    requires SourceViewCount(summary).Ok?
    ensures Draft(summary, units, model, decode) == Fallback()
    ensures Convert(summary, units, model, decode).blueprint == Ok(Fallback())
    ensures var calls := Convert(summary, units, model, decode).calls;
      calls[|calls| - 1] == RefineBlueprint(Fallback(), summary, units)
  {
    FallbackTriggersRefine(summary);
  }

  /** Refinement replaces the draft only with a truthy answer, and always
      does when refinement was needed and the answer is truthy; otherwise
      the draft is kept. */
  lemma RefineReplacesOnlyWhenTruthy(summary: Json, units: Json, model: Model, decode: Decoder)
    requires Convert(summary, units, model, decode).blueprint.Ok?
    ensures var draft := Draft(summary, units, model, decode);
      var bp := Convert(summary, units, model, decode).blueprint.value;
      var refined := AskForJson(model, RefineBlueprint(draft, summary, units), decode);
      bp == draft || (bp == refined && Truthy(refined)
                      && RefineCheck(summary, draft) == Ok(true))
    ensures var draft := Draft(summary, units, model, decode);
      var refined := AskForJson(model, RefineBlueprint(draft, summary, units), decode);
      RefineCheck(summary, draft) == Ok(true) && Truthy(refined) ==>
        Convert(summary, units, model, decode).blueprint == Ok(refined)
  {
  }
}
