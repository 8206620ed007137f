# Rails → Django converter: a Dafny model of its core

The converter is a five-stage pipeline: planner, discovery, converter,
builder, integration. Each stage mutates one shared `ConversionState`.

- The discovery stage summarises a Rails file tree and analyses selected
  source files with a language model (`tools/rails_parser.py`).
- The converter asks the model for a Django blueprint, repairs or replaces
  undecodable answers, and decides whether to ask for a refinement
  (`nodes/converter_node.py`).
- The integration stage computes statistics, asks for a README and writes
  `requirements.txt` (`nodes/integration_node.py`).
- Templates are renamed from `.erb` to `.html` and converted by the model
  (`tools/template_converter.py`).

Every model call is an oracle `Request -> Option<string>`. `None` stands for
a call that raised: a transport error, missing credentials, or no text in
the answer. `json.loads` is an oracle `string -> Option<Json>`, and
`json.dumps` of a batch is a parameter. The model covers Python behaviour
the code relies on:

- falsy values (`x or default`);
- `dict.get` on a value that is not a dict (`AttributeError`);
- `len` and `in` on strings, lists and dicts;
- iterating a string or dict and calling `.get` on its items.

Each of these is an explicit `Result`.

Modules:

- `Text`: `str.strip`, `strip(chars)`, `endswith`, `in`, `join`.
- `Json`: JSON values, Python errors, and the Python helpers listed above.
- `Llm`: the request kinds, a run of calls that stops at the first one
  that raises, and decoding.
- `RailsParser`: `summarize_structure` and `analyze_units`. Both are loops
  over slices of 150 files or 20 units. Each is a method proved equal to a
  specification function, and the properties are lemmas about those
  functions.
- `State`: `ConversionState`, a class holding one attribute map, with
  `get`, `set`, `[]`, `in` and `update`.
- `ConverterNode`: `_try_parse_json`, repair, fallback, the refinement
  trigger, and `run`. `run` is a method proved equal to the function
  `Convert`.
- `IntegrationNode`: statistics, the requirements text, and `run`.
- `TemplateConverter`: POSIX `os.path.splitext`, `convert_filename`, and
  `convert_template_with_llm`.
- `Graph`: the stage order as a successor function, the `StateGraph`
  builder, and each stage's `current_node` write.

The model follows the code as written; in particular:

- A model call that raises inside `summarize_structure` or `analyze_units`
  is not caught there: it propagates (`ModelCallFailed`).
- A failed first synthesis call in the converter is caught. The node then
  falls back to the minimal blueprint.
- The per-app completeness test compares with `""`. So an app that omits a
  code key altogether does not trigger refinement (`MissingKeysDoNotTrigger`).

## Model

| member | source | states |
|---|---|---|
| Llm.Answers | tools/rails_parser.py:37-58 | the texts of successive calls are the stripped answers, and they stop exactly at the first call that raises |
| Llm.CallsMade | tools/rails_parser.py:37-58 | the requests sent are a prefix of those planned: up to and including the one that raised |
| Llm.DecodeAll | tools/rails_parser.py:58-63 | each answer becomes its decoded value, or the `invalid_json` error record holding the raw text |
| Llm.DecodeAllAppend | tools/rails_parser.py:60-63 | decoding one more answer appends exactly one more value |
| Text.TrimPadded | nodes/converter_node.py:20-24 | `strip` removes padding on both sides and keeps the text between intact |
| RailsParser.ChunksCount | tools/rails_parser.py:33-34 | there are ⌈n / size⌉ slices |
| RailsParser.ChunkAt | tools/rails_parser.py:37-40 | slice `i` is `all_files[i*size : i*size+size]` |
| RailsParser.ChunksPartition | tools/rails_parser.py:37-40 | the slices are non-empty, at most `size` long, and concatenate back to the whole list |
| RailsParser.CollectFailsWithTypeError | tools/rails_parser.py:67-70 | the only way the merge fails is a `TypeError` |
| RailsParser.MergeKeysSpec | tools/rails_parser.py:65-70 | the merge succeeds exactly when every key's accumulation succeeds, and then yields one list per key |
| RailsParser.CollectFailsAt | tools/rails_parser.py:67-70 | one answer that fails for a key makes the whole merge fail |
| RailsParser.CollectAppend | tools/rails_parser.py:67-70 | merging two runs of answers concatenates their lists in order |
| RailsParser.ErrorRecordAddsNothing | tools/rails_parser.py:60-70 | the error record of an undecodable answer adds nothing under any key |
| RailsParser.CollectOne | tools/rails_parser.py:67-70 | a single answer contributes exactly its own list |
| RailsParser.BadAnswerSkipped | tools/rails_parser.py:60-70 | an undecodable answer between others is skipped, and merging goes on past it |
| RailsParser.Merge | tools/rails_parser.py:65-70 | the in-place `extend` loop computes `MergeKeys` |
| RailsParser.ChunkRequests | tools/rails_parser.py:37-56 | one classification request per slice |
| RailsParser.ChunkRequestAt | tools/rails_parser.py:37-47 | request `i` is numbered `i+1` of the total and carries slice `i` |
| RailsParser.CallFailsAt | tools/rails_parser.py:49-58 | a call that raises after `i` answered calls ends the run, and it was the last request sent |
| RailsParser.CallAnswered | tools/rails_parser.py:49-58 | an answered call extends the texts by its stripped answer |
| RailsParser.SummaryAllAnswered | tools/rails_parser.py:37-75 | with every call answered, the summary is the merge of all decoded answers, and every request was sent |
| RailsParser.SummaryOfMerge | tools/rails_parser.py:65-75 | the summary fails exactly as the merge does; otherwise it holds the four merged lists in key order and the candidates |
| RailsParser.SummarizeStructure | tools/rails_parser.py:22-75 | the loop returns the specified summary (or error) and sends exactly the specified requests |
| RailsParser.EmptyTreeSummary | tools/rails_parser.py:29-31 | an empty file list gives the all-empty summary and sends nothing |
| RailsParser.CandidatesSpec | tools/rails_parser.py:72-74 | the candidates are exactly the listed files ending in `.rb`, `.erb` or `.haml` |
| RailsParser.CandidatesAppend | tools/rails_parser.py:72-74 | the filter distributes over concatenation, so it keeps the listed files' order and repetitions |
| RailsParser.SummaryCallsAllAnswered | tools/rails_parser.py:33-56 | when no call raises, ⌈n/150⌉ requests go out in slice order |
| RailsParser.CollectUndecodable | tools/rails_parser.py:60-70 | answers that never decode contribute nothing |
| RailsParser.UndecodableSummary | tools/rails_parser.py:58-75 | undecodable answers give empty lists, but the candidates are still proposed |
| RailsParser.Truncate | tools/rails_parser.py:111 | `s[:n]` is the prefix of `s` of length `min(len(s), n)`, so all of `s` when `s` is short enough |
| RailsParser.TruncateContents | tools/rails_parser.py:101 | every path is kept in order, and every content becomes its prefix of length `min(len(content), 80000)` |
| RailsParser.BatchRequests | tools/rails_parser.py:99-121 | one extraction request per batch of 20 units |
| RailsParser.BatchRequestAt | tools/rails_parser.py:99-112 | request `i` carries the serialised batch `units[i*20:(i+1)*20]`, with each content truncated and the payload cut to 12000 characters |
| RailsParser.AnalysisAllAnswered | tools/rails_parser.py:99-138 | with every call answered, the analysis is the merge of all decoded answers |
| RailsParser.AnalysisOfMerge | tools/rails_parser.py:131-138 | the analysis fails exactly as the merge does; otherwise it holds the five merged lists in key order |
| RailsParser.AnalyzeUnits | tools/rails_parser.py:81-138 | the loop returns the specified analysis (or error) and sends exactly the specified requests |
| RailsParser.EmptyUnitsAnalysis | tools/rails_parser.py:91-92 | no units give the all-empty analysis and no request |
| RailsParser.PayloadBounded | tools/rails_parser.py:110-111 | every request embeds at most 12000 characters of payload |
| RailsParser.AnalysisCallsAllAnswered | tools/rails_parser.py:94-121 | when no call raises, ⌈n/20⌉ requests go out in batch order |
| RailsParser.UndecodableAnalysis | tools/rails_parser.py:123-138 | undecodable answers give the all-empty analysis |
| State.InitialFields | state.py:10-32 | a new state holds both paths, and every optional field is `None` |
| State.ConversionState.Get | state.py:38-40 | an existing attribute, else the default |
| State.ConversionState.Item | state.py:46-48 | an existing attribute, else `AttributeError` |
| State.ConversionState.Has | state.py:54-56 | `key in state` holds exactly when `state[key]` does not raise |
| State.ConversionState.Set | state.py:42-44 | creates or overwrites exactly one attribute, and keeps every declared field |
| State.ConversionState.SetItem | state.py:50-52 | the same as `Set` |
| State.ConversionState.Update | state.py:58-63 | every entry of `data` and then `kwargs` becomes an attribute, with `kwargs` winning; a non-empty `data` is mutated to include `kwargs`, and an empty one is left alone |
| ConverterNode.UnfencedUnchanged | nodes/converter_node.py:18-28 | a trimmed text without a fence reaches the decoder unchanged |
| ConverterNode.FenceTrimmed | nodes/converter_node.py:20-22 | a fenced text loses exactly its backtick fences |
| ConverterNode.FencedJsonUnwrapped | nodes/converter_node.py:18-26 | the fenced answer "```json\n x \n```" is decoded from exactly `x` |
| ConverterNode.FencedPlainUnwrapped | nodes/converter_node.py:20-24 | a fence without the `json` tag keeps its inner newlines |
| ConverterNode.CountViewsOfStrings | nodes/converter_node.py:184-188 | on file names, the Rails view count is the number containing `/app/views/` |
| ConverterNode.AnyEmptyContentSpec | nodes/converter_node.py:199 | some template's content is exactly `""` |
| ConverterNode.AnyEmptyCodeSpec | nodes/converter_node.py:195-198 | some code key of the app is exactly `""` |
| ConverterNode.AppIncompleteSpec | nodes/converter_node.py:194-199 | the per-app test equals the reference predicate `Incomplete` |
| ConverterNode.AnyAppIncompleteSpec | nodes/converter_node.py:194-201 | the `any` over apps holds exactly when some app is incomplete |
| ConverterNode.SumTemplatesSpec | nodes/converter_node.py:189 | the Django template count is the sum of template-list lengths |
| ConverterNode.TemplatesCountSpec | nodes/converter_node.py:189 | the same on a well-formed blueprint |
| ConverterNode.NeedsRefineSpec | nodes/converter_node.py:191-203 | refinement is needed exactly when top-level settings or urls code is falsy, some app is incomplete, or there are fewer templates than Rails views |
| ConverterNode.FallbackTriggersRefine | nodes/converter_node.py:171-203 | the fallback blueprint always triggers refinement |
| ConverterNode.AppWithoutCodeKeysComplete | nodes/converter_node.py:194-201 | any app dict that omits every code key and has no template with content `""` passes the completeness test |
| ConverterNode.MissingKeysDoNotTrigger | nodes/converter_node.py:191-203 | any well-formed blueprint with truthy settings and urls code, at least as many templates as views, and apps that omit their code keys and have no empty template content does not trigger refinement |
| ConverterNode.MissingKeyExample | nodes/converter_node.py:191-203 | a blueprint whose one app holds only its name does not trigger refinement |
| ConverterNode.Run | nodes/converter_node.py:102-220 | the node sends the requests of `Convert` and stores its blueprint; only `current_node` and `django_blueprint` change, and an exception leaves only `current_node` written |
| ConverterNode.DraftNeverNone | nodes/converter_node.py:171-181 | after the fallback step the blueprint is never `None` |
| ConverterNode.CallShape | nodes/converter_node.py:140-210 | synthesis goes first; repair is sent exactly when the first answer is non-empty and undecodable, at most once and right after synthesis; refinement, if sent, is last; at most three requests |
| ConverterNode.FailedCallFallsBack | nodes/converter_node.py:143-181 | a synthesis call that raises skips repair and falls back |
| ConverterNode.NothingDecodes | nodes/converter_node.py:140-210 | when nothing decodes, the stored blueprint is the fallback, after one refinement request |
| ConverterNode.RefineReplacesOnlyWhenTruthy | nodes/converter_node.py:205-210 | the draft is replaced only by a truthy refinement, and only when refinement was needed; when it was needed and the answer is truthy, the answer is stored |
| IntegrationNode.PathJoin | nodes/integration_node.py:38 | an absolute second component replaces the first |
| IntegrationNode.AppNamesSpec | nodes/integration_node.py:47 | over dict apps, one name per app, in order |
| IntegrationNode.CountTruthyBounded | nodes/integration_node.py:48-49 | the models and views counts never exceed the number of apps |
| IntegrationNode.StatsSpec | nodes/integration_node.py:47-68 | the statistics agree with the blueprint: one name per app, code counts bounded by the number of apps, the converter's template count, and the lengths of the file lists |
| IntegrationNode.AppNamesLength | nodes/integration_node.py:47 | there are as many names as apps |
| IntegrationNode.MissingListCountsZero | nodes/integration_node.py:44-45 | a missing or `None` file list counts as zero files |
| IntegrationNode.JoinStringsSpec | nodes/integration_node.py:101-102 | a list of strings is joined one per line |
| IntegrationNode.RequirementsFallback | nodes/integration_node.py:101-102 | with no truthy requirements, the file reads `Django>=5,<6` then `Pillow` |
| IntegrationNode.RequirementsListed | nodes/integration_node.py:101-102 | declared requirement strings are written one per line, in order |
| IntegrationNode.PrepareIgnoresMarker | nodes/integration_node.py:34-50 | the node's `current_node` write does not change what it computes before the model call |
| IntegrationNode.SummaryIgnoresMarker | nodes/integration_node.py:52-69 | nor the summary it writes |
| IntegrationNode.ReadPlan | nodes/integration_node.py:37-50 | the steps before the README request compute `Prepare`: the output directory, project root, blueprint and statistics, or the error one of them raises |
| IntegrationNode.Run | nodes/integration_node.py:33-108 | the node's outcome is `Integrate`; it asks the model at most once, exactly when preparation succeeded; only `current_node` and `integration` change |
| IntegrationNode.RecordKeys | nodes/integration_node.py:104-108 | `state.integration` holds exactly the keys readme, summary, requirements |
| IntegrationNode.IntegrateOutputs | nodes/integration_node.py:71-108 | the README and summary go to the output directory; requirements are produced exactly when the file did not exist; the README text is the model's answer |
| TemplateConverter.LastIndex | tools/template_converter.py:42 | the position of the last `/` or `.`, or -1 |
| TemplateConverter.SplitExt | tools/template_converter.py:42 | base and extension concatenate back to the name |
| TemplateConverter.ExtensionShape | tools/template_converter.py:42 | an extension is empty, or one dot followed by no dot and no slash |
| TemplateConverter.DoubleExtensionUnreachable | tools/template_converter.py:45-46 | the `.html.erb` branch is never taken |
| TemplateConverter.SplitAppended | tools/template_converter.py:42 | appending a one-dot extension to a name that has a non-dot character splits back into the two parts |
| TemplateConverter.ErbRenamed | tools/template_converter.py:43-44 | `<base>.erb` becomes `<base>.html` |
| TemplateConverter.OtherNamesUnchanged | tools/template_converter.py:47 | any name whose extension is not `.erb` is returned unchanged |
| TemplateConverter.PlainErbRenamed | tools/template_converter.py:43-44 | the same for a bare file name that does not start with a dot |
| TemplateConverter.SingleExtensionExample | tools/template_converter.py:43-44 | `show.erb` becomes `show.html` |
| TemplateConverter.DoubleExtensionExample | tools/template_converter.py:43-44 | `index.html.erb` becomes `index.html.html` |
| TemplateConverter.DotFileExample | tools/template_converter.py:42-47 | `.erb` has no extension and is kept |
| TemplateConverter.SplitBase | tools/template_converter.py:42 | a base left after splitting off an extension still has a non-dot character in its file name |
| TemplateConverter.ConvertFilenameIdempotent | tools/template_converter.py:40-47 | renaming twice is the same as renaming once |
| TemplateConverter.ConvertTemplateWithLlm | tools/template_converter.py:7-37 | a failing model call returns the content unchanged; otherwise the stripped answer |
| Graph.Successor | graph.py:33-39 | only integration leads to the end; every other stage leads to the next one in rank |
| Graph.PathFrom | graph.py:33-39 | following successors from a stage visits the remaining stages in rank order |
| Graph.NamesDistinct | graph.py:25-29 | the five registered names, and the five markers, are distinct |
| Graph.RankInjective | graph.py:25-29 | a stage is determined by its position |
| Graph.FullRun | graph.py:32-39 | a run from the entry point is planner, discovery, converter, builder, integration |
| Graph.NoLoop | graph.py:33-39 | no stage is visited twice |
| Graph.RunFrom | graph.py:32-39 | the stages that run form a prefix of the pipeline order; every stage before the last one completed, and the run either ends at a stage that raised or covers the whole pipeline |
| Graph.RaiseStopsRun | graph.py:32-39 | once a stage raises, no later stage of the run is executed |
| Graph.StateGraph.AddNode | graph.py:25-29 | registers one more node name and changes nothing else |
| Graph.StateGraph.AddEdge | graph.py:33-39 | adds one more edge and changes nothing else |
| Graph.StateGraph.SetEntryPoint | graph.py:32 | sets the entry point and changes nothing else |
| Graph.TargetsIn | graph.py:33-39 | the targets of a node are exactly those of its edges |
| Graph.BuildGraph | graph.py:14-42 | builds a graph with the five stages, planner as entry, and one edge per stage to its successor |
| Graph.EdgesFollowSuccessor | graph.py:33-39 | each stage has exactly one outgoing edge, to its successor |
| Graph.EndIsFinal | graph.py:39 | no edge leaves the end |
| Graph.Enter | nodes/planner_node.py:4 | a stage's first write to the state puts its marker in `current_node` and changes nothing else |
| Graph.Entered | nodes/discovery_node.py:21 | after a series of stage entries, `current_node` names the last stage entered |
| Graph.FullRunEndsInIntegration | nodes/integration_node.py:34 | after a full run, `current_node` is `integration_node` |

## Left out

- Prompt wording, model names, temperatures and token limits are not modelled. Each call is identified by the inputs its prompt embeds.
- The internals of `json.loads` and `json.dumps` are not modelled; they are oracles.
- `math.ceil` over a float is modelled as integer ceiling division. For list lengths the two agree.
- File I/O is not modelled: `os.makedirs`, writing the summary, the README, `requirements.txt` and the logs (`log_utils`, `file_tools`). `IntegrationNode.Integrate` returns what would be written, and where.
- Console output (`print`, `rich`) is not modelled.
- The clock (`datetime.utcnow()`) and the existence of `requirements.txt` are parameters of the integration model.
- `IntegrationNode.RequirementsText`: a non-empty dict as `requirements` would be joined by its keys in insertion order. A map does not record that order, so the model reports `KeyOrderNotModelled`.
- Insertion order of dicts is not modelled in general. The analyser takes its units as a sequence of (path, content) pairs with distinct paths instead.
- `ConversionState` attribute lookup of methods and class-level attributes (for example `state.get("dict")`) is not modelled. Only data attributes are held in the map.
- Type validation by pydantic on assignment is not modelled. Pydantic does not validate assignments by default.
- The bodies of the planner, discovery and builder stages are not part of this model, apart from their first write to the state, the `current_node` write (`Graph.Enter`). The same holds for `file_tools` and `debug_summary`.
- LangGraph's `compile()` and its runtime (merging node return values, streaming) are not modelled. That an exception escaping a stage ends the run is taken as the runtime's behaviour and is modelled only as which stages run (`Graph.RunFrom`); the state a failed run leaves behind is not modelled. The graph is modelled as the names, edges and entry point the builder registers.
