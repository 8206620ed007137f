/** tools/rails_parser.py: the chunked structure summariser and the batched
    unit analyser. Both split their input into consecutive slices, send one
    request per slice, decode each answer (an undecodable answer becomes an
    error record) and merge the list-valued keys of the decoded answers in
    slice order. */
module RailsParser {
  import opened Text
  import opened Json
  import opened Llm

  const ChunkSize: nat := 150      // files per classification request
  const BatchSize: nat := 20       // files per extraction request
  const ContentLimit: nat := 80000 // characters kept of each file's content
  const PayloadLimit: nat := 12000 // characters of the serialised batch put in the prompt

  const SummaryKeys: seq<string> := ["models", "controllers", "routes_files", "views"]
  const AnalysisKeys: seq<string> := ["models", "controllers", "routes", "views", "dependencies"]
  const CandidateExtensions: seq<string> := [".rb", ".erb", ".haml"]

  /** What `file_tools.list_tree` hands over: directory and file paths. */
  datatype FileTree = FileTree(dirs: seq<string>, files: seq<string>)

  datatype StructureSummary = StructureSummary(
    models: seq<Json>, controllers: seq<Json>, routesFiles: seq<Json>, views: seq<Json>,
    candidatesToRead: seq<string>)

  datatype UnitAnalysis = UnitAnalysis(
    models: seq<Json>, controllers: seq<Json>, routes: seq<Json>, views: seq<Json>,
    dependencies: seq<Json>)

  const EmptySummary := StructureSummary([], [], [], [], [])
  const EmptyAnalysis := UnitAnalysis([], [], [], [], [])

  // ---------------------------------------------------------------------
  // Slicing
  // ---------------------------------------------------------------------

  function Min(a: int, b: int): int { if a <= b then a else b }

  /** `math.ceil(n / d)`. */
  function CeilDiv(n: nat, d: nat): nat
    requires d > 0
  {
    (n + d - 1) / d
  }

  /** Python's `s[lo:hi]` for non-negative bounds: clamped to the sequence. */
  function Slice<T>(s: seq<T>, lo: nat, hi: nat): seq<T> {
    if lo >= |s| || hi <= lo then [] else s[lo..Min(hi, |s|)]
  }

  /** The partition of `s` into consecutive pieces of `size` elements, the last one possibly shorter. */
  function Chunks<T>(s: seq<T>, size: nat): seq<seq<T>>
    requires size > 0
    decreases |s|
  {
    if s == [] then [] else if |s| <= size then [s] else [s[..size]] + Chunks(s[size..], size)
  }

  function Flatten<T>(ss: seq<seq<T>>): seq<T>
    decreases |ss|
  {
    if ss == [] then [] else ss[0] + Flatten(ss[1..])
  }

  lemma DivStep(n: nat, d: nat)
    requires d > 0
    ensures (n + d) / d == n / d + 1
  {
    var q, r := n / d, n % d;
    var q', r' := (n + d) / d, (n + d) % d;
    assert n == d * q + r && 0 <= r < d;
    assert n + d == d * q' + r' && 0 <= r' < d;
    assert d * (q' - q - 1) == r - r';
    if q' - q - 1 >= 1 {
      MulAtLeast(d, q' - q - 1);
    } else if q' - q - 1 <= -1 {
      MulAtLeast(d, q + 1 - q');
    }
  }

  lemma MulAtLeast(d: nat, k: int)
    requires k >= 1
    ensures d * k >= d
  {
  }

  lemma MulSucc(i: nat, d: nat)
    ensures (i + 1) * d == i * d + d
  {
  }

  /** Slicing after dropping `k` elements shifts the bounds by `k`. */
  lemma SliceShift<T>(s: seq<T>, k: nat, lo: nat, hi: nat)
    requires k <= |s|
    ensures Slice(s[k..], lo, hi) == Slice(s, lo + k, hi + k)
  {
  }

  lemma DivSmall(n: nat, d: nat)
    requires n < d
    ensures n / d == 0
  {
  }

  lemma DivOne(n: nat, d: nat)
    requires d <= n < 2 * d
    ensures n / d == 1
  {
    DivStep(n - d, d);
    DivSmall(n - d, d);
  }

  /** There are ⌈|s| / size⌉ pieces. */
  lemma {:induction false} ChunksCount<T>(s: seq<T>, size: nat)
    requires size > 0
    ensures |Chunks(s, size)| == CeilDiv(|s|, size)
    decreases |s|
  {
    if s == [] {
      DivSmall(size - 1, size);
    } else if |s| <= size {
      DivOne(|s| + size - 1, size);
    } else {
      var n := |s| - size;
      ChunksCount(s[size..], size);
      assert |Chunks(s, size)| == 1 + |Chunks(s[size..], size)|;
      DivStep(n + size - 1, size);
      assert |s| + size - 1 == (n + size - 1) + size;
    }
  }

  /** `i * size`, counted up one piece at a time. */
  function Offset(i: nat, size: nat): nat {
    if i == 0 then 0 else Offset(i - 1, size) + size
  }

  lemma {:induction false} OffsetIsProduct(i: nat, size: nat)
    ensures Offset(i, size) == i * size
  {
    if i > 0 {
      OffsetIsProduct(i - 1, size);
      MulSucc(i - 1, size);
    }
  }

  lemma ChunkFirst<T>(s: seq<T>, size: nat)
    requires size > 0 && s != []
    ensures Chunks(s, size)[0] == Slice(s, 0, size)
  {
  }

  lemma ChunksTail<T>(s: seq<T>, size: nat)
    requires size > 0 && |Chunks(s, size)| > 1
    ensures |s| > size && Chunks(s, size)[1..] == Chunks(s[size..], size)
  {
  }

  lemma {:induction false} ChunkAtOffset<T>(s: seq<T>, size: nat, i: nat)
    requires size > 0 && i < |Chunks(s, size)|
    ensures Chunks(s, size)[i] == Slice(s, Offset(i, size), Offset(i, size) + size)
    decreases |s|
  {
    if i == 0 {
      ChunkFirst(s, size);
    } else {
      ChunksTail(s, size);
      var t := s[size..];
      assert Chunks(s, size)[i] == Chunks(s, size)[1..][i - 1] == Chunks(t, size)[i - 1];
      ChunkAtOffset(t, size, i - 1);
      var lo := Offset(i - 1, size);
      assert Offset(i, size) == lo + size;
      SliceShift(s, size, lo, lo + size);
    }
  }

  /** Piece `i` is the Python slice `s[i * size : i * size + size]`. */
  lemma ChunkAt<T>(s: seq<T>, size: nat, i: nat)
    requires size > 0 && i < |Chunks(s, size)|
    ensures Chunks(s, size)[i] == Slice(s, i * size, i * size + size)
  {
    ChunkAtOffset(s, size, i);
    OffsetIsProduct(i, size);
  }

  /** The pieces are non-empty, at most `size` long, and concatenate back to `s`. */
  lemma {:induction false} ChunksPartition<T>(s: seq<T>, size: nat)
    requires size > 0
    ensures Flatten(Chunks(s, size)) == s
    ensures forall c <- Chunks(s, size) :: 0 < |c| <= size
    decreases |s|
  {
    if s != [] && |s| > size {
      ChunksPartition(s[size..], size);
      assert s == s[..size] + s[size..];
    }
  }

  // ---------------------------------------------------------------------
  // Merging decoded answers
  // ---------------------------------------------------------------------

  /** What one decoded answer `r` adds under `key`: the statement
      `if key in r and isinstance(r[key], list): merged[key].extend(r[key])`.
      On a list or string `key in r` may hold, and `r[key]` then raises. */
  function Contribution(r: Json, key: string): Result<seq<Json>> {
    var present :- In(key, r);
    if !present then Ok([])
    else if r.JObj? then Ok(if r.fields[key].JArr? then r.fields[key].items else [])
    else Raise(TypeError)
  }

  /** The list accumulated under `key` over `results`, in order. */
  function Collect(results: seq<Json>, key: string): Result<seq<Json>>
    decreases |results|
  {
    if results == [] then Ok([])
    else
      var front :- Collect(results[..|results| - 1], key);
      var last :- Contribution(results[|results| - 1], key);
      Ok(front + last)
  }

  /** The lists accumulated under every key, in key order. */
  function MergeKeys(results: seq<Json>, keys: seq<string>): Result<seq<seq<Json>>>
    decreases |keys|
  {
    if keys == [] then Ok([])
    else
      var head :- Collect(results, keys[0]);
      var rest :- MergeKeys(results, keys[1..]);
      Ok([head] + rest)
  }

  /** Every failure of the merge is a `TypeError`. */
  lemma {:induction false} CollectFailsWithTypeError(results: seq<Json>, key: string)
    ensures Collect(results, key).Raise? ==> Collect(results, key).error == TypeError
    decreases |results|
  {
    if results != [] {
      CollectFailsWithTypeError(results[..|results| - 1], key);
    }
  }

  /** The merge fails exactly when some answer fails for some key; otherwise
      entry `j` is the list accumulated under `keys[j]`. */
  lemma {:induction false} MergeKeysSpec(results: seq<Json>, keys: seq<string>)
    ensures MergeKeys(results, keys).Ok? <==> forall j :: 0 <= j < |keys| ==> Collect(results, keys[j]).Ok?
    ensures MergeKeys(results, keys).Raise? ==> MergeKeys(results, keys).error == TypeError
    ensures MergeKeys(results, keys).Ok? ==>
      |MergeKeys(results, keys).value| == |keys| &&
      forall j :: 0 <= j < |keys| ==> MergeKeys(results, keys).value[j] == Collect(results, keys[j]).value
    decreases |keys|
  {
    if keys != [] {
      MergeKeysSpec(results, keys[1..]);
      CollectFailsWithTypeError(results, keys[0]);
      assert forall j :: 1 <= j < |keys| ==> keys[1..][j - 1] == keys[j];
    }
  }

  /** A failing answer makes the whole accumulation fail. */
  lemma {:induction false} CollectFailsAt(results: seq<Json>, i: nat, key: string)
    requires i < |results| && Contribution(results[i], key).Raise?
    ensures Collect(results, key).Raise?
    decreases |results|
  {
    if i < |results| - 1 {
      CollectFailsAt(results[..|results| - 1], i, key);
    }
  }

  /** Accumulating over two runs of answers concatenates their lists in order. */
  lemma {:induction false} CollectAppend(a: seq<Json>, b: seq<Json>, key: string)
    ensures Collect(a + b, key).Ok? <==> Collect(a, key).Ok? && Collect(b, key).Ok?
    ensures Collect(a + b, key).Ok? ==> Collect(a + b, key).value == Collect(a, key).value + Collect(b, key).value
    decreases |b|
  {
    if b == [] {
      assert a + b == a;
    } else {
      var b' := b[..|b| - 1];
      assert (a + b)[..|a + b| - 1] == a + b';
      assert (a + b)[|a + b| - 1] == b[|b| - 1];
      CollectAppend(a, b', key);
    }
  }

  /** The error record an undecodable answer becomes adds nothing under any key. */
  lemma ErrorRecordAddsNothing(rawKey: string, text: string, key: string)
    ensures Contribution(ErrorRecord(rawKey, text), key) == Ok([])
  {
  }

  /** A single answer contributes exactly its own list. */
  lemma CollectOne(x: Json, key: string)
    ensures Collect([x], key) == Contribution(x, key)
  {
    assert [x][..0] == [];
    assert [x][0] == x;
    var c := Contribution(x, key);
    if c.Ok? {
      assert [] + c.value == c.value;
    }
  }

  /** A bad answer between two runs of answers is simply skipped: merging goes on past it. */
  lemma BadAnswerSkipped(a: seq<Json>, b: seq<Json>, rawKey: string, text: string, key: string)
    ensures Collect(a + [ErrorRecord(rawKey, text)] + b, key) == Collect(a + b, key)
  {
    var e := [ErrorRecord(rawKey, text)];
    ErrorRecordAddsNothing(rawKey, text, key);
    CollectOne(ErrorRecord(rawKey, text), key);
    CollectAppend(a + e, b, key);
    CollectAppend(a, e, key);
    CollectAppend(a, b, key);
    assert Collect(a, key).Ok? ==> Collect(a, key).value + [] == Collect(a, key).value;
    CollectFailsWithTypeError(a + e + b, key);
    CollectFailsWithTypeError(a + b, key);
    CollectFailsWithTypeError(a, key);
    CollectFailsWithTypeError(b, key);
  }

  /** The merge loop of both operations: `merged` holds one list per key,
      extended in place answer by answer. */
  method Merge(results: seq<Json>, keys: seq<string>) returns (out: Result<seq<seq<Json>>>)
    ensures out == MergeKeys(results, keys)
  {
    MergeKeysSpec(results, keys);
    var merged: seq<seq<Json>> := seq(|keys|, _ => []);
    for i := 0 to |results|
      invariant |merged| == |keys|
      invariant forall j :: 0 <= j < |keys| ==> Collect(results[..i], keys[j]) == Ok(merged[j])
    {
      assert results[..i + 1][..i] == results[..i];
      for j := 0 to |keys|
        invariant |merged| == |keys|
        invariant forall k :: 0 <= k < j ==> Collect(results[..i + 1], keys[k]) == Ok(merged[k])
        invariant forall k :: j <= k < |keys| ==> Collect(results[..i], keys[k]) == Ok(merged[k])
      {
        var c := Contribution(results[i], keys[j]);
        if c.Raise? {
          CollectFailsAt(results, i, keys[j]);
          return Raise(TypeError);
        }
        merged := merged[j := merged[j] + c.value];
      }
    }
    assert results[..|results|] == results;
    assert forall j :: 0 <= j < |keys| ==> Collect(results, keys[j]) == Ok(merged[j]);
    assert MergeKeys(results, keys).value == merged;
    out := Ok(merged);
  }

  // ---------------------------------------------------------------------
  // summarize_structure
  // ---------------------------------------------------------------------

  predicate IsCandidate(f: string) {
    EndsWith(f, ".rb") || EndsWith(f, ".erb") || EndsWith(f, ".haml")
  }

  /** `[f for f in all_files if f.endswith((".rb", ".erb", ".haml"))]` */
  function Candidates(files: seq<string>): seq<string>
    decreases |files|
  {
    if files == [] then []
    else (if IsCandidate(files[0]) then [files[0]] else []) + Candidates(files[1..])
  }

  function ChunkRequests(files: seq<string>): (reqs: seq<Request>)
    ensures |reqs| == |Chunks(files, ChunkSize)|
  {
    var chunks := Chunks(files, ChunkSize);
    seq(|chunks|, i requires 0 <= i < |chunks| => ClassifyChunk(i + 1, |chunks|, chunks[i]))
  }

  /** The summary `summarize_structure` returns, or the exception it raises. */
  function Summary(files: seq<string>, model: Model, decode: Decoder): Result<StructureSummary> {
    var reqs := ChunkRequests(files);
    var texts := Answers(reqs, model);
    if |texts| < |reqs| then Raise(ModelCallFailed)
    else SummaryOf(DecodeAll(texts, decode, "raw"), files)
  }

  /** The summary built from the decoded answers: the merged lists and the candidate files. */
  function SummaryOf(summaries: seq<Json>, files: seq<string>): Result<StructureSummary> {
    var lists :- MergeKeys(summaries, SummaryKeys);
    MergeKeysSpec(summaries, SummaryKeys);
    Ok(StructureSummary(lists[0], lists[1], lists[2], lists[3], Candidates(files)))
  }

  /** The classification requests `summarize_structure` sends. */
  function SummaryCalls(files: seq<string>, model: Model): seq<Request> {
    CallsMade(ChunkRequests(files), model)
  }

  /** Request `i` of the summariser classifies the slice `all_files[i*150:(i+1)*150]`. */
  lemma ChunkRequestAt(files: seq<string>, i: nat)
    requires i < CeilDiv(|files|, ChunkSize)
    ensures |ChunkRequests(files)| == CeilDiv(|files|, ChunkSize)
    ensures ChunkRequests(files)[i] ==
      ClassifyChunk(i + 1, CeilDiv(|files|, ChunkSize), Slice(files, i * ChunkSize, i * ChunkSize + ChunkSize))
  {
    ChunksCount(files, ChunkSize);
    ChunkAt(files, ChunkSize, i);
  }

  /** Extending a prefix by one element. */
  lemma PrefixStep<T>(s: seq<T>, i: nat)
    requires i < |s|
    ensures s[..i + 1] == s[..i] + [s[i]]
  {
  }

  /** After `i` answered calls, the next one raising ends the sequence of calls there. */
  lemma CallFailsAt(reqs: seq<Request>, model: Model, i: nat)
    requires i < |reqs| && i <= |Answers(reqs, model)|
    requires model(reqs[i]).None?
    ensures |Answers(reqs, model)| == i
    ensures CallsMade(reqs, model) == reqs[..i] + [reqs[i]]
  {
    assert reqs[..i + 1] == reqs[..i] + [reqs[i]];
  }

  /** One more answered call extends the answered texts by its stripped text. */
  lemma CallAnswered(reqs: seq<Request>, model: Model, i: nat, text: string)
    requires i < |reqs| && i <= |Answers(reqs, model)|
    requires Answer(model, reqs[i]) == Some(text)
    ensures i + 1 <= |Answers(reqs, model)|
    ensures Answers(reqs, model)[..i + 1] == Answers(reqs, model)[..i] + [text]
  {
    var texts := Answers(reqs, model);
    assert |texts| < |reqs| ==> Answer(model, reqs[|texts|]).None?;
    assert Answer(model, reqs[i]) == Some(texts[i]);
    PrefixStep(texts, i);
  }

  /** When every classification call was answered, the summary is built from all decoded answers. */
  lemma SummaryAllAnswered(files: seq<string>, model: Model, decode: Decoder, summaries: seq<Json>)
    requires |ChunkRequests(files)| <= |Answers(ChunkRequests(files), model)|
    requires summaries == DecodeAll(Answers(ChunkRequests(files), model)[..|ChunkRequests(files)|], decode, "raw")
    ensures Summary(files, model, decode) == SummaryOf(summaries, files)
    ensures SummaryCalls(files, model) == ChunkRequests(files)
  {
    var reqs := ChunkRequests(files);
    assert Answers(reqs, model)[..|reqs|] == Answers(reqs, model);
  }

  /** `SummaryOf` fails exactly as the merge does, and otherwise takes the four merged lists in key order. */
  lemma SummaryOfMerge(summaries: seq<Json>, files: seq<string>)
    ensures MergeKeys(summaries, SummaryKeys).Raise? ==>
      SummaryOf(summaries, files) == Raise(MergeKeys(summaries, SummaryKeys).error)
    ensures MergeKeys(summaries, SummaryKeys).Ok? ==>
      var lists := MergeKeys(summaries, SummaryKeys).value;
      |lists| == 4 && SummaryOf(summaries, files) == Ok(StructureSummary(lists[0], lists[1], lists[2], lists[3], Candidates(files)))
  {
    MergeKeysSpec(summaries, SummaryKeys);
  }

  method SummarizeStructure(tree: FileTree, model: Model, decode: Decoder)
    returns (out: Result<StructureSummary>, calls: seq<Request>)
    ensures out == Summary(tree.files, model, decode)
    ensures calls == SummaryCalls(tree.files, model)
  {
    var allFiles := tree.files;
    if |allFiles| == 0 {
      EmptyTreeSummary(model, decode);
      return Ok(EmptySummary), [];
    }
    var totalChunks := CeilDiv(|allFiles|, ChunkSize);
    ghost var reqs := ChunkRequests(allFiles);
    ChunksCount(allFiles, ChunkSize);
    var summaries: seq<Json> := [];
    calls := [];
    for i := 0 to totalChunks
      invariant calls == reqs[..i]
      invariant i <= |Answers(reqs, model)|
      invariant summaries == DecodeAll(Answers(reqs, model)[..i], decode, "raw")
    {
      var start := i * ChunkSize;
      var end := start + ChunkSize;
      var subset := Slice(allFiles, start, end);
      var request := ClassifyChunk(i + 1, totalChunks, subset);
      ChunkRequestAt(allFiles, i);
      PrefixStep(reqs, i);
      calls := calls + [request];
      var response := model(request);
      if response.None? {
        CallFailsAt(reqs, model, i);
        return Raise(ModelCallFailed), calls;
      }
      var content := Strip(response.value);
      CallAnswered(reqs, model, i, content);
      DecodeAllAppend(Answers(reqs, model)[..i], content, decode, "raw");
      summaries := summaries + [DecodeOrError(decode, content, "raw")];
    }
    SummaryAllAnswered(allFiles, model, decode, summaries);
    SummaryOfMerge(summaries, allFiles);
    var merged := Merge(summaries, SummaryKeys);
    if merged.Raise? {
      return Raise(merged.error), calls;
    }
    var lists := merged.value;
    out := Ok(StructureSummary(lists[0], lists[1], lists[2], lists[3], Candidates(allFiles)));
  }

  /** An empty file list yields the all-empty summary and sends nothing. */
  lemma EmptyTreeSummary(model: Model, decode: Decoder)
    ensures Summary([], model, decode) == Ok(EmptySummary)
    ensures SummaryCalls([], model) == []
  {
    assert DecodeAll([], decode, "raw") == [];
  }

  /** The files proposed for reading are exactly the listed files with a Ruby,
      ERB or HAML extension, and there are no more of them than files. */
  lemma {:induction false} CandidatesSpec(files: seq<string>)
    ensures forall f :: f in Candidates(files) <==> f in files && IsCandidate(f)
    ensures |Candidates(files)| <= |files|
    decreases |files|
  {
    if files != [] {
      CandidatesSpec(files[1..]);
      assert files == [files[0]] + files[1..];
    }
  }

  /** The filter keeps order and multiplicity: it distributes over concatenation. */
  lemma {:induction false} CandidatesAppend(a: seq<string>, b: seq<string>)
    ensures Candidates(a + b) == Candidates(a) + Candidates(b)
    decreases |a|
  {
    if a != [] {
      assert (a + b)[1..] == a[1..] + b;
      CandidatesAppend(a[1..], b);
    } else {
      assert a + b == b;
    }
  }

  /** When no call raises, one request goes out per slice of 150 files, in
      order, numbered from 1 and carrying the total. */
  lemma SummaryCallsAllAnswered(files: seq<string>, model: Model)
    requires forall r :: model(r).Some?
    ensures |SummaryCalls(files, model)| == CeilDiv(|files|, ChunkSize)
    ensures forall i :: 0 <= i < |SummaryCalls(files, model)| ==>
      SummaryCalls(files, model)[i] ==
        ClassifyChunk(i + 1, CeilDiv(|files|, ChunkSize), Slice(files, i * ChunkSize, i * ChunkSize + ChunkSize))
  {
    var reqs := ChunkRequests(files);
    ChunksCount(files, ChunkSize);
    assert |Answers(reqs, model)| == |reqs|;
    forall i | 0 <= i < |reqs|
      ensures reqs[i] == ClassifyChunk(i + 1, CeilDiv(|files|, ChunkSize), Slice(files, i * ChunkSize, i * ChunkSize + ChunkSize))
    {
      ChunkRequestAt(files, i);
    }
  }

  /** Answers that all fail to decode contribute nothing under any key. */
  lemma {:induction false} CollectUndecodable(texts: seq<string>, decode: Decoder, rawKey: string, key: string)
    requires forall j :: 0 <= j < |texts| ==> decode(texts[j]).None?
    ensures Collect(DecodeAll(texts, decode, rawKey), key) == Ok([])
    decreases |texts|
  {
    if texts != [] {
      var init := texts[..|texts| - 1];
      CollectUndecodable(init, decode, rawKey, key);
      var d := DecodeAll(texts, decode, rawKey);
      assert d[..|d| - 1] == DecodeAll(init, decode, rawKey);
      assert d[|d| - 1] == ErrorRecord(rawKey, texts[|texts| - 1]);
      ErrorRecordAddsNothing(rawKey, texts[|texts| - 1], key);
      assert Collect(d[..|d| - 1], key) == Ok([]);
      assert Contribution(d[|d| - 1], key) == Ok([]);
      var none: seq<Json> := [];
      assert Collect(d, key) == Ok(none + none);
      assert none + none == none;
    } else {
      assert DecodeAll(texts, decode, rawKey) == [];
    }
  }

  /** A model whose answers never decode yields empty lists, and the candidates are still proposed. */
  lemma UndecodableSummary(files: seq<string>, model: Model, decode: Decoder)
    requires forall r :: model(r).Some?
    requires forall t :: decode(t).None?
    ensures Summary(files, model, decode) == Ok(StructureSummary([], [], [], [], Candidates(files)))
  {
    var reqs := ChunkRequests(files);
    var texts := Answers(reqs, model);
    assert |texts| == |reqs|;
    var d := DecodeAll(texts, decode, "raw");
    forall j | 0 <= j < |SummaryKeys| ensures Collect(d, SummaryKeys[j]) == Ok([]) {
      CollectUndecodable(texts, decode, "raw", SummaryKeys[j]);
    }
    MergeKeysSpec(d, SummaryKeys);
    SummaryOfMerge(d, files);
  }

  // ---------------------------------------------------------------------
  // analyze_units
  // ---------------------------------------------------------------------

  /** Python's `s[:n]`. */
  function Truncate(s: string, n: nat): (r: string)
    ensures |r| == Min(|s|, n) && r <= s
    ensures |s| <= n ==> r == s
  {
    if |s| <= n then s else s[..n]
  }

  /** `{p: units[p][:80000] for p in batch_files}` */
  function TruncateContents(batch: seq<(string, string)>): (r: seq<(string, string)>)
    ensures |r| == |batch|
    ensures forall j :: 0 <= j < |batch| ==> r[j].0 == batch[j].0 && r[j].1 <= batch[j].1
    ensures forall j :: 0 <= j < |batch| ==> |r[j].1| == Min(|batch[j].1|, ContentLimit)
  {
    seq(|batch|, j requires 0 <= j < |batch| => (batch[j].0, Truncate(batch[j].1, ContentLimit)))
  }

  /** The part of the serialised batch that the prompt embeds: `json.dumps(batch_content)[:12000]`. */
  function Payload(batch: seq<(string, string)>, dumps: seq<(string, string)> -> string): string {
    Truncate(dumps(TruncateContents(batch)), PayloadLimit)
  }

  predicate KeysDistinct(units: seq<(string, string)>) {
    forall i, j :: 0 <= i < j < |units| ==> units[i].0 != units[j].0
  }

  function BatchRequests(units: seq<(string, string)>, dumps: seq<(string, string)> -> string): (reqs: seq<Request>)
    ensures |reqs| == |Chunks(units, BatchSize)|
  {
    var batches := Chunks(units, BatchSize);
    seq(|batches|, i requires 0 <= i < |batches| => AnalyzeBatch(i + 1, |batches|, Payload(batches[i], dumps)))
  }

  /** The analysis `analyze_units` returns, or the exception it raises. */
  function Analysis(units: seq<(string, string)>, model: Model, decode: Decoder,
                    dumps: seq<(string, string)> -> string): Result<UnitAnalysis>
  {
    var reqs := BatchRequests(units, dumps);
    var texts := Answers(reqs, model);
    if |texts| < |reqs| then Raise(ModelCallFailed)
    else AnalysisOf(DecodeAll(texts, decode, "raw_text"))
  }

  /** The analysis built from the decoded answers: the merged lists. */
  function AnalysisOf(results: seq<Json>): Result<UnitAnalysis> {
    var lists :- MergeKeys(results, AnalysisKeys);
    MergeKeysSpec(results, AnalysisKeys);
    Ok(UnitAnalysis(lists[0], lists[1], lists[2], lists[3], lists[4]))
  }

  /** The extraction requests `analyze_units` sends. */
  function AnalysisCalls(units: seq<(string, string)>, model: Model, dumps: seq<(string, string)> -> string): seq<Request> {
    CallsMade(BatchRequests(units, dumps), model)
  }

  /** Request `i` of the analyser carries the payload of the slice `units[i*20:(i+1)*20]`. */
  lemma BatchRequestAt(units: seq<(string, string)>, dumps: seq<(string, string)> -> string, i: nat)
    requires i < CeilDiv(|units|, BatchSize)
    ensures |BatchRequests(units, dumps)| == CeilDiv(|units|, BatchSize)
    ensures BatchRequests(units, dumps)[i] ==
      AnalyzeBatch(i + 1, CeilDiv(|units|, BatchSize),
        Truncate(dumps(TruncateContents(Slice(units, i * BatchSize, (i + 1) * BatchSize))), PayloadLimit))
  {
    ChunksCount(units, BatchSize);
    ChunkAt(units, BatchSize, i);
    MulSucc(i, BatchSize);
  }

  /** When every extraction call was answered, the analysis is built from all decoded answers. */
  lemma AnalysisAllAnswered(units: seq<(string, string)>, model: Model, decode: Decoder,
                            dumps: seq<(string, string)> -> string, results: seq<Json>)
    requires |BatchRequests(units, dumps)| <= |Answers(BatchRequests(units, dumps), model)|
    requires results == DecodeAll(Answers(BatchRequests(units, dumps), model)[..|BatchRequests(units, dumps)|], decode, "raw_text")
    ensures Analysis(units, model, decode, dumps) == AnalysisOf(results)
    ensures AnalysisCalls(units, model, dumps) == BatchRequests(units, dumps)
  {
    var reqs := BatchRequests(units, dumps);
    assert Answers(reqs, model)[..|reqs|] == Answers(reqs, model);
  }

  /** `AnalysisOf` fails exactly as the merge does, and otherwise takes the five merged lists in key order. */
  lemma AnalysisOfMerge(results: seq<Json>)
    ensures MergeKeys(results, AnalysisKeys).Raise? ==>
      AnalysisOf(results) == Raise(MergeKeys(results, AnalysisKeys).error)
    ensures MergeKeys(results, AnalysisKeys).Ok? ==>
      var lists := MergeKeys(results, AnalysisKeys).value;
      |lists| == 5 && AnalysisOf(results) == Ok(UnitAnalysis(lists[0], lists[1], lists[2], lists[3], lists[4]))
  {
    MergeKeysSpec(results, AnalysisKeys);
  }

  /** `units` is the path→content dict as its items in insertion order;
      `dumps` is `json.dumps`. */
  method AnalyzeUnits(units: seq<(string, string)>, model: Model, decode: Decoder,
                      dumps: seq<(string, string)> -> string)
    returns (out: Result<UnitAnalysis>, calls: seq<Request>)
    requires KeysDistinct(units)
    ensures out == Analysis(units, model, decode, dumps)
    ensures calls == AnalysisCalls(units, model, dumps)
  {
    if |units| == 0 {
      EmptyUnitsAnalysis(model, decode, dumps);
      return Ok(EmptyAnalysis), [];
    }
    var totalBatches := CeilDiv(|units|, BatchSize);
    ghost var reqs := BatchRequests(units, dumps);
    ChunksCount(units, BatchSize);
    var results: seq<Json> := [];
    calls := [];
    for i := 0 to totalBatches
      invariant calls == reqs[..i]
      invariant i <= |Answers(reqs, model)|
      invariant results == DecodeAll(Answers(reqs, model)[..i], decode, "raw_text")
    {
      var batchFiles := Slice(units, i * BatchSize, (i + 1) * BatchSize);
      var batchContent := TruncateContents(batchFiles);
      var request := AnalyzeBatch(i + 1, totalBatches, Truncate(dumps(batchContent), PayloadLimit));
      BatchRequestAt(units, dumps, i);
      PrefixStep(reqs, i);
      calls := calls + [request];
      var response := model(request);
      if response.None? {
        CallFailsAt(reqs, model, i);
        return Raise(ModelCallFailed), calls;
      }
      var text := Strip(response.value);
      CallAnswered(reqs, model, i, text);
      DecodeAllAppend(Answers(reqs, model)[..i], text, decode, "raw_text");
      results := results + [DecodeOrError(decode, text, "raw_text")];
    }
    AnalysisAllAnswered(units, model, decode, dumps, results);
    AnalysisOfMerge(results);
    var merged := Merge(results, AnalysisKeys);
    if merged.Raise? {
      return Raise(merged.error), calls;
    }
    var lists := merged.value;
    out := Ok(UnitAnalysis(lists[0], lists[1], lists[2], lists[3], lists[4]));
  }

  /** An empty unit mapping yields the all-empty analysis and sends nothing. */
  lemma EmptyUnitsAnalysis(model: Model, decode: Decoder, dumps: seq<(string, string)> -> string)
    ensures Analysis([], model, decode, dumps) == Ok(EmptyAnalysis)
    ensures AnalysisCalls([], model, dumps) == []
  {
    assert DecodeAll([], decode, "raw_text") == [];
  }

  /** Every extraction request embeds at most 12000 characters of the serialised batch. */
  lemma PayloadBounded(units: seq<(string, string)>, model: Model, dumps: seq<(string, string)> -> string)
    ensures forall c <- AnalysisCalls(units, model, dumps) :: c.AnalyzeBatch? && |c.payload| <= PayloadLimit
  {
    var reqs := BatchRequests(units, dumps);
    var calls := AnalysisCalls(units, model, dumps);
    forall c <- calls ensures c.AnalyzeBatch? && |c.payload| <= PayloadLimit {
      var i :| 0 <= i < |calls| && calls[i] == c;
      assert c == reqs[i];
    }
  }

  /** When no call raises, one request goes out per slice of 20 units, in
      order, numbered from 1 and carrying the total. */
  lemma AnalysisCallsAllAnswered(units: seq<(string, string)>, model: Model, dumps: seq<(string, string)> -> string)
    requires forall r :: model(r).Some?
    ensures |AnalysisCalls(units, model, dumps)| == CeilDiv(|units|, BatchSize)
    ensures forall i :: 0 <= i < |AnalysisCalls(units, model, dumps)| ==>
      AnalysisCalls(units, model, dumps)[i] ==
        AnalyzeBatch(i + 1, CeilDiv(|units|, BatchSize),
          Truncate(dumps(TruncateContents(Slice(units, i * BatchSize, (i + 1) * BatchSize))), PayloadLimit))
  {
    var reqs := BatchRequests(units, dumps);
    ChunksCount(units, BatchSize);
    assert |Answers(reqs, model)| == |reqs|;
    forall i | 0 <= i < |reqs|
      ensures reqs[i] == AnalyzeBatch(i + 1, CeilDiv(|units|, BatchSize),
        Truncate(dumps(TruncateContents(Slice(units, i * BatchSize, (i + 1) * BatchSize))), PayloadLimit))
    {
      BatchRequestAt(units, dumps, i);
    }
  }

  /** A model whose answers never decode yields the all-empty analysis. */
  lemma UndecodableAnalysis(units: seq<(string, string)>, model: Model, decode: Decoder,
                            dumps: seq<(string, string)> -> string)
    requires forall r :: model(r).Some?
    requires forall t :: decode(t).None?
    ensures Analysis(units, model, decode, dumps) == Ok(EmptyAnalysis)
  {
    var reqs := BatchRequests(units, dumps);
    var texts := Answers(reqs, model);
    assert |texts| == |reqs|;
    var d := DecodeAll(texts, decode, "raw_text");
    forall j | 0 <= j < |AnalysisKeys| ensures Collect(d, AnalysisKeys[j]) == Ok([]) {
      CollectUndecodable(texts, decode, "raw_text", AnalysisKeys[j]);
    }
    MergeKeysSpec(d, AnalysisKeys);
    AnalysisOfMerge(d);
  }
}
