/** state.py: the shared state handed from node to node. It is a record with
    declared fields and, because extra attributes are allowed, any further
    attribute a node sets (`current_node`, for one). Every attribute is held
    in one map from name to value; a declared optional field starts as `None`. */
module State {
  import opened Json

  /** The declared fields that default to `None`. */
  const OptionalFields: seq<string> := [
    "project_root", "discovered_files", "parsed_summary", "rails_summary",
    "files_to_read", "rails_units", "django_blueprint", "generated_files",
    "integration", "logs", "llm_response"]

  /** The attributes of a freshly built state: the two required paths and every optional field unset. */
  function InitialFields(inputDir: string, outputDir: string): (m: map<string, Json>)
    ensures "input_dir" in m && m["input_dir"] == JStr(inputDir)
    ensures "output_dir" in m && m["output_dir"] == JStr(outputDir)
    ensures forall k <- OptionalFields :: k in m && m[k] == JNull
  {
    map[
      "input_dir" := JStr(inputDir), "output_dir" := JStr(outputDir),
      "project_root" := JNull, "discovered_files" := JNull, "parsed_summary" := JNull,
      "rails_summary" := JNull, "files_to_read" := JNull, "rails_units" := JNull,
      "django_blueprint" := JNull, "generated_files" := JNull, "integration" := JNull,
      "logs" := JNull, "llm_response" := JNull]
  }

  /** Every declared field is an attribute: setting attributes never removes one. */
  predicate Declared(m: map<string, Json>) {
    "input_dir" in m && "output_dir" in m && forall k <- OptionalFields :: k in m
  }

  /** The entries of `m` whose keys are in `ks`. */
  function Restrict(m: map<string, Json>, ks: set<string>): map<string, Json> {
    map k | k in ks && k in m :: m[k]
  }

  /** Setting one more entry extends the restriction by that key. */
  lemma RestrictStep(start: map<string, Json>, entries: map<string, Json>, done: set<string>, k: string)
    requires k in entries
    ensures (start + Restrict(entries, done))[k := entries[k]] == start + Restrict(entries, done + {k})
  {
  }

  /** Dict merging with `+` is associative. */
  lemma MergeAssoc(a: map<string, Json>, b: map<string, Json>, c: map<string, Json>)
    ensures a + (b + c) == a + b + c
  {
  }

  /** A plain Python dict handed to `update`, which may mutate it. */
  class Dict {
    var items: map<string, Json>

    constructor(items: map<string, Json>)
      ensures this.items == items
    {
      this.items := items;
    }
  }

  class ConversionState {
    var fields: map<string, Json>

    ghost predicate Valid()
      reads this
    {
      Declared(fields)
    }

    constructor(inputDir: string, outputDir: string)
      ensures fields == InitialFields(inputDir, outputDir)
      ensures Valid()
    {
      fields := InitialFields(inputDir, outputDir);
    }

    /** `state.get(key, default)`: the attribute when it exists, else the default. */
    function Get(key: string, default: Json): (v: Json)
      reads this
      ensures key in fields ==> v == fields[key]
      ensures key !in fields ==> v == default
    {
      GetOr(fields, key, default)
    }

    /** `state[key]`: the attribute, or `AttributeError` when there is none. */
    function Item(key: string): (r: Result<Json>)
      reads this
      ensures r.Ok? <==> key in fields
      ensures r.Ok? ==> r.value == fields[key]
      ensures r.Raise? ==> r.error == AttributeError
    {
      if key in fields then Ok(fields[key]) else Raise(AttributeError)
    }

    /** `key in state`, which is `hasattr`: exactly when `state[key]` does not raise. */
    predicate Has(key: string)
      reads this
      ensures Has(key) <==> Item(key).Ok?
    {
      key in fields
    }

    /** `state.set(key, value)`: creates or overwrites one attribute. */
    method Set(key: string, value: Json)
      modifies this
      ensures fields == old(fields)[key := value]
      ensures old(Valid()) ==> Valid()
    {
      fields := fields[key := value];
    }

    /** `state[key] = value`; the same as `Set`. */
    method SetItem(key: string, value: Json)
      modifies this
      ensures fields == old(fields)[key := value]
      ensures old(Valid()) ==> Valid()
    {
      Set(key, value);
    }

    /** `state.update(data, **kwargs)`. A non-empty `data` dict first absorbs
        `kwargs` in place (the caller sees that); an empty or missing one is
        replaced by a fresh dict and left as it was. Then every entry becomes
        an attribute, with `kwargs` winning over `data`. */
    method Update(data: Dict?, kwargs: map<string, Json>)
      modifies this, data
      ensures data != null ==> fields == old(fields) + old(data.items) + kwargs
      ensures data == null ==> fields == old(fields) + kwargs
      ensures data != null && old(data.items) != map[] ==> data.items == old(data.items) + kwargs
      ensures data != null && old(data.items) == map[] ==> data.items == old(data.items)
      ensures old(Valid()) ==> Valid()
    {
      var entries: map<string, Json>;
      if data != null && data.items != map[] {
        data.items := data.items + kwargs;
        entries := data.items;
      } else {
        entries := kwargs;
      }
      ghost var start := fields;
      var remaining := entries.Keys;
      while remaining != {}
        invariant remaining <= entries.Keys
        invariant fields == start + Restrict(entries, entries.Keys - remaining)
        modifies this
        decreases remaining
      {
        var k :| k in remaining;
        RestrictStep(start, entries, entries.Keys - remaining, k);
        assert entries.Keys - remaining + {k} == entries.Keys - (remaining - {k});
        fields := fields[k := entries[k]];
        remaining := remaining - {k};
      }
      assert entries.Keys - remaining == entries.Keys;
      assert Restrict(entries, entries.Keys) == entries;
      assert fields == start + entries;
      assert fields.Keys == start.Keys + entries.Keys;
      if data != null {
        if old(data.items) == map[] {
          assert old(fields) + old(data.items) == old(fields);
        } else {
          assert entries == old(data.items) + kwargs;
          MergeAssoc(start, old(data.items), kwargs);
        }
      }
    }
  }
}
