/** SediNet's `load_config` (grain/src/sedinet/predict.py): read six
    required settings and list, in sorted order, the configuration keys that
    name predicted variables, i.e. every key that starts with none of
    sixteen reserved prefixes. Reading and parsing the file is left out: the
    input is the parsed JSON object. */
module SedinetConfig {
  import opened Base
  import Sorting
  import Text

  /** A JSON object as `json.load` returns it: entries in file order, each
      key once. */
  type JsonDict = d: seq<(string, Json)> | DistinctKeys(d) witness []

  predicate DistinctKeys(d: seq<(string, Json)>) {
    forall i, j :: 0 <= i < j < |d| ==> d[i].0 != d[j].0
  }

  /** `config.keys()`, in order. */
  function Keys(d: seq<(string, Json)>): (ks: seq<string>)
    ensures |ks| == |d|
    ensures forall i :: 0 <= i < |d| ==> ks[i] == d[i].0
  {
    if |d| == 0 then [] else [d[0].0] + Keys(d[1..])
  }

  /** `config[key]`, or `None` where Python raises `KeyError`. */
  function Lookup(d: seq<(string, Json)>, key: string): (r: Option<Json>)
    ensures r.Some? <==> key in Keys(d)
    ensures r.Some? ==> exists i :: 0 <= i < |d| && d[i] == (key, r.value)
  {
    if |d| == 0 then None
    else if d[0].0 == key then Some(d[0].1)
    else Lookup(d[1..], key)
  }

  /** The keys read unconditionally, in the order the source reads them. */
  const RequiredKeys: seq<string> := ["csvfile", "res_folder", "name", "dropout", "scale", "greyscale"]

  /** A key starting with any of these names no predicted variable. */
  const ExcludedPrefixes: seq<string> := [
    "base", "MAX_LR", "MIN_LR", "DO_AUG", "SHALLOW", "res_folder", "train_csvfile", "csvfile",
    "test_csvfile", "name", "greyscale", "aux_in", "dropout", "N", "scale", "numclass"]

  predicate Excluded(key: string) {
    exists i :: 0 <= i < |ExcludedPrefixes| && Text.StartsWith(key, ExcludedPrefixes[i])
  }

  /** The list comprehension: the keys that are not excluded, in order. */
  function VariableKeys(keys: seq<string>): (r: seq<string>)
    ensures forall k :: k in r <==> k in keys && !Excluded(k)
    ensures |r| <= |keys|
    ensures Sorting.Distinct(keys) ==> Sorting.Distinct(r)
  {
    if |keys| == 0 then []
    else
      var rest := VariableKeys(keys[1..]);
      if Excluded(keys[0]) then rest
      else
        assert Sorting.Distinct(keys) ==> keys[0] !in keys[1..];
        [keys[0]] + rest
  }

  datatype ConfigError = MissingKey(key: string)

  datatype Settings = Settings(vars: seq<string>, greyscale: Json, dropout: Json, scale: Json)

  /** The first required key the object lacks, if any. */
  function FirstMissing(d: seq<(string, Json)>, required: seq<string>): (r: Option<string>)
    ensures r.None? <==> forall i :: 0 <= i < |required| ==> required[i] in Keys(d)
    ensures r.Some? ==> exists i :: 0 <= i < |required| && required[i] == r.value && r.value !in Keys(d)
                                 && (forall j :: 0 <= j < i ==> required[j] in Keys(d))
  {
    if |required| == 0 then None
    else if required[0] !in Keys(d) then Some(required[0])
    else
      var r := FirstMissing(d, required[1..]);
      if r.Some? then
        var i :| 0 <= i < |required[1..]| && required[1..][i] == r.value && r.value !in Keys(d)
                 && (forall j :: 0 <= j < i ==> required[1..][j] in Keys(d));
        assert required[i + 1] == r.value;
        r
      else r
  }

  /** `sorted(vars)`: the keys no reserved prefix starts, sorted as Python
      sorts strings, each once. */
  function SortedVariables(config: JsonDict): (vars: seq<string>)
    ensures Sorting.Sorted(vars, Text.LexLe)
    ensures Sorting.Distinct(vars)
    ensures forall k :: k in vars <==> k in Keys(config) && !Excluded(k)
  {
    Text.LexLeTotalOrder();
    var filtered := VariableKeys(Keys(config));
    KeysDistinct(config);
    Sorting.SortDistinct(filtered, Text.LexLe);
    var vars := Sorting.Sort(filtered, Text.LexLe);
    assert forall k :: k in vars <==> k in multiset(filtered);
    vars
  }

  /** With every required key present, the three returned settings exist. */
  lemma ReturnedSettingsPresent(config: JsonDict)
    requires FirstMissing(config, RequiredKeys).None?
    ensures "greyscale" in Keys(config) && "dropout" in Keys(config) && "scale" in Keys(config)
  {
    assert RequiredKeys[3] == "dropout" && RequiredKeys[4] == "scale" && RequiredKeys[5] == "greyscale";
  }

  /** `load_config` on a parsed object: a `KeyError` for the first missing
      required key; otherwise the sorted, repetition-free list of exactly
      the keys no reserved prefix starts, and the configured greyscale,
      dropout and scale values. */
  function LoadConfig(config: JsonDict): (r: Result<Settings, ConfigError>)
    ensures r.Err? <==> exists i :: 0 <= i < |RequiredKeys| && RequiredKeys[i] !in Keys(config)
    ensures r.Err? ==> FirstMissing(config, RequiredKeys) == Some(r.error.key)
    ensures r.Ok? ==>
      && Sorting.Sorted(r.value.vars, Text.LexLe)
      && Sorting.Distinct(r.value.vars)
      && (forall k :: k in r.value.vars <==> k in Keys(config) && !Excluded(k))
    ensures r.Ok? ==>
      && Lookup(config, "greyscale") == Some(r.value.greyscale)
      && Lookup(config, "dropout") == Some(r.value.dropout)
      && Lookup(config, "scale") == Some(r.value.scale)
  {
    match FirstMissing(config, RequiredKeys)
    case Some(key) => Err(MissingKey(key))
    case None =>
      ReturnedSettingsPresent(config);
      Ok(Settings(SortedVariables(config),
        Lookup(config, "greyscale").value, Lookup(config, "dropout").value, Lookup(config, "scale").value))
  }

  lemma KeysDistinct(d: JsonDict)
    ensures Sorting.Distinct(Keys(d))
  {
  }

  /** Since `greyscale` is required, its fallback to "true" never happens:
      a loaded configuration always has the key. */
  lemma GreyscaleFallbackUnreachable(config: JsonDict)
    ensures LoadConfig(config).Ok? ==> "greyscale" in Keys(config)
  {
    assert RequiredKeys[5] == "greyscale";
  }

  /** The required keys are all reserved, so none of them is ever a
      variable. */
  lemma RequiredKeysAreExcluded()
    ensures forall i :: 0 <= i < |RequiredKeys| ==> Excluded(RequiredKeys[i])
  {
    assert Text.StartsWith("csvfile", ExcludedPrefixes[7]);
    assert Text.StartsWith("res_folder", ExcludedPrefixes[5]);
    assert Text.StartsWith("name", ExcludedPrefixes[9]);
    assert Text.StartsWith("dropout", ExcludedPrefixes[12]);
    assert Text.StartsWith("scale", ExcludedPrefixes[14]);
    assert Text.StartsWith("greyscale", ExcludedPrefixes[10]);
  }

  /** Matching is by prefix: "N" drops every key beginning with a capital N,
      "scale" drops "scale_x", while a percentile key such as "P50" stays. */
  lemma PrefixMatching()
    ensures |ExcludedPrefixes| == 16
    ensures Excluded("NUM_EPOCHS") && Excluded("scale_x")
    ensures !Excluded("P50")
  {
    assert Text.StartsWith("NUM_EPOCHS", ExcludedPrefixes[13]);
    assert Text.StartsWith("scale_x", ExcludedPrefixes[14]);
    forall i | 0 <= i < |ExcludedPrefixes|
      ensures !Text.StartsWith("P50", ExcludedPrefixes[i])
    {
      assert ExcludedPrefixes[i][0] != 'P';
    }
  }

  /** `vars` depends only on which keys the object has, not on their order
      in the file. */
  lemma VarsIgnoreKeyOrder(a: JsonDict, b: JsonDict)
    requires forall k :: k in Keys(a) <==> k in Keys(b)
    ensures LoadConfig(a).Ok? <==> LoadConfig(b).Ok?
    ensures LoadConfig(a).Ok? ==> LoadConfig(a).value.vars == LoadConfig(b).value.vars
  {
    if LoadConfig(a).Ok? && LoadConfig(b).Ok? {
      Text.LexLeTotalOrder();
      var va, vb := LoadConfig(a).value.vars, LoadConfig(b).value.vars;
      DistinctSameElements(va, vb);
      Sorting.SortedUnique(va, vb, Text.LexLe);
    }
  }

  /** Two repetition-free sequences with the same elements are
      rearrangements of each other. */
  lemma DistinctSameElements<T>(a: seq<T>, b: seq<T>)
    requires Sorting.Distinct(a) && Sorting.Distinct(b)
    requires forall x :: x in a <==> x in b
    ensures multiset(a) == multiset(b)
  {
    forall x
      ensures multiset(a)[x] == multiset(b)[x]
    {
      DistinctMultiplicity(a, x);
      DistinctMultiplicity(b, x);
    }
  }

  lemma {:induction false} DistinctMultiplicity<T>(s: seq<T>, x: T)
    requires Sorting.Distinct(s)
    ensures multiset(s)[x] == if x in s then 1 else 0
    decreases |s|
  {
    if |s| > 0 {
      assert s == [s[0]] + s[1..];
      DistinctMultiplicity(s[1..], x);
      assert s[0] !in s[1..];
    }
  }
}
