/** app/ai/client_runtime_tools.py: the names a device's tools are exposed to the model under.

    Every name carries the client prefix; a name already taken gets the smallest free numeric
    suffix. The search for that suffix ends because only finitely many names are taken. */
module ClientToolNames {
  import opened Options
  import opened FiniteSets
  import opened PythonText
  import opened Json

  /** `str.lower` and `sanitize_identifier`, which this model does not look into. */
  datatype Text = Text(lower: string -> string, sanitize: string -> string)

  const CLIENT_TOOL_PREFIX := "client__"

  datatype Spec = Spec(
    name: string, description: string, origin: string, serverName: string, qualifiedToolId: string,
    inputSchema: Value, exposedName: string, toolInstanceId: string, mutation: bool, sourceHash: string)

  // ---------------------------------------------------------------- reading one entry

  function AsText(v: Value): string {
    match v
    case Str(s) => s
    case other => Dumps(other, false)
  }

  /** `str(entry.get(key) or "")` */
  function FieldText(fields: seq<Field>, key: string): string {
    match Get(fields, key)
    case Some(v) => if Truthy(v) then AsText(v) else ""
    case None => ""
  }

  function Origin(fields: seq<Field>, text: Text): string {
    text.lower(Strip(FieldText(fields, "origin")))
  }

  predicate IsCatalogOrigin(origin: string) {
    origin == "mcp" || origin == "skill"
  }

  function SetDefault(fields: seq<Field>, key: string, value: Value): seq<Field> {
    if Get(fields, key).None? then fields + [Field(key, value)] else fields
  }

  function NormalizeInputSchema(schema: Option<Value>): Value {
    var objectType, noProperties := Str("object"), Obj([]);
    if schema.Some? && schema.value.Obj?
    then Obj(SetDefault(SetDefault(schema.value.fields, "type", objectType), "properties", noProperties))
    else Obj([Field("type", objectType), Field("properties", noProperties)])
  }

  /** Entries that name a tool, a server and a catalog origin; the rest are skipped. */
  predicate IsUsable(entry: Value, text: Text) {
    && entry.Obj?
    && Strip(FieldText(entry.fields, "qualified_id")) != ""
    && Strip(FieldText(entry.fields, "name")) != ""
    && IsCatalogOrigin(Origin(entry.fields, text))
    && Strip(FieldText(entry.fields, "server_name")) != ""
    && text.sanitize(FieldText(entry.fields, "server_name")) != ""
  }

  function Candidate(fields: seq<Field>, text: Text): string {
    CLIENT_TOOL_PREFIX + text.sanitize(FieldText(fields, "server_name"))
      + "__" + text.sanitize(FieldText(fields, "name"))
  }

  function MakeSpec(fields: seq<Field>, exposedName: string, text: Text): Spec {
    var name := Strip(FieldText(fields, "name"));
    var description := Strip(FieldText(fields, "description"));
    var mutation := Get(fields, "mutation");
    Spec(name,
         if description != "" then description else "Execute the client-local tool '" + name + "'.",
         Origin(fields, text), Strip(FieldText(fields, "server_name")),
         Strip(FieldText(fields, "qualified_id")), NormalizeInputSchema(Get(fields, "input_schema")),
         exposedName, FieldText(fields, "tool_instance_id"),
         mutation.Some? && Truthy(mutation.value), FieldText(fields, "source_hash"))
  }

  // ---------------------------------------------------------------- free names

  function Suffixed(candidate: string, suffix: nat): string {
    candidate + "_" + Decimal(suffix)
  }

  /** The suffixed names up to a bound, as a set. */
  function SuffixedUpTo(candidate: string, bound: nat): set<string> {
    set k | 2 <= k < bound :: Suffixed(candidate, k)
  }

  lemma SuffixedInjective(candidate: string, j: nat, k: nat)
    requires Suffixed(candidate, j) == Suffixed(candidate, k)
    ensures j == k
  {
    var n := |candidate| + 1;
    assert Suffixed(candidate, j)[n..] == Decimal(j);
    assert Suffixed(candidate, k)[n..] == Decimal(k);
    DecimalInjective(j, k);
  }

  lemma {:induction false} SuffixedCount(candidate: string, bound: nat)
    requires bound >= 2
    ensures |SuffixedUpTo(candidate, bound)| == bound - 2
  {
    hide Suffixed;
    if bound == 2 {
      assert SuffixedUpTo(candidate, bound) == {};
    } else {
      SuffixedCount(candidate, bound - 1);
      var last := Suffixed(candidate, bound - 1);
      assert SuffixedUpTo(candidate, bound) == SuffixedUpTo(candidate, bound - 1) + {last};
      forall k | 2 <= k < bound - 1
        ensures Suffixed(candidate, k) != last
      {
        if Suffixed(candidate, k) == last {
          SuffixedInjective(candidate, k, bound - 1);
        }
      }
    }
  }

  /** The pigeonhole: taken names are finite, so a run of taken suffixes is no longer than they are. */
  lemma TakenSuffixesAreBounded(candidate: string, seen: set<string>, bound: nat)
    requires bound >= 2 && candidate in seen && SuffixedUpTo(candidate, bound) <= seen
    ensures bound <= |seen| + 1
  {
    SuffixedCount(candidate, bound);
    assert forall k: nat :: |Suffixed(candidate, k)| > |candidate|;
    assert candidate !in SuffixedUpTo(candidate, bound);
    SubsetSize(SuffixedUpTo(candidate, bound) + {candidate}, seen);
  }

  /** `name` is the one the search settles on: the candidate when it is free, otherwise the
      candidate with the smallest free suffix. */
  predicate IsFirstFree(candidate: string, seen: set<string>, name: string) {
    if candidate !in seen then name == candidate
    else
      && name !in seen
      && exists k: nat :: 2 <= k <= |seen| + 1 && name == Suffixed(candidate, k) && SuffixedUpTo(candidate, k) <= seen
  }

  lemma FirstFreeIsUnique(candidate: string, seen: set<string>, a: string, b: string)
    requires IsFirstFree(candidate, seen, a) && IsFirstFree(candidate, seen, b)
    ensures a == b
  {
    hide Suffixed;
    if candidate in seen {
      var j: nat :| 2 <= j && a == Suffixed(candidate, j) && SuffixedUpTo(candidate, j) <= seen;
      var k: nat :| 2 <= k && b == Suffixed(candidate, k) && SuffixedUpTo(candidate, k) <= seen;
      assert j < k ==> a in SuffixedUpTo(candidate, k);
      assert k < j ==> b in SuffixedUpTo(candidate, j);
    }
  }

  ghost function FirstFree(candidate: string, seen: set<string>): (name: string)
    ensures IsFirstFree(candidate, seen, name)
    ensures name !in seen && candidate <= name
  {
    FirstFreeExists(candidate, seen);
    var name :| IsFirstFree(candidate, seen, name);
    name
  }

  lemma FirstFreeExists(candidate: string, seen: set<string>)
    ensures exists name :: IsFirstFree(candidate, seen, name)
  {
    if candidate !in seen {
      assert IsFirstFree(candidate, seen, candidate);
    } else {
      var k := LeastFreeSuffix(candidate, seen, 2);
      TakenSuffixesAreBounded(candidate, seen, k);
      assert IsFirstFree(candidate, seen, Suffixed(candidate, k));
    }
  }

  lemma {:induction false} LeastFreeSuffix(candidate: string, seen: set<string>, from: nat) returns (k: nat)
    requires from >= 2 && candidate in seen && SuffixedUpTo(candidate, from) <= seen
    ensures k >= 2 && Suffixed(candidate, k) !in seen && SuffixedUpTo(candidate, k) <= seen
    decreases |seen| + 2 - from
  {
    hide Suffixed;
    TakenSuffixesAreBounded(candidate, seen, from);
    if Suffixed(candidate, from) !in seen {
      k := from;
    } else {
      assert SuffixedUpTo(candidate, from + 1) == SuffixedUpTo(candidate, from) + {Suffixed(candidate, from)};
      TakenSuffixesAreBounded(candidate, seen, from + 1);
      k := LeastFreeSuffix(candidate, seen, from + 1);
    }
  }

  /** None stands for the ValueError of an entry that is from no server or no catalog origin. */
  method BuildExposedName(fields: seq<Field>, text: Text, seen: set<string>)
    returns (name: Option<string>, nowSeen: set<string>)
    ensures IsCatalogOrigin(Origin(fields, text)) && text.sanitize(FieldText(fields, "server_name")) != ""
      ==> name == Some(FirstFree(Candidate(fields, text), seen)) && nowSeen == seen + {name.value}
    ensures !(IsCatalogOrigin(Origin(fields, text)) && text.sanitize(FieldText(fields, "server_name")) != "")
      ==> name == None && nowSeen == seen
  {
    hide Suffixed, Candidate, Origin, FieldText;
    var origin := Origin(fields, text);
    var serverName := text.sanitize(FieldText(fields, "server_name"));
    if !IsCatalogOrigin(origin) || serverName == "" {
      return None, seen;
    }
    var candidate := Candidate(fields, text);
    ghost var expected := FirstFree(candidate, seen);
    if candidate !in seen {
      return Some(candidate), seen + {candidate};
    }
    var suffix := 2;
    while Suffixed(candidate, suffix) in seen
      invariant suffix >= 2 && SuffixedUpTo(candidate, suffix) <= seen
      decreases |seen| + 2 - suffix
    {
      assert SuffixedUpTo(candidate, suffix + 1) == SuffixedUpTo(candidate, suffix) + {Suffixed(candidate, suffix)};
      TakenSuffixesAreBounded(candidate, seen, suffix + 1);
      suffix := suffix + 1;
    }
    TakenSuffixesAreBounded(candidate, seen, suffix);
    var unique := Suffixed(candidate, suffix);
    FirstFreeIsUnique(candidate, seen, unique, expected);
    return Some(unique), seen + {unique};
  }

  // ---------------------------------------------------------------- the whole catalog

  function Names(specs: seq<Spec>): set<string> {
    set i | 0 <= i < |specs| :: specs[i].exposedName
  }

  /** The specs of a list of entries, named in order. */
  ghost function Specs(entries: seq<Value>, text: Text): seq<Spec> {
    if |entries| == 0 then [] else
    var before := Specs(entries[..|entries| - 1], text);
    var entry := entries[|entries| - 1];
    if !IsUsable(entry, text) then before
    else before + [MakeSpec(entry.fields, FirstFree(Candidate(entry.fields, text), Names(before)), text)]
  }

  function CatalogTools(catalog: Value): seq<Value> {
    if !catalog.Obj? then [] else
    match Get(catalog.fields, "tools")
    case Some(Arr(items)) => items
    case _ => []
  }

  method ParseToolSpecs(catalog: Value, text: Text) returns (parsed: seq<Spec>)
    ensures parsed == Specs(CatalogTools(catalog), text)
  {
    hide MakeSpec, Candidate, FieldText, Strip, Origin;
    var rawTools := CatalogTools(catalog);
    var seenNames: set<string> := {};
    parsed := [];
    for i := 0 to |rawTools|
      invariant parsed == Specs(rawTools[..i], text)
      invariant seenNames == Names(parsed)
    {
      var entry := rawTools[i];
      assert rawTools[..i + 1][..i] == rawTools[..i];
      if !entry.Obj? {
        continue;
      }
      if || Strip(FieldText(entry.fields, "qualified_id")) == ""
         || Strip(FieldText(entry.fields, "name")) == ""
         || !IsCatalogOrigin(Origin(entry.fields, text))
         || Strip(FieldText(entry.fields, "server_name")) == ""
      {
        continue;
      }
      var exposed;
      exposed, seenNames := BuildExposedName(entry.fields, text, seenNames);
      if exposed.None? {
        continue;
      }
      var spec := MakeSpec(entry.fields, exposed.value, text);
      SpecName(entry.fields, exposed.value, text);
      NamesAppend(parsed, spec);
      parsed := parsed + [spec];
    }
    assert rawTools[..|rawTools|] == rawTools;
  }

  lemma SpecName(fields: seq<Field>, name: string, text: Text)
    ensures MakeSpec(fields, name, text).exposedName == name
  {
  }

  lemma NamesAppend(specs: seq<Spec>, spec: Spec)
    ensures Names(specs + [spec]) == Names(specs) + {spec.exposedName}
  {
    var longer := specs + [spec];
    assert longer[|specs|].exposedName in Names(longer);
    forall i | 0 <= i < |specs|
      ensures specs[i].exposedName in Names(longer)
    {
      assert longer[i] == specs[i];
    }
  }

  predicate DistinctNames(specs: seq<Spec>) {
    forall i, j :: 0 <= i < j < |specs| ==> specs[i].exposedName != specs[j].exposedName
  }

  predicate HasClientPrefix(name: string) {
    CLIENT_TOOL_PREFIX <= name
  }

  /** Whatever a device syncs, no two of its tools share a name and every name carries the
      client prefix, so none can collide with a server tool. */
  lemma {:induction false} ExposedNamesAreDistinct(entries: seq<Value>, text: Text)
    ensures DistinctNames(Specs(entries, text))
    ensures forall spec :: spec in Specs(entries, text) ==> HasClientPrefix(spec.exposedName)
  {
    hide MakeSpec, IsFirstFree, Strip, FieldText, Origin, HasClientPrefix;
    if entries != [] {
      var entry := entries[|entries| - 1];
      var before := Specs(entries[..|entries| - 1], text);
      ExposedNamesAreDistinct(entries[..|entries| - 1], text);
      if IsUsable(entry, text) {
        var name := FirstFree(Candidate(entry.fields, text), Names(before));
        SpecName(entry.fields, name, text);
        assert Specs(entries, text) == before + [MakeSpec(entry.fields, name, text)];
        CandidatePrefix(entry.fields, text, name);
        forall i | 0 <= i < |before|
          ensures before[i].exposedName != name
        {
          assert before[i].exposedName in Names(before);
        }
      }
    }
  }

  lemma CandidatePrefix(fields: seq<Field>, text: Text, name: string)
    requires Candidate(fields, text) <= name
    ensures HasClientPrefix(name)
  {
    assert CLIENT_TOOL_PREFIX <= Candidate(fields, text);
  }

  /** A tool's name depends on the entries before it only: entries added behind it never rename it. */
  lemma {:induction false} EarlierNamesAreStable(entries: seq<Value>, text: Text, n: nat)
    requires n <= |entries|
    ensures Specs(entries[..n], text) <= Specs(entries, text)
    decreases |entries| - n
  {
    if n == |entries| {
      assert entries[..n] == entries;
    } else {
      EarlierNamesAreStable(entries, text, n + 1);
      assert entries[..n + 1][..n] == entries[..n];
    }
  }

  /** The name of one current catalog entry, looked up by its qualified id. */
  method GetExposedClientToolName(catalog: Value, qualifiedToolId: string, text: Text) returns (name: Option<string>)
    ensures var specs := Specs(CatalogTools(catalog), text);
      if exists i :: 0 <= i < |specs| && specs[i].qualifiedToolId == qualifiedToolId
      then exists i ::
             && 0 <= i < |specs| && specs[i].qualifiedToolId == qualifiedToolId
             && name == Some(specs[i].exposedName)
             && forall j :: 0 <= j < i ==> specs[j].qualifiedToolId != qualifiedToolId
      else name == None
  {
    var specs := ParseToolSpecs(catalog, text);
    for i := 0 to |specs|
      invariant forall j :: 0 <= j < i ==> specs[j].qualifiedToolId != qualifiedToolId
    {
      if specs[i].qualifiedToolId == qualifiedToolId {
        return Some(specs[i].exposedName);
      }
    }
    return None;
  }
}
