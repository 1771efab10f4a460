/** app/ai/client_runtime_tools.py: what a synced catalog is read as, said on the fields of its
    entries. */
module ClientCatalog {
  import opened Options
  import opened PythonText
  import opened Json
  import opened JsonRead
  import opened Picks
  import opened ClientToolNames

  // ---------------------------------------------------------------- one entry

  /** The text under a key: nothing for a missing or false value, the string itself, else its JSON. */
  function TextIn(fields: seq<Field>, key: string): string {
    match Get(fields, key)
    case None => ""
    case Some(v) =>
      if Falsy(Some(v)) then "" else if v.Str? then v.s else Dumps(v, false)
  }

  lemma TextInIs(fields: seq<Field>, key: string)
    ensures FieldText(fields, key) == TextIn(fields, key)
  {
    hide Get, Dumps;
    if Get(fields, key).Some? {
      FalsyIff(Get(fields, key).value);
    }
  }

  /** An entry is read if it is an object that has an id, a name, a catalog origin and a server, in
      more than blanks. */
  predicate IsRead(entry: Value, text: Text) {
    && entry.Obj?
    && Strip(TextIn(entry.fields, "qualified_id")) != ""
    && Strip(TextIn(entry.fields, "name")) != ""
    && text.lower(Strip(TextIn(entry.fields, "origin"))) in {"mcp", "skill"}
    && Strip(TextIn(entry.fields, "server_name")) != ""
    && text.sanitize(TextIn(entry.fields, "server_name")) != ""
  }

  /** The schema the entry gives, with a type and properties if it has none. */
  ghost predicate IsSchema(schema: Value, given: Option<Value>) {
    && schema.Obj?
    && (given.Some? && given.value.Obj? ==> given.value.fields <= schema.fields)
    && (forall key :: key !in {"type", "properties"} ==>
          Get(schema.fields, key) == if given.Some? && given.value.Obj? then Get(given.value.fields, key) else None)
    && Get(schema.fields, "type") == GivenOr(given, "type", Str("object"))
    && Get(schema.fields, "properties") == GivenOr(given, "properties", Obj([]))
  }

  function GivenOr(given: Option<Value>, key: string, default: Value): Option<Value> {
    if given.Some? && given.value.Obj? && Get(given.value.fields, key).Some? then Get(given.value.fields, key)
    else Some(default)
  }

  /** The tool says of itself what the entry's fields say. */
  ghost predicate Describes(spec: Spec, fields: seq<Field>, text: Text) {
    && spec.name == Strip(TextIn(fields, "name"))
    && spec.description
       == (if Strip(TextIn(fields, "description")) != "" then Strip(TextIn(fields, "description"))
           else "Execute the client-local tool '" + Strip(TextIn(fields, "name")) + "'.")
    && spec.origin == text.lower(Strip(TextIn(fields, "origin")))
    && spec.serverName == Strip(TextIn(fields, "server_name"))
    && spec.qualifiedToolId == Strip(TextIn(fields, "qualified_id"))
    && IsSchema(spec.inputSchema, Get(fields, "input_schema"))
    && spec.toolInstanceId == TextIn(fields, "tool_instance_id")
    && (spec.mutation <==> !Falsy(Get(fields, "mutation")))
    && spec.sourceHash == TextIn(fields, "source_hash")
    && "client__" + text.sanitize(TextIn(fields, "server_name")) + "__" + text.sanitize(TextIn(fields, "name"))
       <= spec.exposedName
  }

  lemma ReadIffUsable(entry: Value, text: Text)
    ensures IsRead(entry, text) <==> IsUsable(entry, text)
  {
    hide TextIn, FieldText, Strip;
    if entry.Obj? {
      TextInIs(entry.fields, "qualified_id");
      TextInIs(entry.fields, "name");
      TextInIs(entry.fields, "origin");
      TextInIs(entry.fields, "server_name");
    }
  }

  lemma {:induction false} GetAppended(fields: seq<Field>, field: Field, key: string)
    ensures Get(fields + [field], key)
         == if Get(fields, key).Some? then Get(fields, key) else if field.key == key then Some(field.value) else None
  {
    if fields == [] {
      assert fields + [field] == [field] && [field][1..] == [];
    } else {
      assert (fields + [field])[1..] == fields[1..] + [field];
      GetAppended(fields[1..], field, key);
    }
  }

  lemma DefaultIsSet(fields: seq<Field>, key: string, value: Value, other: string)
    ensures fields <= SetDefault(fields, key, value)
    ensures Get(SetDefault(fields, key, value), other)
         == if other == key && Get(fields, key).None? then Some(value) else Get(fields, other)
  {
    hide Get;
    GetAppended(fields, Field(key, value), other);
  }

  lemma SchemaIs(given: Option<Value>)
    ensures IsSchema(NormalizeInputSchema(given), given)
  {
    hide Get, SetDefault;
    if given.Some? && given.value.Obj? {
      var fields := given.value.fields;
      var typed := SetDefault(fields, "type", Str("object"));
      forall key: string
        ensures Get(SetDefault(typed, "properties", Obj([])), key)
             == if key == "properties" && Get(fields, key).None? then Some(Obj([]))
                else if key == "type" && Get(fields, key).None? then Some(Str("object"))
                else Get(fields, key)
      {
        DefaultIsSet(fields, "type", Str("object"), key);
        DefaultIsSet(fields, "type", Str("object"), "properties");
        DefaultIsSet(typed, "properties", Obj([]), key);
      }
      DefaultIsSet(fields, "type", Str("object"), "type");
      DefaultIsSet(typed, "properties", Obj([]), "type");
    } else {
      forall key: string
        ensures Get([Field("type", Str("object")), Field("properties", Obj([]))], key)
             == if key == "type" then Some(Str("object")) else if key == "properties" then Some(Obj([])) else None
      {
        EmptySchema(key);
      }
    }
  }

  lemma EmptySchema(key: string)
    ensures Get([Field("type", Str("object")), Field("properties", Obj([]))], key)
         == if key == "type" then Some(Str("object")) else if key == "properties" then Some(Obj([])) else None
  {
    var fields := [Field("type", Str("object")), Field("properties", Obj([]))];
    assert fields[1..] == [fields[1]] && fields[1..][1..] == [];
  }

  lemma SpecDescribes(fields: seq<Field>, exposedName: string, text: Text)
    requires Candidate(fields, text) <= exposedName
    ensures Describes(MakeSpec(fields, exposedName, text), fields, text)
  {
    hide TextIn, FieldText, Strip, NormalizeInputSchema, IsSchema, Get;
    TextInIs(fields, "name");
    TextInIs(fields, "description");
    TextInIs(fields, "origin");
    TextInIs(fields, "server_name");
    TextInIs(fields, "qualified_id");
    TextInIs(fields, "tool_instance_id");
    TextInIs(fields, "source_hash");
    SchemaIs(Get(fields, "input_schema"));
    if Get(fields, "mutation").Some? {
      FalsyIff(Get(fields, "mutation").value);
    }
  }

  // ---------------------------------------------------------------- the whole catalog

  /** Each entry that can be read gives one tool, in order, that says what its entry says; the others
      give none. */
  lemma {:induction false} ToolsAreTheEntries(entries: seq<Value>, text: Text) returns (at: seq<nat>)
    ensures |at| == |Specs(entries, text)| && Ascending(at)
    ensures forall i: nat :: i in at <==> i < |entries| && IsRead(entries[i], text)
    ensures forall k :: 0 <= k < |at| ==> at[k] < |entries| && entries[at[k]].Obj?
    ensures forall k :: 0 <= k < |at| ==> Describes(Specs(entries, text)[k], entries[at[k]].fields, text)
  {
    hide IsRead, IsUsable, Describes, MakeSpec, IsFirstFree, Candidate;
    if entries == [] {
      at := [];
    } else {
      var n := |entries| - 1;
      var entry := entries[n];
      var before := ToolsAreTheEntries(entries[..n], text);
      ReadIffUsable(entry, text);
      forall i: nat
        ensures i in before <==> i < n && IsRead(entries[i], text)
      {
        assert i < n ==> entries[..n][i] == entries[i];
      }
      if IsUsable(entry, text) {
        AnEntryIsAnObject(entry, text);
        SpecDescribes(entry.fields, FirstFree(Candidate(entry.fields, text), Names(Specs(entries[..n], text))), text);
        at := before + [n];
      } else {
        at := before;
      }
    }
  }

  lemma AnEntryIsAnObject(entry: Value, text: Text)
    requires IsUsable(entry, text)
    ensures entry.Obj?
  {
  }

  predicate HasTools(catalog: Value, items: seq<Value>) {
    catalog.Obj? && Get(catalog.fields, "tools") == Some(Arr(items))
  }

  /** The entries of a catalog: the list under `tools`, if there is one. */
  lemma CatalogToolsAre(catalog: Value)
    ensures forall items :: HasTools(catalog, items) ==> CatalogTools(catalog) == items
    ensures (forall items :: !HasTools(catalog, items)) ==> CatalogTools(catalog) == []
  {
    hide Get;
    if CatalogTools(catalog) != [] {
      assert HasTools(catalog, CatalogTools(catalog));
    }
  }
}
