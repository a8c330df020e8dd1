/**
 * The defaulting at the top of the `cli` command: which output formats are
 * written, whether the schema is fetched, and which tables are exported;
 * and the names of the files written for one table.
 */
module Options {
  import opened Wrappers
  import opened Values

  /** The `--json`, `--ndjson` and `--yaml` flags after defaulting. */
  datatype Formats = Formats(json: bool, ndjson: bool, yaml: bool)

  /** Python truthiness of the `--sqlite` path: given and not empty. */
  predicate SqliteEnabled(sqlite: Option<string>)
  {
    sqlite.Some? && sqlite.value != ""
  }

  /**
   * YAML is switched on when no format and no database was asked for;
   * otherwise the flags stay as given. Either way at least one output is
   * selected.
   */
  function ResolveFormats(json: bool, ndjson: bool, yaml: bool, sqlite: Option<string>): (f: Formats)
    ensures f.json == json && f.ndjson == ndjson
    ensures f.yaml <==> yaml || (!json && !ndjson && !SqliteEnabled(sqlite))
    ensures (json || ndjson || yaml || SqliteEnabled(sqlite)) ==> f == Formats(json, ndjson, yaml)
    ensures f.json || f.ndjson || f.yaml || SqliteEnabled(sqlite)
  {
    if !json && !ndjson && !yaml && !SqliteEnabled(sqlite) then Formats(json, ndjson, true)
    else Formats(json, ndjson, yaml)
  }

  /** The files written for one table, in the order they are written: `.json`, `.ndjson`, `.yml`. */
  function OutputFiles(table: string, f: Formats): (names: seq<string>)
    ensures |names| == (if f.json then 1 else 0) + (if f.ndjson then 1 else 0) + (if f.yaml then 1 else 0)
    ensures (table + ".json" in names) == f.json
    ensures (table + ".ndjson" in names) == f.ndjson
    ensures (table + ".yml" in names) == f.yaml
  {
    var json := table + ".json";
    var ndjson := table + ".ndjson";
    var yml := table + ".yml";
    assert json[|table|..] == ".json" && ndjson[|table|..] == ".ndjson" && yml[|table|..] == ".yml";
    (if f.json then [json] else []) + (if f.ndjson then [ndjson] else []) + (if f.yaml then [yml] else [])
  }

  /** With no flags at all, exactly one file is written: `<table>.yml`. */
  lemma DefaultIsYaml(table: string)
    ensures OutputFiles(table, ResolveFormats(false, false, false, None)) == [table + ".yml"]
  {
  }

  /** The `name` of each listed table, in order, stopping at the first element that raises. */
  function NameList(items: seq<Value>): (r: Result<seq<Value>, Fault>)
    ensures r.Ok? <==> forall i :: 0 <= i < |items| ==> Subscript(items[i], "name").Ok?
    ensures r.Ok? ==> |r.value| == |items|
                      && forall i :: 0 <= i < |items| ==> Subscript(items[i], "name") == Ok(r.value[i])
    ensures r.Err? ==> exists i :: 0 <= i < |items| && Subscript(items[i], "name") == Err(r.error)
                                   && forall k :: 0 <= k < i ==> Subscript(items[k], "name").Ok?
  {
    if items == [] then Ok([])
    else
      match Subscript(items[0], "name")
      case Err(f) => Err(f)
      case Ok(name) =>
        match NameList(items[1..])
        case Err(f) =>
          assert forall k :: 1 <= k < |items| ==> items[k] == items[1..][k - 1];
          Err(f)
        case Ok(rest) => Ok([name] + rest)
  }

  /**
   * The names listed in a schema response, as the comprehension over
   * `schema_data["tables"]` computes them. Iterating a dict yields its keys
   * and iterating a string its characters, so a non-empty dict or string
   * there fails on `["name"]`, and an empty one yields no tables.
   */
  function SchemaTableNames(schema: Value): (r: Result<seq<Value>, Fault>)
    ensures schema.Obj? && "tables" !in Keys(schema.entries) ==> r == Err(KeyError("tables"))
    ensures !schema.Obj? ==> r == Err(TypeError)
  {
    match Subscript(schema, "tables")
    case Err(f) => Err(f)
    case Ok(tables) =>
      match tables
      case List(items) => NameList(items)
      case Obj(entries) => if entries == [] then Ok([]) else Err(TypeError)
      case Str(s) => if s == [] then Ok([]) else Err(TypeError)
      case _ => Err(TypeError)
  }

  /** Whether the schema is fetched (and dumped to `_schema.json`), and the tables to export. */
  datatype TablePlan = TablePlan(fetchSchema: bool, tables: Result<seq<Value>, Fault>)

  /**
   * The schema is fetched when no table was named or `--schema` was given;
   * tables named on the command line are kept as given even when the schema
   * is dumped; otherwise the tables are the names the schema lists, in order.
   * The schema response is consulted only when it was fetched.
   */
  function PlanTables(given: seq<string>, dumpSchema: bool, schema: Value): (p: TablePlan)
    ensures p.fetchSchema <==> given == [] || dumpSchema
    ensures given != [] ==> p.tables.Ok? && |p.tables.value| == |given|
                            && forall i :: 0 <= i < |given| ==> p.tables.value[i] == Str(given[i])
    ensures given == [] ==> p.tables == SchemaTableNames(schema)
  {
    var fetch := given == [] || dumpSchema;
    if given != [] then TablePlan(fetch, Ok(seq(|given|, i requires 0 <= i < |given| => Str(given[i]))))
    else TablePlan(fetch, SchemaTableNames(schema))
  }

  /**
   * A schema whose `tables` is a list of objects that all carry a `name`
   * gives exactly those names, in order.
   */
  lemma SchemaNamesInOrder(entries: Dict, items: seq<Value>)
    requires Lookup(entries, "tables") == Some(List(items))
    requires forall i :: 0 <= i < |items| ==> items[i].Obj? && "name" in Keys(items[i].entries)
    ensures var r := SchemaTableNames(Obj(entries));
            && r.Ok? && |r.value| == |items|
            && forall i :: 0 <= i < |items| ==> Lookup(items[i].entries, "name") == Some(r.value[i])
  {
    var r := NameList(items);
    assert forall i :: 0 <= i < |items| ==> Subscript(items[i], "name").Ok?;
  }
}
