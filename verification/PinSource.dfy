/** The source of a pin: bytes that decode to a catalog whose rows have distinct names. */
module PinSource {
  import opened Json
  import opened JsonFacts
  import opened ExecutorPin
  import opened CatalogText
  import opened Utf8

  const SERVICE_NAME: Str := UnitsOf("service_name")
  const REPOSITORY: Str := UnitsOf("repository")
  const MODE: Str := UnitsOf("management_mode")
  const ENABLED: Str := UnitsOf("enabled")
  const MANAGED: Value := Text(UnitsOf("managed"))
  const AUTO: Value := Text(UnitsOf("auto"))
  const CLOUD_BUILD: Value := Text(UnitsOf("cloud_build"))
  const SIZE_LIMIT := 32 * 1024 * 1024

  function Get(m: map<Str, Value>, key: Str, default: Value): Value { if key in m then m[key] else default }

  ghost predicate NamedRow(row: Value) { row.Object? && SERVICE_NAME in row.fields && row.fields[SERVICE_NAME].Text? }

  ghost function NameOf(row: Value): Str
    requires NamedRow(row)
  {
    row.fields[SERVICE_NAME].units
  }

  /** Every row has a name, and no two rows share one. */
  ghost predicate Named(rows: seq<Value>) {
    && (forall i | 0 <= i < |rows| :: NamedRow(rows[i]))
    && (forall i, j | 0 <= i < j < |rows| :: NameOf(rows[i]) != NameOf(rows[j]))
  }

  ghost function NamesOf(rows: seq<Value>): set<Str>
    requires forall i | 0 <= i < |rows| :: NamedRow(rows[i])
  {
    set i | 0 <= i < |rows| :: NameOf(rows[i])
  }

  method CheckNames(rows: seq<Value>) returns (ok: bool)
    ensures ok == Named(rows)
  {
    hide UnitsOf;
    var names: set<Str> := {};
    for i := 0 to |rows|
      invariant forall k | 0 <= k < i :: NamedRow(rows[k]) && NameOf(rows[k]) in names
      invariant forall k, j | 0 <= k < j < i :: NameOf(rows[k]) != NameOf(rows[j])
      invariant forall n | n in names :: exists k :: 0 <= k < i && NameOf(rows[k]) == n
    {
      if !rows[i].Object? { return false; }
      var name := Get(rows[i].fields, SERVICE_NAME, Null);
      if !name.Text? { return false; }
      if name.units in names { return false; }
      names := names + {name.units};
    }
    return true;
  }

  /** The rows with one of these names, and which of the names are there. */
  method SelectRows(rows: seq<Value>, names: set<Str>) returns (indices: set<nat>, found: set<Str>)
    requires Named(rows)
    ensures indices == set i: nat | i < |rows| && NameOf(rows[i]) in names
    ensures forall n :: n in found <==> n in names && exists i :: 0 <= i < |rows| && NameOf(rows[i]) == n
  {
    hide UnitsOf, NamedRow;
    indices, found := {}, {};
    for i := 0 to |rows|
      invariant indices == set k: nat | k < i && NameOf(rows[k]) in names
      invariant forall n :: n in found <==> n in names && exists k :: 0 <= k < i && NameOf(rows[k]) == n
    {
      NameRead(rows[i]);
      var name := Get(rows[i].fields, SERVICE_NAME, Null).units;
      if name in names { indices, found := indices + {i}, found + {name}; }
    }
  }

  lemma NameRead(row: Value)
    requires NamedRow(row)
    ensures row.Object? && Get(row.fields, SERVICE_NAME, Null) == Text(NameOf(row))
  {
  }

  /** The bytes decode to a catalog with a list of services. */
  ghost predicate Catalog(raw: seq<Byte>) {
    match Utf8.Decode(raw)
    case None => false
    case Some(text) => Json.Decode(text).Ok? && IsRoot(Json.Decode(text).value)
  }

  ghost predicate IsRoot(v: Value) { v.Object? && SERVICES in v.fields && v.fields[SERVICES].Array? }

  ghost function TextOf(raw: seq<Byte>): string
    requires Catalog(raw)
  {
    Utf8.Decode(raw).value
  }

  ghost function RootOf(raw: seq<Byte>): map<Str, Value>
    requires Catalog(raw)
  {
    Json.Decode(TextOf(raw)).value.fields
  }

  ghost function ServicesOf(raw: seq<Byte>): seq<Value>
    requires Catalog(raw)
    ensures SERVICES in RootOf(raw) && RootOf(raw)[SERVICES] == Array(ServicesOf(raw))
  {
    RootOf(raw)[SERVICES].items
  }

  /** Reading a catalog: its text, its root object and its rows. */
  method ReadCatalog(raw: seq<Byte>) returns (ok: bool, text: string, root: map<Str, Value>, rows: seq<Value>)
    ensures ok == Catalog(raw)
    ensures ok ==> text == TextOf(raw) && root == RootOf(raw) && rows == ServicesOf(raw)
    ensures ok ==> raw == Encode(text) && Rooted(text, root, rows)
  {
    hide Utf8.Decode, Encode, Json.ParseValue, Skip, UnitsOf;
    ok, text, root, rows := false, "", map[], [];
    var decoded := Utf8.Decode(raw);
    if decoded.None? { return; }
    EncodeDecode(raw);
    text := decoded.value;
    var value := Json.Decode(text);
    if value.Fail? || !value.value.Object? { return; }
    root := value.value.fields;
    var services := Get(root, SERVICES, Null);
    if !services.Array? { return; }
    rows := services.items;
    ok := true;
  }
}
