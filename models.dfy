/** The ledger's records, as the tables declare them, and their `to_dict` snapshots.
    A required column is a plain field, an optional one an `Option`; unique columns are
    stated over a whole table by `TrucksUnique` and `NamesUnique`. Timestamps are
    clock readings; their ISO rendering is not modelled, so a snapshot carries the
    reading itself. */
module Models {
  import opened Wrappers

  /** A reading of the wall clock (`datetime.utcnow()`). */
  type Timestamp = int

  /** A vehicle: `unit_id` required and unique, `asga_id` unique when present, both
      weights required, `last_used_timestamp` absent until the first ticket. */
  datatype Truck = Truck(
    id: int,
    unitId: string,
    companyName: string,
    asgaId: Option<string>,
    tareWeight: real,
    maxAllowedWeight: real,
    createdAt: Timestamp,
    updatedAt: Timestamp,
    lastUsed: Option<Timestamp>)

  /** The two reference tables, `AggregateType` and `DeliveryLocation`, share one shape:
      a required, unique `name` and an optional note (`description` for an aggregate
      type, `address` for a delivery location). */
  datatype Catalogue = Aggregates | Locations

  datatype NamedRecord = NamedRecord(
    id: int,
    name: string,
    note: Option<string>,
    createdAt: Timestamp,
    updatedAt: Timestamp)

  /** A weighing: the three references and the three weights are required;
      `ticket_printed` is false unless the caller says otherwise. */
  datatype WeightTicket = WeightTicket(
    id: int,
    truckId: int,
    aggregateTypeId: int,
    deliveryLocationId: int,
    grossWeight: real,
    tareWeightAtWeighing: real,
    netWeight: real,
    timestamp: Timestamp,
    operatorName: Option<string>,
    ticketPrinted: bool)

  /** The actions the ledger writes into the audit trail. */
  datatype Action = Insert | Update

  function ActionName(a: Action): (s: string)
    ensures s == "INSERT" || s == "UPDATE"
    ensures (s == "INSERT") == a.Insert?
  {
    match a
    case Insert => "INSERT"
    case Update => "UPDATE"
  }

  /** A value in a JSON snapshot. */
  datatype Value = Null | Int(i: int) | Num(r: real) | Str(s: string) | Time(t: Timestamp) | Bool(b: bool)

  type Snapshot = map<string, Value>

  /** An audit row: table name, record id and action required; who, before and after
      optional. */
  datatype AuditEntry = AuditEntry(
    id: int,
    tableName: string,
    recordId: int,
    action: Action,
    changedBy: Option<string>,
    changedAt: Timestamp,
    oldValues: Option<Snapshot>,
    newValues: Option<Snapshot>)

  // ----- uniqueness -----

  /** Two trucks that could not both be stored: the same unit id, or the same ASGA id
      where one is present (SQL `UNIQUE` lets any number of NULLs through). */
  predicate TruckClashes(a: Truck, b: Truck) {
    a.unitId == b.unitId || (a.asgaId.Some? && a.asgaId == b.asgaId)
  }

  lemma TruckClashesSymmetric(a: Truck, b: Truck)
    ensures TruckClashes(a, b) == TruckClashes(b, a)
  {
  }

  predicate TrucksUnique(ts: seq<Truck>) {
    forall i, j :: 0 <= i < |ts| && 0 <= j < |ts| && i != j ==> !TruckClashes(ts[i], ts[j])
  }

  predicate NamesUnique(rs: seq<NamedRecord>) {
    forall i, j :: 0 <= i < |rs| && 0 <= j < |rs| && i != j ==> rs[i].name != rs[j].name
  }

  // ----- snapshots -----

  function OptText(v: Option<string>): (r: Value) {
    match v
    case None => Null
    case Some(s) => Str(s)
  }

  function OptTime(v: Option<Timestamp>): (r: Value) {
    match v
    case None => Null
    case Some(t) => Time(t)
  }

  const TruckKeys: set<string> := {"id", "unit_id", "company_name", "asga_id", "tare_weight",
    "max_allowed_weight", "created_at", "updated_at", "last_used_timestamp"}

  const NamedKeysAggregates: set<string> := {"id", "name", "description", "created_at", "updated_at"}
  const NamedKeysLocations: set<string> := {"id", "name", "address", "created_at", "updated_at"}

  const TicketKeys: set<string> := {"id", "truck_id", "aggregate_type_id", "delivery_location_id",
    "gross_weight", "tare_weight_at_weighing", "net_weight", "timestamp", "operator_name",
    "ticket_printed"}

  /** The key under which a catalogue's note is written. */
  function NoteKey(c: Catalogue): (r: string) {
    match c
    case Aggregates => "description"
    case Locations => "address"
  }

  /** `Truck.to_dict()`: exactly the nine columns, an unset timestamp as null. */
  function TruckToDict(t: Truck): (d: Snapshot)
    ensures d.Keys == TruckKeys
    ensures d["asga_id"].Null? <==> t.asgaId.None?
    ensures d["last_used_timestamp"].Null? <==> t.lastUsed.None?
  {
    map["id" := Int(t.id), "unit_id" := Str(t.unitId), "company_name" := Str(t.companyName),
        "asga_id" := OptText(t.asgaId), "tare_weight" := Num(t.tareWeight),
        "max_allowed_weight" := Num(t.maxAllowedWeight), "created_at" := Time(t.createdAt),
        "updated_at" := Time(t.updatedAt), "last_used_timestamp" := OptTime(t.lastUsed)]
  }

  /** `AggregateType.to_dict()` and `DeliveryLocation.to_dict()`: exactly the five
      columns, the note under the catalogue's own key. */
  function NamedToDict(c: Catalogue, r: NamedRecord): (d: Snapshot)
    ensures d.Keys == (if c.Aggregates? then NamedKeysAggregates else NamedKeysLocations)
    ensures d[NoteKey(c)].Null? <==> r.note.None?
  {
    map["id" := Int(r.id), "name" := Str(r.name), NoteKey(c) := OptText(r.note),
        "created_at" := Time(r.createdAt), "updated_at" := Time(r.updatedAt)]
  }

  /** `WeightTicket.to_dict()`: exactly the ten columns. */
  function TicketToDict(w: WeightTicket): (d: Snapshot)
    ensures d.Keys == TicketKeys
    ensures d["operator_name"].Null? <==> w.operatorName.None?
  {
    map["id" := Int(w.id), "truck_id" := Int(w.truckId), "aggregate_type_id" := Int(w.aggregateTypeId),
        "delivery_location_id" := Int(w.deliveryLocationId), "gross_weight" := Num(w.grossWeight),
        "tare_weight_at_weighing" := Num(w.tareWeightAtWeighing), "net_weight" := Num(w.netWeight),
        "timestamp" := Time(w.timestamp), "operator_name" := OptText(w.operatorName),
        "ticket_printed" := Bool(w.ticketPrinted)]
  }

  // ----- reading a snapshot back -----

  function GetInt(d: Snapshot, k: string): (r: Option<int>) {
    if k in d && d[k].Int? then Some(d[k].i) else None
  }

  function GetNum(d: Snapshot, k: string): (r: Option<real>) {
    if k in d && d[k].Num? then Some(d[k].r) else None
  }

  function GetStr(d: Snapshot, k: string): (r: Option<string>) {
    if k in d && d[k].Str? then Some(d[k].s) else None
  }

  function GetTime(d: Snapshot, k: string): (r: Option<Timestamp>) {
    if k in d && d[k].Time? then Some(d[k].t) else None
  }

  function GetBool(d: Snapshot, k: string): (r: Option<bool>) {
    if k in d && d[k].Bool? then Some(d[k].b) else None
  }

  /** An optional text column: null is an absent value, a string a present one. */
  function GetOptStr(d: Snapshot, k: string): (r: Option<Option<string>>) {
    if k in d && d[k].Null? then Some(None)
    else if k in d && d[k].Str? then Some(Some(d[k].s))
    else None
  }

  function GetOptTime(d: Snapshot, k: string): (r: Option<Option<Timestamp>>) {
    if k in d && d[k].Null? then Some(None)
    else if k in d && d[k].Time? then Some(Some(d[k].t))
    else None
  }

  /** The truck a snapshot describes, when every column is there with its type. */
  function TruckFromDict(d: Snapshot): (r: Option<Truck>) {
    var id := GetInt(d, "id");
    var unit := GetStr(d, "unit_id");
    var company := GetStr(d, "company_name");
    var asga := GetOptStr(d, "asga_id");
    var tare := GetNum(d, "tare_weight");
    var max := GetNum(d, "max_allowed_weight");
    var created := GetTime(d, "created_at");
    var updated := GetTime(d, "updated_at");
    var used := GetOptTime(d, "last_used_timestamp");
    if id.Some? && unit.Some? && company.Some? && asga.Some? && tare.Some? && max.Some? &&
       created.Some? && updated.Some? && used.Some?
    then Some(Truck(id.value, unit.value, company.value, asga.value, tare.value, max.value,
                    created.value, updated.value, used.value))
    else None
  }

  function NamedFromDict(c: Catalogue, d: Snapshot): (r: Option<NamedRecord>) {
    var id := GetInt(d, "id");
    var name := GetStr(d, "name");
    var note := GetOptStr(d, NoteKey(c));
    var created := GetTime(d, "created_at");
    var updated := GetTime(d, "updated_at");
    if id.Some? && name.Some? && note.Some? && created.Some? && updated.Some?
    then Some(NamedRecord(id.value, name.value, note.value, created.value, updated.value))
    else None
  }

  function TicketFromDict(d: Snapshot): (r: Option<WeightTicket>) {
    var id := GetInt(d, "id");
    var truck := GetInt(d, "truck_id");
    var agg := GetInt(d, "aggregate_type_id");
    var loc := GetInt(d, "delivery_location_id");
    var gross := GetNum(d, "gross_weight");
    var tare := GetNum(d, "tare_weight_at_weighing");
    var net := GetNum(d, "net_weight");
    var at := GetTime(d, "timestamp");
    var op := GetOptStr(d, "operator_name");
    var printed := GetBool(d, "ticket_printed");
    if id.Some? && truck.Some? && agg.Some? && loc.Some? && gross.Some? && tare.Some? &&
       net.Some? && at.Some? && op.Some? && printed.Some?
    then Some(WeightTicket(id.value, truck.value, agg.value, loc.value, gross.value, tare.value,
                           net.value, at.value, op.value, printed.value))
    else None
  }

  /** A truck snapshot loses nothing: the record can be read back from it. */
  lemma TruckDictRoundTrip(t: Truck)
    ensures TruckFromDict(TruckToDict(t)) == Some(t)
  {
    var d := TruckToDict(t);
    assert GetOptStr(d, "asga_id") == Some(t.asgaId);
    assert GetOptTime(d, "last_used_timestamp") == Some(t.lastUsed);
  }

  lemma NamedDictRoundTrip(c: Catalogue, r: NamedRecord)
    ensures NamedFromDict(c, NamedToDict(c, r)) == Some(r)
  {
    var d := NamedToDict(c, r);
    assert GetOptStr(d, NoteKey(c)) == Some(r.note);
  }

  lemma TicketDictRoundTrip(w: WeightTicket)
    ensures TicketFromDict(TicketToDict(w)) == Some(w)
  {
    var d := TicketToDict(w);
    assert GetOptStr(d, "operator_name") == Some(w.operatorName);
  }

  /** Hence two trucks with the same snapshot are the same truck. */
  lemma TruckToDictInjective(a: Truck, b: Truck)
    requires TruckToDict(a) == TruckToDict(b)
    ensures a == b
  {
    TruckDictRoundTrip(a);
    TruckDictRoundTrip(b);
  }
}
