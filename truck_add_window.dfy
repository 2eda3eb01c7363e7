/** The add/edit truck form without its widgets: the five entries, the checks they
    pass before anything is stored, and the one call into the ledger, `add_truck` for a
    new truck or `update_truck` with the form's keywords for an edited one. Message
    boxes become outcome values; destroying the window becomes `closed`. */
module TruckAddWindow {
  import opened Wrappers
  import opened Text
  import opened FloatText
  import opened Models
  import opened Database

  /** The validation messages, in the order the form checks them. */
  datatype FormError =
    | UnitIdEmpty
    | CompanyNameEmpty
    | InvalidTare
    | InvalidMax
    | MaxNotAboveTare

  /** What the checks hand on: the stripped texts and the parsed weights. The ASGA id
      stays a text; the ledger stores an empty one as absent. */
  datatype TruckFields = TruckFields(unitId: string, companyName: string, asgaId: string, tare: real,
                                     max: real)

  /** The checks of `save_truck` in their order on the stripped texts and the parsed
      weights: the unit id, the company name, a positive tare, a positive maximum, and
      a maximum above the tare. */
  function CheckFields(unit: string, company: string, asga: string, tare: Option<real>, max: Option<real>)
    : (r: Result<TruckFields, FormError>)
  {
    if unit == "" then Failure(UnitIdEmpty)
    else if company == "" then Failure(CompanyNameEmpty)
    else if tare.None? || tare.value <= 0.0 then Failure(InvalidTare)
    else if max.None? || max.value <= 0.0 then Failure(InvalidMax)
    else if max.value <= tare.value then Failure(MaxNotAboveTare)
    else Success(TruckFields(unit, company, asga, tare.value, max.value))
  }

  /** `save_truck`'s validation: every entry stripped, the weights read with `float()`. */
  function ValidateTruckForm(unitText: string, companyText: string, asgaText: string, tareText: string,
                             maxText: string): (r: Result<TruckFields, FormError>)
  {
    CheckFields(Strip(unitText), Strip(companyText), Strip(asgaText), ParseFloat(Strip(tareText)),
                ParseFloat(Strip(maxText)))
  }

  /** The checks pass exactly when every rule holds, and then hand on the values they
      checked. */
  lemma CheckFieldsOutcome(unit: string, company: string, asga: string, tare: Option<real>, max: Option<real>)
    ensures var r := CheckFields(unit, company, asga, tare, max);
      (r.Success? <==>
        unit != "" && company != "" && tare.Some? && tare.value > 0.0 && max.Some? && max.value > tare.value) &&
      (r.Success? ==>
        r.value == TruckFields(unit, company, asga, tare.value, max.value) && 0.0 < r.value.tare < r.value.max)
  {
  }

  /** The earlier checks win: each message is shown exactly when the checks before it
      passed and its own failed. */
  lemma CheckFieldsFirstFailure(unit: string, company: string, asga: string, tare: Option<real>,
                                max: Option<real>)
    ensures var r := CheckFields(unit, company, asga, tare, max);
      (r == Failure(UnitIdEmpty) <==> unit == "") &&
      (r == Failure(CompanyNameEmpty) <==> unit != "" && company == "") &&
      (r == Failure(InvalidTare) <==> unit != "" && company != "" && (tare.None? || tare.value <= 0.0)) &&
      (r == Failure(InvalidMax) <==>
         unit != "" && company != "" && tare.Some? && tare.value > 0.0 && (max.None? || max.value <= 0.0)) &&
      (r == Failure(MaxNotAboveTare) <==>
         unit != "" && company != "" && tare.Some? && tare.value > 0.0 && max.Some? &&
         0.0 < max.value <= tare.value)
  {
  }

  /** On the entries as typed: the form passes exactly when the unit id and the company
      name are not blank, the tare reads as a positive number and the maximum as a
      number above it; a passing form carries the stripped texts and those numbers. */
  lemma ValidateTruckFormOutcome(unitText: string, companyText: string, asgaText: string, tareText: string,
                                 maxText: string)
    ensures var r := ValidateTruckForm(unitText, companyText, asgaText, tareText, maxText);
      (r.Success? <==>
        Strip(unitText) != "" && Strip(companyText) != "" &&
        ParseFloat(tareText).Some? && ParseFloat(tareText).value > 0.0 &&
        ParseFloat(maxText).Some? && ParseFloat(maxText).value > ParseFloat(tareText).value) &&
      (r.Success? ==>
        r.value == TruckFields(Strip(unitText), Strip(companyText), Strip(asgaText), ParseFloat(tareText).value,
                               ParseFloat(maxText).value))
  {
    ParseFloatIgnoresSpace(tareText);
    ParseFloatIgnoresSpace(maxText);
    CheckFieldsOutcome(Strip(unitText), Strip(companyText), Strip(asgaText), ParseFloat(Strip(tareText)),
                       ParseFloat(Strip(maxText)));
  }

  /** Whitespace typed around an entry changes nothing. */
  lemma ValidateTruckFormIgnoresSpace(unitText: string, companyText: string, asgaText: string,
                                      tareText: string, maxText: string)
    ensures ValidateTruckForm(Strip(unitText), Strip(companyText), Strip(asgaText), Strip(tareText),
                              Strip(maxText)) ==
            ValidateTruckForm(unitText, companyText, asgaText, tareText, maxText)
  {
    StripIdempotent(unitText);
    StripIdempotent(companyText);
    StripIdempotent(asgaText);
    StripIdempotent(tareText);
    StripIdempotent(maxText);
  }

  /** `data_to_save` as keywords for `update_truck`, in the order the form lists them. */
  function FormChanges(f: TruckFields): (r: seq<TruckChange>) {
    [SetUnitId(f.unitId), SetCompanyName(f.companyName), SetAsgaId(Some(f.asgaId)), SetTareWeight(f.tare),
     SetMaxAllowedWeight(f.max)]
  }

  /** The keywords set every column the form shows and nothing else; an empty ASGA id
      clears the column. */
  lemma FormChangesSetEveryField(t: Truck, f: TruckFields)
    ensures ApplyTruckChanges(t, FormChanges(f)) ==
            t.(unitId := f.unitId, companyName := f.companyName,
               asgaId := if f.asgaId == "" then None else Some(f.asgaId),
               tareWeight := f.tare, maxAllowedWeight := f.max)
  {
    var cs := FormChanges(f);
    var t1 := ApplyTruckChange(t, cs[0]);
    var t2 := ApplyTruckChange(t1, cs[1]);
    var t3 := ApplyTruckChange(t2, cs[2]);
    var t4 := ApplyTruckChange(t3, cs[3]);
    var t5 := ApplyTruckChange(t4, cs[4]);
    assert cs[1..][1..] == cs[2..] && cs[2..][1..] == cs[3..] && cs[3..][1..] == cs[4..];
    assert ApplyTruckChanges(t4, cs[4..]) == t5;
    assert ApplyTruckChanges(t3, cs[3..]) == t5;
    assert ApplyTruckChanges(t2, cs[2..]) == t5;
    assert ApplyTruckChanges(t1, cs[1..]) == t5;
  }

  /** A truck the ledger stores from checked values carries those values, whether it
      was added or edited; an empty ASGA id is stored as none. */
  lemma StoredMatchesFields(ts: seq<Truck>, editId: Option<int>, f: TruckFields, now: Timestamp)
    requires TruckIdsSequential(ts)
    ensures var r := if editId.Some? then TruckUpdate(ts, editId.value, FormChanges(f), now)
                     else TruckInsert(ts, f.unitId, f.companyName, f.tare, f.max, Some(f.asgaId), now);
      r.Some? ==>
        r.value.unitId == f.unitId && r.value.companyName == f.companyName &&
        r.value.asgaId == (if f.asgaId == "" then None else Some(f.asgaId)) &&
        r.value.tareWeight == f.tare && r.value.maxAllowedWeight == f.max
  {
    if editId.Some? {
      TruckUpdateOutcome(ts, editId.value, FormChanges(f), now);
      if 1 <= editId.value <= |ts| {
        FormChangesSetEveryField(ts[editId.value - 1], f);
        FindTruckByPosition(ts, editId.value);
      }
    } else {
      TruckInsertOutcome(ts, f.unitId, f.companyName, f.tare, f.max, Some(f.asgaId), now);
    }
  }

  /** Hence a truck the form stores carries what was typed: the stripped unit id and
      company name, the ASGA id or none for a blank one, and a positive tare below the
      maximum. */
  lemma SavedTruckMatchesForm(ts: seq<Truck>, editId: Option<int>, unitText: string, companyText: string,
                              asgaText: string, tareText: string, maxText: string, now: Timestamp)
    requires TruckIdsSequential(ts)
    requires ValidateTruckForm(unitText, companyText, asgaText, tareText, maxText).Success?
    ensures var f := ValidateTruckForm(unitText, companyText, asgaText, tareText, maxText).value;
      var r := if editId.Some? then TruckUpdate(ts, editId.value, FormChanges(f), now)
               else TruckInsert(ts, f.unitId, f.companyName, f.tare, f.max, Some(f.asgaId), now);
      r.Some? ==>
        r.value.unitId == Strip(unitText) && r.value.companyName == Strip(companyText) &&
        r.value.asgaId == (if Strip(asgaText) == "" then None else Some(Strip(asgaText))) &&
        0.0 < r.value.tareWeight < r.value.maxAllowedWeight
  {
    var f := ValidateTruckForm(unitText, companyText, asgaText, tareText, maxText).value;
    CheckFieldsOutcome(Strip(unitText), Strip(companyText), Strip(asgaText), ParseFloat(Strip(tareText)),
                       ParseFloat(Strip(maxText)));
    StoredMatchesFields(ts, editId, f, now);
  }

  datatype FormOutcome = Rejected(error: FormError) | StoreFailed | Saved(truck: Truck)

  class TruckForm {
    const store: Ledger
    /** The id of the truck being edited; none when adding. */
    const truckIdForEdit: Option<int>
    var unitIdText: string
    var companyNameText: string
    var asgaIdText: string
    var tareWeightText: string
    var maxWeightText: string
    var closed: bool

    /** Opening the form: for an edit, the truck's id is kept and its unit id, company
        name and ASGA id (when present) are filled in. */
    constructor (store: Ledger, truckToEdit: Option<Truck>)
      ensures this.store == store
      ensures truckIdForEdit == if truckToEdit.Some? then Some(truckToEdit.value.id) else None
      ensures unitIdText == (if truckToEdit.Some? then truckToEdit.value.unitId else "")
      ensures companyNameText == (if truckToEdit.Some? then truckToEdit.value.companyName else "")
      ensures asgaIdText == (if truckToEdit.Some? && truckToEdit.value.asgaId.Some?
                             then truckToEdit.value.asgaId.value else "")
      ensures tareWeightText == "" && maxWeightText == "" && !closed
    {
      this.store := store;
      truckIdForEdit := if truckToEdit.Some? then Some(truckToEdit.value.id) else None;
      unitIdText := "";
      companyNameText := "";
      asgaIdText := "";
      tareWeightText := "";
      maxWeightText := "";
      closed := false;
      if truckToEdit.Some? {
        var t := truckToEdit.value;
        unitIdText := t.unitId;
        companyNameText := t.companyName;
        if t.asgaId.Some? {
          asgaIdText := t.asgaId.value;
        }
      }
    }

    /** Typing into the entries. */
    method EnterFields(unitId: string, companyName: string, asgaId: string, tare: string, max: string)
      modifies this
      ensures unitIdText == unitId && companyNameText == companyName && asgaIdText == asgaId &&
              tareWeightText == tare && maxWeightText == max
      ensures unchanged(this`closed)
    {
      unitIdText := unitId;
      companyNameText := companyName;
      asgaIdText := asgaId;
      tareWeightText := tare;
      maxWeightText := max;
    }

    /** The checks on the current entries. */
    function Checked(): (r: Result<TruckFields, FormError>)
      reads this
    {
      ValidateTruckForm(unitIdText, companyNameText, asgaIdText, tareWeightText, maxWeightText)
    }

    /** What the ledger makes of checked values: the edited truck's update or a new
        truck. */
    function Stored(ts: seq<Truck>, f: TruckFields, now: Timestamp): (r: Option<Truck>)
      reads this
      requires TruckIdsSequential(ts)
    {
      if truckIdForEdit.Some? then TruckUpdate(ts, truckIdForEdit.value, FormChanges(f), now)
      else TruckInsert(ts, f.unitId, f.companyName, f.tare, f.max, Some(f.asgaId), now)
    }

    /** The truck table once the ledger has stored `t`: the edited row replaced, or
        `t` appended. */
    function TrucksAfter(ts: seq<Truck>, t: Truck): (r: seq<Truck>)
      reads this
    {
      if truckIdForEdit.Some? && 1 <= truckIdForEdit.value <= |ts| then ts[truckIdForEdit.value - 1 := t]
      else ts + [t]
    }

    /** The audit entry the ledger writes for storing `t` as entry `count + 1`: an
        UPDATE with the snapshots before and after for an edit, an INSERT with the new
        snapshot otherwise. */
    function AuditAfter(ts: seq<Truck>, count: nat, t: Truck, now: Timestamp): (e: AuditEntry)
      reads this
    {
      if truckIdForEdit.Some? && 1 <= truckIdForEdit.value <= |ts| then
        AuditEntry(count + 1, "Trucks", truckIdForEdit.value, Update, None, now,
                   Some(TruckToDict(ts[truckIdForEdit.value - 1])), Some(TruckToDict(t)))
      else AuditEntry(count + 1, "Trucks", t.id, Insert, None, now, None, Some(TruckToDict(t)))
    }

    /** The one call into the ledger for checked values. */
    method Store(f: TruckFields, now: Timestamp) returns (r: Option<Truck>)
      requires store.Valid()
      modifies store
      ensures store.Valid()
      ensures r == Stored(old(store.trucks), f, now)
      ensures r.None? ==> store.trucks == old(store.trucks) && store.auditLog == old(store.auditLog)
      ensures r.Some? ==>
        store.trucks == TrucksAfter(old(store.trucks), r.value) &&
        store.auditLog == old(store.auditLog) + [AuditAfter(old(store.trucks), |old(store.auditLog)|, r.value, now)]
      ensures store.aggregateTypes == old(store.aggregateTypes) &&
              store.deliveryLocations == old(store.deliveryLocations) && store.tickets == old(store.tickets)
    {
      if truckIdForEdit.Some? {
        r := store.UpdateTruck(truckIdForEdit.value, FormChanges(f), now);
        if r.Some? {
          assert 1 <= truckIdForEdit.value <= |old(store.trucks)|;
        }
      } else {
        r := store.AddTruck(f.unitId, f.companyName, f.tare, f.max, Some(f.asgaId), now);
      }
    }

    /** What `save_truck` does once the checks have answered: a rejection touches
        nothing; checked values go to the ledger, and the form closes only when the
        ledger returns the stored truck. */
    method Dispatch(checked: Result<TruckFields, FormError>, now: Timestamp) returns (outcome: FormOutcome)
      requires store.Valid()
      modifies this, store
      ensures store.Valid()
      ensures checked.Failure? ==>
        outcome == Rejected(checked.error) && closed == old(closed) &&
        store.trucks == old(store.trucks) && store.auditLog == old(store.auditLog)
      ensures checked.Success? ==>
        var r := Stored(old(store.trucks), checked.value, now);
        outcome == (if r.Some? then Saved(r.value) else StoreFailed) &&
        closed == (old(closed) || r.Some?) &&
        (r.None? ==> store.trucks == old(store.trucks) && store.auditLog == old(store.auditLog)) &&
        (r.Some? ==>
          store.trucks == TrucksAfter(old(store.trucks), r.value) &&
          store.auditLog == old(store.auditLog) + [AuditAfter(old(store.trucks), |old(store.auditLog)|, r.value, now)])
      ensures store.aggregateTypes == old(store.aggregateTypes) &&
              store.deliveryLocations == old(store.deliveryLocations) && store.tickets == old(store.tickets)
      ensures unchanged(this`unitIdText, this`companyNameText, this`asgaIdText, this`tareWeightText,
                        this`maxWeightText)
    {
      if checked.Failure? {
        return Rejected(checked.error);
      }
      var r := Store(checked.value, now);
      if r.Some? {
        closed := true;
        outcome := Saved(r.value);
      } else {
        outcome := StoreFailed;
      }
    }

    /** `save_truck`: the checks on the current entries, then `Dispatch`. */
    method SaveTruck(now: Timestamp) returns (outcome: FormOutcome)
      requires store.Valid()
      modifies this, store
      ensures store.Valid()
      ensures old(Checked()).Failure? ==>
        outcome == Rejected(old(Checked()).error) && closed == old(closed) &&
        store.trucks == old(store.trucks) && store.auditLog == old(store.auditLog)
      ensures old(Checked()).Success? ==>
        var r := Stored(old(store.trucks), old(Checked()).value, now);
        outcome == (if r.Some? then Saved(r.value) else StoreFailed) &&
        closed == (old(closed) || r.Some?) &&
        (r.None? ==> store.trucks == old(store.trucks) && store.auditLog == old(store.auditLog)) &&
        (r.Some? ==>
          store.trucks == TrucksAfter(old(store.trucks), r.value) &&
          store.auditLog == old(store.auditLog) + [AuditAfter(old(store.trucks), |old(store.auditLog)|, r.value, now)])
      ensures store.aggregateTypes == old(store.aggregateTypes) &&
              store.deliveryLocations == old(store.deliveryLocations) && store.tickets == old(store.tickets)
      ensures unchanged(this`unitIdText, this`companyNameText, this`asgaIdText, this`tareWeightText,
                        this`maxWeightText)
    {
      var checked := Checked();
      outcome := Dispatch(checked, now);
    }
  }
}
