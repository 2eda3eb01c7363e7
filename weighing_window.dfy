/** The weighing form without its widgets: the truck list and the selection, the live
    reading, the gross and operator entries, the tare and net read-outs, and the
    checks a ticket passes before it is stored. Message boxes become outcome values;
    the over-max question becomes a boolean answer. */
module WeighingWindow {
  import opened Wrappers
  import opened Text
  import opened FloatText
  import opened Models
  import opened Database

  // ----- the truck list -----

  /** The combobox entry of a truck: `"{company} - {unit} ({id})"`. */
  function TruckKey(t: Truck): (r: string) {
    t.companyName + " - " + t.unitId + " (" + IntText(t.id) + ")"
  }

  /** A text ending in `(digits)` determines the digits: a longer digit run would put
      a digit where the other text has its `(`. */
  lemma DigitTailUnique(x: string, d: string, y: string, e: string)
    requires AllDigits(d) && AllDigits(e)
    requires x + "(" + d + ")" == y + "(" + e + ")"
    ensures d == e
  {
    DigitTailNoLonger(x, d, y, e);
    DigitTailNoLonger(y, e, x, d);
    var s := x + "(" + d + ")";
    var n := |s|;
    assert d == s[n - 1 - |d|..n - 1];
    assert e == s[n - 1 - |e|..n - 1];
  }

  /** The other digit run is no longer: at the position of this text's `(` the other
      text has a `(` too, not a digit. */
  lemma DigitTailNoLonger(x: string, d: string, y: string, e: string)
    requires AllDigits(e)
    requires x + "(" + d + ")" == y + "(" + e + ")"
    ensures |e| <= |d|
  {
    var s := x + "(" + d + ")";
    assert s[|x|] == '(';
  }

  /** The key of a stored truck (ids are not negative) names its id. */
  lemma TruckKeyNamesId(a: Truck, b: Truck)
    requires a.id >= 0 && b.id >= 0 && TruckKey(a) == TruckKey(b)
    ensures a.id == b.id
  {
    var x := a.companyName + " - " + a.unitId + " ";
    var y := b.companyName + " - " + b.unitId + " ";
    assert TruckKey(a) == x + "(" + NatToDigits(a.id) + ")";
    assert TruckKey(b) == y + "(" + NatToDigits(b.id) + ")";
    DigitTailUnique(x, NatToDigits(a.id), y, NatToDigits(b.id));
  }

  /** Trucks with different ids get different keys. */
  lemma DistinctIdsDistinctKeys(a: Truck, b: Truck)
    requires a.id >= 0 && b.id >= 0 && a.id != b.id
    ensures TruckKey(a) != TruckKey(b)
  {
    if TruckKey(a) == TruckKey(b) {
      TruckKeyNamesId(a, b);
    }
  }

  /** `{key(t): t for t in trucks}`: a later truck with the same key replaces an
      earlier one. */
  function KeyedTrucks(ts: seq<Truck>): (r: map<string, Truck>)
    decreases |ts|
  {
    if ts == [] then map[]
    else KeyedTrucks(ts[..|ts| - 1])[TruckKey(ts[|ts| - 1]) := ts[|ts| - 1]]
  }

  /** The keys of the map are the keys of the listed trucks, and each names a listed
      truck that carries it. */
  lemma {:induction false} KeyedTrucksKeys(ts: seq<Truck>)
    ensures forall k :: k in KeyedTrucks(ts) <==> exists t :: t in ts && TruckKey(t) == k
    ensures forall k :: k in KeyedTrucks(ts) ==> KeyedTrucks(ts)[k] in ts && TruckKey(KeyedTrucks(ts)[k]) == k
    decreases |ts|
  {
    if ts != [] {
      KeyedTrucksKeys(ts[..|ts| - 1]);
      assert forall t :: t in ts <==> t in ts[..|ts| - 1] || t == ts[|ts| - 1];
    }
  }

  /** Ids distinct in the list: every truck of the list is the entry under its key. */
  lemma {:induction false} KeyedTrucksComplete(ts: seq<Truck>)
    requires forall i, j :: 0 <= i < j < |ts| ==> ts[i].id != ts[j].id
    requires forall i :: 0 <= i < |ts| ==> ts[i].id >= 0
    ensures forall t :: t in ts ==> TruckKey(t) in KeyedTrucks(ts) && KeyedTrucks(ts)[TruckKey(t)] == t
    decreases |ts|
  {
    if ts != [] {
      var init := ts[..|ts| - 1];
      var last := ts[|ts| - 1];
      KeyedTrucksComplete(init);
      forall t | t in init ensures TruckKey(t) != TruckKey(last) {
        var i :| 0 <= i < |init| && init[i] == t;
        assert ts[i] == t;
        DistinctIdsDistinctKeys(t, last);
      }
      assert forall t :: t in ts ==> t in init || t == last;
    }
  }

  /** `list(trucks_map.keys())`: each key where its first truck put it. */
  function KeyList(ts: seq<Truck>): (r: seq<string>)
    decreases |ts|
  {
    if ts == [] then []
    else
      var rest := KeyList(ts[..|ts| - 1]);
      var k := TruckKey(ts[|ts| - 1]);
      if k in rest then rest else rest + [k]
  }

  /** The choices are the keys of the map, each once. */
  lemma {:induction false} KeyListKeys(ts: seq<Truck>)
    ensures forall k :: k in KeyList(ts) <==> k in KeyedTrucks(ts)
    ensures forall i, j :: 0 <= i < j < |KeyList(ts)| ==> KeyList(ts)[i] != KeyList(ts)[j]
    decreases |ts|
  {
    if ts != [] {
      KeyListKeys(ts[..|ts| - 1]);
    }
  }

  /** The key of every truck of a list, in list order. */
  function KeysOf(ts: seq<Truck>): (r: seq<string>)
    decreases |ts|
  {
    if ts == [] then [] else KeysOf(ts[..|ts| - 1]) + [TruckKey(ts[|ts| - 1])]
  }

  /** With distinct ids no two trucks share a key, so the choices are the keys of the
      trucks in list order. */
  lemma {:induction false} KeyListInOrder(ts: seq<Truck>)
    requires forall i, j :: 0 <= i < j < |ts| ==> ts[i].id != ts[j].id
    requires forall i :: 0 <= i < |ts| ==> ts[i].id >= 0
    ensures KeyList(ts) == KeysOf(ts)
    decreases |ts|
  {
    if ts != [] {
      var init := ts[..|ts| - 1];
      var last := ts[|ts| - 1];
      KeyListInOrder(init);
      KeyListKeys(init);
      KeyedTrucksKeys(init);
      forall t | t in init ensures TruckKey(t) != TruckKey(last) {
        var i :| 0 <= i < |init| && init[i] == t;
        assert ts[i] == t;
        DistinctIdsDistinctKeys(t, last);
      }
      assert KeyList(ts) == KeysOf(init) + [TruckKey(last)];
      assert KeysOf(ts) == KeysOf(init) + [TruckKey(last)];
    }
  }

  /** `{r.name: r for r in rows}`. */
  function ByName(rs: seq<NamedRecord>): (m: map<string, NamedRecord>)
    ensures forall k :: k in m <==> exists r :: r in rs && r.name == k
    ensures forall k :: k in m ==> m[k] in rs && m[k].name == k
    decreases |rs|
  {
    if rs == [] then map[]
    else
      var last := rs[|rs| - 1];
      var m := ByName(rs[..|rs| - 1]);
      assert forall r :: r in rs <==> r in rs[..|rs| - 1] || r == last;
      m[last.name := last]
  }

  // ----- the read-outs -----

  /** What a weight label shows: no weight, a request to select a truck first, a
      gross that is not a number, or a weight in kilograms. */
  datatype Readout = NoWeight | SelectTruckFirst | InvalidGross | Weight(kg: real)

  /** The label text: `"--.-- kg"`, `"--.-- kg (Select Truck)"`, `"Invalid Gross Wt."`
      or `f"{kg:.2f} kg"`. */
  function Render(r: Readout): (res: string) {
    match r
    case NoWeight => "--.-- kg"
    case SelectTruckFirst => "--.-- kg (Select Truck)"
    case InvalidGross => "Invalid Gross Wt."
    case Weight(kg) => FormatFixed2(kg) + " kg"
  }

  /** The tare label of a selection. */
  function TareReadout(sel: Option<Truck>): (r: Readout) {
    if sel.Some? then Weight(sel.value.tareWeight) else NoWeight
  }

  /** `recalculate_net_weight`: nothing entered, then a gross that does not parse,
      then no truck, and only then the difference. */
  function NetReadout(gross: string, sel: Option<Truck>): (r: Readout) {
    if gross == "" then NoWeight
    else match ParseFloat(gross)
      case None => InvalidGross
      case Some(g) => if sel.None? then SelectTruckFirst else Weight(g - sel.value.tareWeight)
  }

  /** The net read-out after capturing a reading: the captured text is read back at
      two decimals, so the net is the rounded reading less the tare. */
  lemma CapturedNet(w: real, t: Truck)
    ensures NetReadout(FormatFixed2(w), Some(t)) == Weight(RoundCents(w) as real / 100.0 - t.tareWeight)
    ensures NetReadout(FormatFixed2(w), None) == SelectTruckFirst
  {
    ParseFormatFixed2(w);
    FormatFixed2Shape(w);
    CapturedTextNet(FormatFixed2(w), w, t);
  }

  lemma CapturedTextNet(text: string, w: real, t: Truck)
    requires text == FormatFixed2(w)
    ensures NetReadout(text, Some(t)) == Weight(RoundCents(w) as real / 100.0 - t.tareWeight)
  {
    ParseFormatFixed2(w);
    FormatFixed2Shape(w);
  }

  /** A reading already at two decimals is captured exactly. */
  lemma RoundCentsExact(h: int)
    ensures RoundCents(h as real / 100.0) == h
  {
    var c := RoundCents(h as real / 100.0);
    assert -0.5 <= c as real - h as real <= 0.5;
  }

  /** A weight label is a number and ` kg`, and the number reads back as the weight
      rounded to two decimals. */
  lemma WeightLabelReadsBack(kg: real)
    ensures exists number :: Render(Weight(kg)) == number + " kg" &&
                             ParseFloat(number) == Some(RoundCents(kg) as real / 100.0)
  {
    ParseFormatFixed2(kg);
    assert Render(Weight(kg)) == FormatFixed2(kg) + " kg";
  }

  // ----- the checks before a ticket is stored -----

  datatype SaveError =
    | NoTruckSelected
    | NoAggregateSelected
    | NoLocationSelected
    | GrossNotANumber
    | GrossNotPositive
    | NetNegative(net: real)
    | OverMaxDeclined

  /** What the checks hand on to the store. */
  datatype TicketDraft = TicketDraft(truck: Truck, aggregate: NamedRecord, location: NamedRecord,
                                     gross: real, tare: real, net: real)

  /** Asked only when the truck has a positive maximum and the gross exceeds it. */
  predicate OverMax(t: Truck, gross: real) {
    t.maxAllowedWeight > 0.0 && gross > t.maxAllowedWeight
  }

  /** The checks of `save_ticket` in their order, on the gross as `float()` read it;
      `confirmOverMax` is the answer the operator gives when asked. */
  function CheckTicket(sel: Option<Truck>, aggregates: map<string, NamedRecord>,
                       locations: map<string, NamedRecord>, aggregateText: string,
                       locationText: string, gross: Option<real>, confirmOverMax: bool)
    : (r: Result<TicketDraft, SaveError>)
  {
    if sel.None? then Failure(NoTruckSelected)
    else if aggregateText !in aggregates then Failure(NoAggregateSelected)
    else if locationText !in locations then Failure(NoLocationSelected)
    else match gross
      case None => Failure(GrossNotANumber)
      case Some(g) =>
        var t := sel.value;
        if g <= 0.0 then Failure(GrossNotPositive)
        else if g - t.tareWeight < 0.0 then Failure(NetNegative(g - t.tareWeight))
        else if OverMax(t, g) && !confirmOverMax then Failure(OverMaxDeclined)
        else Success(TicketDraft(t, aggregates[aggregateText], locations[locationText], g, t.tareWeight,
                                 g - t.tareWeight))
  }

  /** `save_ticket`'s checks on the entries as typed. */
  function ValidateTicket(sel: Option<Truck>, aggregates: map<string, NamedRecord>,
                          locations: map<string, NamedRecord>, aggregateText: string,
                          locationText: string, grossText: string, confirmOverMax: bool)
    : (r: Result<TicketDraft, SaveError>)
  {
    CheckTicket(sel, aggregates, locations, aggregateText, locationText, ParseFloat(grossText), confirmOverMax)
  }

  /** The checks pass exactly when every rule holds, and a passing ticket carries the
      selected truck's tare, a positive gross and a net of gross less tare that is not
      negative. */
  lemma CheckTicketOutcome(sel: Option<Truck>, aggregates: map<string, NamedRecord>,
                           locations: map<string, NamedRecord>, aggregateText: string,
                           locationText: string, gross: Option<real>, confirmOverMax: bool)
    ensures var r := CheckTicket(sel, aggregates, locations, aggregateText, locationText, gross, confirmOverMax);
      (r.Success? <==>
        sel.Some? && aggregateText in aggregates && locationText in locations &&
        gross.Some? && gross.value > 0.0 && gross.value >= sel.value.tareWeight &&
        (OverMax(sel.value, gross.value) ==> confirmOverMax)) &&
      (r.Success? ==>
        r.value.truck == sel.value && r.value.aggregate == aggregates[aggregateText] &&
        r.value.location == locations[locationText] && r.value.gross == gross.value &&
        r.value.gross > 0.0 && r.value.tare == sel.value.tareWeight &&
        r.value.net == r.value.gross - r.value.tare && r.value.net >= 0.0)
  {
  }

  /** The same on the typed gross: it must read as a number. */
  lemma ValidateTicketOutcome(sel: Option<Truck>, aggregates: map<string, NamedRecord>,
                              locations: map<string, NamedRecord>, aggregateText: string,
                              locationText: string, grossText: string, confirmOverMax: bool)
    ensures var r := ValidateTicket(sel, aggregates, locations, aggregateText, locationText, grossText,
                                    confirmOverMax);
      (r.Success? <==>
        sel.Some? && aggregateText in aggregates && locationText in locations &&
        ParseFloat(grossText).Some? && ParseFloat(grossText).value > 0.0 &&
        ParseFloat(grossText).value >= sel.value.tareWeight &&
        (OverMax(sel.value, ParseFloat(grossText).value) ==> confirmOverMax)) &&
      (r.Success? ==> r.value.gross == ParseFloat(grossText).value && r.value.net >= 0.0)
  {
    CheckTicketOutcome(sel, aggregates, locations, aggregateText, locationText, ParseFloat(grossText),
                       confirmOverMax);
  }

  /** The earlier checks win: each error is reported exactly when the checks before it
      passed and its own failed. */
  lemma CheckTicketFirstFailure(sel: Option<Truck>, aggregates: map<string, NamedRecord>,
                                locations: map<string, NamedRecord>, aggregateText: string,
                                locationText: string, gross: Option<real>, confirmOverMax: bool)
    ensures var r := CheckTicket(sel, aggregates, locations, aggregateText, locationText, gross, confirmOverMax);
      var before := sel.Some? && aggregateText in aggregates && locationText in locations;
      (r == Failure(NoTruckSelected) <==> sel.None?) &&
      (r == Failure(NoAggregateSelected) <==> sel.Some? && aggregateText !in aggregates) &&
      (r == Failure(NoLocationSelected) <==>
         sel.Some? && aggregateText in aggregates && locationText !in locations) &&
      (r == Failure(GrossNotANumber) <==> before && gross.None?) &&
      (r == Failure(GrossNotPositive) <==> before && gross.Some? && gross.value <= 0.0) &&
      (r.Failure? && r.error.NetNegative? <==>
         before && gross.Some? && gross.value > 0.0 && gross.value < sel.value.tareWeight) &&
      (r.Failure? && r.error.NetNegative? ==> r.error.net == gross.value - sel.value.tareWeight) &&
      (r == Failure(OverMaxDeclined) <==>
         before && gross.Some? && gross.value > 0.0 && gross.value >= sel.value.tareWeight &&
         OverMax(sel.value, gross.value) && !confirmOverMax)
  {
  }

  /** The operator's answer matters only when the gross exceeds a positive maximum. */
  lemma AnswerOnlyOverMax(sel: Option<Truck>, aggregates: map<string, NamedRecord>,
                          locations: map<string, NamedRecord>, aggregateText: string,
                          locationText: string, gross: Option<real>)
    requires sel.Some? && gross.Some? ==> !OverMax(sel.value, gross.value)
    ensures CheckTicket(sel, aggregates, locations, aggregateText, locationText, gross, true) ==
            CheckTicket(sel, aggregates, locations, aggregateText, locationText, gross, false)
  {
  }

  /** A gross captured from a reading of `h` hundredths is stored as exactly `h / 100`. */
  lemma CapturedGrossStored(h: int, sel: Option<Truck>, aggregates: map<string, NamedRecord>,
                            locations: map<string, NamedRecord>, aggregateText: string,
                            locationText: string, confirmOverMax: bool)
    requires ValidateTicket(sel, aggregates, locations, aggregateText, locationText,
                            FormatFixed2(h as real / 100.0), confirmOverMax).Success?
    ensures ValidateTicket(sel, aggregates, locations, aggregateText, locationText,
                           FormatFixed2(h as real / 100.0), confirmOverMax).value.gross == h as real / 100.0
  {
    var text := FormatFixed2(h as real / 100.0);
    ParseFormatFixed2(h as real / 100.0);
    RoundCentsExact(h);
    CheckTicketOutcome(sel, aggregates, locations, aggregateText, locationText, ParseFloat(text), confirmOverMax);
  }

  /** `operator_name_var.get().strip() or None`. */
  function OperatorName(text: string): (r: Option<string>)
    ensures r.None? <==> forall k :: 0 <= k < |text| ==> IsSpace(text[k])
    ensures r.Some? ==> r.value == Strip(text) && !IsSpace(r.value[0]) && !IsSpace(r.value[|r.value| - 1])
  {
    StripEmptyIff(text);
    if Strip(text) == "" then None else Some(Strip(text))
  }

  /** A selected truck is one the combobox shows a key for, and its tare is on the tare
      label; without a selection the label shows no weight. */
  ghost predicate SelectionShown(m: map<string, Truck>, sel: Option<Truck>, key: string, tare: Readout) {
    (sel.Some? ==> key in m) && tare == TareReadout(sel)
  }

  datatype SaveOutcome = Rejected(error: SaveError) | StoreFailed | Saved(ticketId: int)

  // ----- the order in which the window is built -----

  /** The steps of opening the window that involve the net read-out: creating the
      gross entry, creating the net label, and the initial truck load, which ends by
      recalculating the net. */
  datatype InitStep = CreateGrossEntry | CreateNetLabel | InitialLoad

  /** What the net label shows: a read-out, or `"Error"` from the catch-all handler. */
  datatype NetLabel = Shows(readout: Readout) | ShowsError

  /** The widgets built so far: the gross entry's text and the net label, each absent
      until its step has run. */
  datatype InitState = InitState(grossEntry: Option<string>, netLabel: Option<NetLabel>)

  /** `recalculate_net_weight` while the window is being built, with no truck selected.
      Every path sets the net label: reading a missing gross entry raises
      `AttributeError`, which the catch-all handler answers by setting the label. With
      the label missing too, that raises again and escapes (`None`). */
  function RecalculateWhileBuilding(st: InitState): (r: Option<InitState>)
  {
    if st.netLabel.None? then None
    else if st.grossEntry.None? then Some(st.(netLabel := Some(ShowsError)))
    else Some(st.(netLabel := Some(Shows(NetReadout(st.grossEntry.value, None)))))
  }

  /** The steps run in order; `None` when one of them raises, which aborts `__init__`.
      A new entry holds the empty text, a new net label shows no weight. */
  function RunInit(steps: seq<InitStep>, st: InitState): (r: Option<InitState>)
    decreases |steps|
  {
    if steps == [] then Some(st)
    else match steps[0]
      case CreateGrossEntry => RunInit(steps[1..], st.(grossEntry := Some("")))
      case CreateNetLabel => RunInit(steps[1..], st.(netLabel := Some(Shows(NoWeight))))
      case InitialLoad =>
        match RecalculateWhileBuilding(st)
        case None => None
        case Some(next) => RunInit(steps[1..], next)
  }

  /** Nothing is built yet. */
  const Unbuilt := InitState(None, None)

  /** The order of `__init__` as written: the initial load (line 64) comes before the
      gross entry (line 83) and the net label (line 91). */
  const AsWrittenInitOrder: seq<InitStep> := [InitialLoad, CreateGrossEntry, CreateNetLabel]

  /** The evidently intended order: every widget exists before the first load. */
  const IntendedInitOrder: seq<InitStep> := [CreateGrossEntry, CreateNetLabel, InitialLoad]

  /** Some load runs before any net label has been created. */
  ghost predicate LoadBeforeNetLabel(steps: seq<InitStep>) {
    exists k :: 0 <= k < |steps| && steps[k] == InitialLoad &&
      forall j :: 0 <= j < k ==> steps[j] != CreateNetLabel
  }

  /** Building fails exactly when a load runs while the net label is still missing;
      once the label exists nothing can fail. */
  lemma {:induction false} RunInitFailsIff(steps: seq<InitStep>, st: InitState)
    ensures st.netLabel.Some? ==> RunInit(steps, st).Some?
    ensures st.netLabel.None? ==> (RunInit(steps, st).None? <==> LoadBeforeNetLabel(steps))
    decreases |steps|
  {
    if steps != [] {
      var rest := steps[1..];
      match steps[0]
      case CreateGrossEntry =>
        RunInitFailsIff(rest, st.(grossEntry := Some("")));
        if st.netLabel.None? {
          if LoadBeforeNetLabel(steps) {
            var k :| 0 <= k < |steps| && steps[k] == InitialLoad &&
              forall j :: 0 <= j < k ==> steps[j] != CreateNetLabel;
            assert rest[k - 1] == InitialLoad;
            assert forall j :: 0 <= j < k - 1 ==> rest[j] == steps[j + 1];
          }
          if LoadBeforeNetLabel(rest) {
            var k :| 0 <= k < |rest| && rest[k] == InitialLoad &&
              forall j :: 0 <= j < k ==> rest[j] != CreateNetLabel;
            assert steps[k + 1] == InitialLoad;
            assert forall j :: 1 <= j < k + 1 ==> steps[j] == rest[j - 1];
          }
        }
      case CreateNetLabel =>
        RunInitFailsIff(rest, st.(netLabel := Some(Shows(NoWeight))));
      case InitialLoad =>
        if st.netLabel.Some? {
          RunInitFailsIff(rest, RecalculateWhileBuilding(st).value);
        } else {
          assert LoadBeforeNetLabel(steps) by {
            assert steps[0] == InitialLoad;
          }
        }
    }
  }

  /** As written, opening the window raises: the initial load finds neither the gross
      entry nor the net label. */
  lemma AsWrittenInitRaises()
    ensures RunInit(AsWrittenInitOrder, Unbuilt).None?
  {
    RunInitFailsIff(AsWrittenInitOrder, Unbuilt);
    assert AsWrittenInitOrder[0] == InitialLoad;
  }

  /** In the intended order the window opens with an empty gross entry and a net label
      showing no weight, which is what `WeighingForm`'s constructor establishes. */
  lemma IntendedInitOpens()
    ensures RunInit(IntendedInitOrder, Unbuilt) == Some(InitState(Some(""), Some(Shows(NoWeight))))
  {
  }

  // ----- the form -----

  class WeighingForm {
    const store: Ledger
    /** Loaded once when the window opens. */
    const aggregatesByName: map<string, NamedRecord>
    const locationsByName: map<string, NamedRecord>
    var trucksByKey: map<string, Truck>
    var truckChoices: seq<string>
    var selectedTruck: Option<Truck>
    var currentScaleWeight: Option<real>
    /** The entries; the operator types into the search, gross and operator fields and
        picks the aggregate and location by name. */
    var truckSearchText: string
    var truckKeyText: string
    var aggregateText: string
    var locationText: string
    var grossWeightText: string
    var operatorNameText: string
    var tareReadout: Readout
    var netReadout: Readout

    /** A selection is the truck under the chosen key, with its tare shown. The net
        read-out is not part of this invariant: each method states it separately. */
    ghost predicate Valid()
      reads this
    {
      SelectionShown(trucksByKey, selectedTruck, truckKeyText, tareReadout)
    }

    /** Opening the window: the reference tables by name, every entry created empty,
        then the full truck list. This is the intended order of construction
        (`IntendedInitOrder`); `__init__` as written loads the trucks before the gross
        entry and the net label exist and raises (`AsWrittenInitRaises`). */
    constructor (store: Ledger)
      requires store.Valid()
      ensures Valid()
      ensures netReadout == NetReadout(grossWeightText, selectedTruck) && this.store == store
      ensures aggregatesByName == ByName(NamesOrdered(store.aggregateTypes))
      ensures locationsByName == ByName(NamesOrdered(store.deliveryLocations))
      ensures trucksByKey == KeyedTrucks(MruOrdered(store.trucks))
      ensures truckChoices == KeyList(MruOrdered(store.trucks))
      ensures selectedTruck.None? && currentScaleWeight.None? && truckKeyText == ""
      ensures truckSearchText == "" && aggregateText == "" && locationText == "" &&
              grossWeightText == "" && operatorNameText == ""
    {
      this.store := store;
      aggregatesByName := ByName(NamesOrdered(store.aggregateTypes));
      locationsByName := ByName(NamesOrdered(store.deliveryLocations));
      trucksByKey := map[];
      truckChoices := [];
      selectedTruck := None;
      currentScaleWeight := None;
      truckSearchText := "";
      truckKeyText := "";
      aggregateText := "";
      locationText := "";
      grossWeightText := "";
      operatorNameText := "";
      tareReadout := NoWeight;
      netReadout := NoWeight;
      new;
      LoadTrucks(None);
    }

    /** `recalculate_net_weight`. */
    method RecalculateNetWeight()
      modifies this
      ensures netReadout == NetReadout(grossWeightText, selectedTruck)
      ensures unchanged(this`trucksByKey, this`truckChoices, this`selectedTruck, this`currentScaleWeight, this`truckSearchText, this`truckKeyText, this`aggregateText, this`locationText, this`grossWeightText, this`operatorNameText, this`tareReadout)
    {
      if grossWeightText == "" {
        netReadout := NoWeight;
        return;
      }
      var gross := ParseFloat(grossWeightText);
      if gross.None? {
        netReadout := InvalidGross;
      } else if selectedTruck.Some? {
        netReadout := Weight(gross.value - selectedTruck.value.tareWeight);
      } else {
        netReadout := SelectTruckFirst;
      }
    }

    /** The combobox values of a truck list. */
    method ShowTrucks(trucks: seq<Truck>)
      modifies this
      ensures trucksByKey == KeyedTrucks(trucks) && truckChoices == KeyList(trucks)
      ensures unchanged(this`selectedTruck, this`currentScaleWeight, this`truckSearchText, this`truckKeyText,
                        this`aggregateText, this`locationText, this`grossWeightText, this`operatorNameText,
                        this`tareReadout, this`netReadout)
    {
      trucksByKey := KeyedTrucks(trucks);
      truckChoices := KeyList(trucks);
    }

    /** The selection after the choices change: restored when the key of the previous
        selection is still a choice, cleared otherwise. */
    method RestoreSelection(previousKey: Option<string>)
      modifies this
      ensures var kept := previousKey.Some? && previousKey.value in trucksByKey;
        (kept ==> selectedTruck == old(selectedTruck) && truckKeyText == previousKey.value &&
                  tareReadout == old(tareReadout)) &&
        (!kept ==> selectedTruck.None? && truckKeyText == "" && tareReadout == NoWeight)
      ensures unchanged(this`trucksByKey, this`truckChoices, this`currentScaleWeight, this`truckSearchText,
                        this`aggregateText, this`locationText, this`grossWeightText, this`operatorNameText,
                        this`netReadout)
    {
      if trucksByKey == map[] {
        truckKeyText := "";
        selectedTruck := None;
        tareReadout := NoWeight;
      } else if previousKey.Some? && previousKey.value in trucksByKey {
        truckKeyText := previousKey.value;
      } else {
        truckKeyText := "";
        selectedTruck := None;
        tareReadout := NoWeight;
      }
    }

    /** `load_trucks_into_combobox`: the given list, or the full ordered list; the
        selection survives only if its key is among the new choices. */
    method LoadTrucks(list: Option<seq<Truck>>)
      requires Valid()
      modifies this
      ensures Valid()
      ensures netReadout == NetReadout(grossWeightText, selectedTruck)
      ensures var ts := if list.Some? then list.value else MruOrdered(store.trucks);
        trucksByKey == KeyedTrucks(ts) && truckChoices == KeyList(ts)
      ensures var kept := old(selectedTruck).Some? && TruckKey(old(selectedTruck).value) in trucksByKey;
        (kept ==> selectedTruck == old(selectedTruck) && truckKeyText == TruckKey(old(selectedTruck).value) &&
                  tareReadout == old(tareReadout)) &&
        (!kept ==> selectedTruck.None? && truckKeyText == "" && tareReadout == NoWeight)
      ensures unchanged(this`currentScaleWeight, this`truckSearchText, this`aggregateText, this`locationText,
                        this`grossWeightText, this`operatorNameText)
    {
      var currentKey: Option<string> := None;
      if selectedTruck.Some? {
        currentKey := Some(TruckKey(selectedTruck.value));
      }
      var trucks := if list.Some? then list.value else MruOrdered(store.trucks);
      ShowTrucks(trucks);
      RestoreSelection(currentKey);
      RecalculateNetWeight();
    }

    /** `perform_truck_search`: the stripped term; an empty one lists every truck in
        order, any other the matching trucks in the same order. */
    method PerformTruckSearch()
      requires Valid()
      modifies this
      ensures Valid()
      ensures netReadout == NetReadout(grossWeightText, selectedTruck)
      ensures var term := Strip(truckSearchText);
        var ts := if term == "" then MruOrdered(store.trucks) else SearchTrucks(store.trucks, term);
        trucksByKey == KeyedTrucks(ts) && truckChoices == KeyList(ts) &&
        ts == SearchTrucks(store.trucks, term)
      ensures var kept := old(selectedTruck).Some? && TruckKey(old(selectedTruck).value) in trucksByKey;
        (kept ==> selectedTruck == old(selectedTruck) && truckKeyText == TruckKey(old(selectedTruck).value)) &&
        (!kept ==> selectedTruck.None? && truckKeyText == "")
      ensures unchanged(this`currentScaleWeight, this`truckSearchText, this`aggregateText, this`locationText, this`grossWeightText, this`operatorNameText)
    {
      var term := Strip(truckSearchText);
      if term == "" {
        LoadTrucks(None);
      } else {
        var found := SearchTrucks(store.trucks, term);
        LoadTrucks(Some(found));
      }
    }

    /** One tick of the live display: the latest reading, or none. */
    method UpdateLiveWeight(reading: Option<real>)
      modifies this
      ensures currentScaleWeight == reading
      ensures unchanged(this`trucksByKey, this`truckChoices, this`selectedTruck, this`truckSearchText, this`truckKeyText, this`aggregateText, this`locationText, this`grossWeightText, this`operatorNameText, this`tareReadout, this`netReadout)
    {
      currentScaleWeight := reading;
    }

    /** `on_truck_selected`: the truck under the chosen key, or none. */
    method OnTruckSelected(key: string)
      requires Valid()
      modifies this
      ensures Valid()
      ensures netReadout == NetReadout(grossWeightText, selectedTruck)
      ensures truckKeyText == key
      ensures selectedTruck == if key in trucksByKey then Some(trucksByKey[key]) else None
      ensures unchanged(this`trucksByKey, this`truckChoices, this`currentScaleWeight, this`truckSearchText, this`aggregateText, this`locationText, this`grossWeightText, this`operatorNameText)
    {
      truckKeyText := key;
      if key in trucksByKey {
        selectedTruck := Some(trucksByKey[key]);
        tareReadout := Weight(trucksByKey[key].tareWeight);
      } else {
        selectedTruck := None;
        tareReadout := NoWeight;
      }
      RecalculateNetWeight();
    }

    /** Typing into the gross entry; the net follows it. */
    method EnterGrossWeight(text: string)
      requires Valid()
      modifies this
      ensures Valid()
      ensures netReadout == NetReadout(grossWeightText, selectedTruck)
      ensures grossWeightText == text
      ensures unchanged(this`trucksByKey, this`truckChoices, this`selectedTruck, this`currentScaleWeight, this`truckSearchText, this`truckKeyText, this`aggregateText, this`locationText, this`operatorNameText)
    {
      grossWeightText := text;
      RecalculateNetWeight();
    }

    /** `capture_gross_weight`: the reading at two decimals, or an emptied entry and a
        warning when there is no reading. */
    method CaptureGrossWeight() returns (warned: bool)
      requires Valid()
      modifies this
      ensures Valid()
      ensures netReadout == NetReadout(grossWeightText, selectedTruck)
      ensures warned <==> currentScaleWeight.None?
      ensures grossWeightText == if currentScaleWeight.Some? then FormatFixed2(currentScaleWeight.value) else ""
      ensures unchanged(this`trucksByKey, this`truckChoices, this`selectedTruck, this`currentScaleWeight, this`truckSearchText, this`truckKeyText, this`aggregateText, this`locationText, this`operatorNameText)
    {
      if currentScaleWeight.Some? {
        grossWeightText := FormatFixed2(currentScaleWeight.value);
        warned := false;
      } else {
        grossWeightText := "";
        warned := true;
      }
      RecalculateNetWeight();
    }

    /** `clear_form`: every entry and the selection emptied, the search kept on request. */
    method ClearForm(clearSearch: bool)
      requires Valid()
      modifies this
      ensures Valid()
      ensures truckSearchText == if clearSearch then "" else old(truckSearchText)
      ensures truckKeyText == "" && aggregateText == "" && locationText == "" && grossWeightText == "" &&
              operatorNameText == "" && selectedTruck.None? && tareReadout == NoWeight &&
              netReadout == NoWeight
      ensures unchanged(this`trucksByKey, this`truckChoices, this`currentScaleWeight)
    {
      if clearSearch {
        truckSearchText := "";
      }
      truckKeyText := "";
      aggregateText := "";
      locationText := "";
      grossWeightText := "";
      operatorNameText := "";
      tareReadout := NoWeight;
      netReadout := NoWeight;
      selectedTruck := None;
    }

    /** The checks on the current entries. */
    function Checked(confirmOverMax: bool): (r: Result<TicketDraft, SaveError>)
      reads this
    {
      ValidateTicket(selectedTruck, aggregatesByName, locationsByName, aggregateText, locationText,
                     grossWeightText, confirmOverMax)
    }

    /** The store's part of `save_ticket`: the ticket, which marks its truck used, and
        then its audit entry signed by the operator. */
    method RecordTicket(d: TicketDraft, operator: Option<string>, now: Timestamp)
      returns (ticket: Option<WeightTicket>)
      requires store.Valid()
      modifies store
      ensures store.Valid()
      ensures ticket == TicketInsert(old(store.trucks), old(store.aggregateTypes), old(store.deliveryLocations),
                                     |old(store.tickets)|, store.enforceForeignKeys, d.truck.id, d.aggregate.id,
                                     d.location.id, d.gross, d.tare, d.net, operator, false, now)
      ensures ticket.None? ==>
        store.trucks == old(store.trucks) && store.tickets == old(store.tickets) &&
        store.auditLog == old(store.auditLog)
      ensures ticket.Some? ==>
        store.trucks == MarkTruckUsed(old(store.trucks), d.truck.id, now) &&
        store.tickets == old(store.tickets) + [ticket.value] &&
        store.auditLog == old(store.auditLog) +
          [AuditEntry(|old(store.auditLog)| + 1, "WeightTickets", ticket.value.id, Insert,
                      OptionalText(operator), now, None, Some(TicketToDict(ticket.value)))]
      ensures store.aggregateTypes == old(store.aggregateTypes) &&
              store.deliveryLocations == old(store.deliveryLocations)
    {
      ticket := store.AddWeightTicket(d.truck.id, d.aggregate.id, d.location.id, d.gross, d.tare, d.net,
                                      operator, false, now);
      if ticket.Some? {
        var _ := store.AddAuditLogEntry("WeightTickets", ticket.value.id, Insert, operator, None,
                                        Some(TicketToDict(ticket.value)), now);
      }
    }

    /** What `save_ticket` does with a ticket that passed the checks: the ticket and
        its audit entry, then the list reloaded with the current search and the form
        cleared except for the search; a ticket the store refuses changes nothing. */
    method CommitTicket(d: TicketDraft, now: Timestamp) returns (outcome: SaveOutcome)
      requires Valid() && store.Valid()
      modifies this, store
      ensures Valid() && store.Valid()
      ensures var op := OperatorName(old(operatorNameText));
        var t := TicketInsert(old(store.trucks), old(store.aggregateTypes), old(store.deliveryLocations),
                              |old(store.tickets)|, store.enforceForeignKeys, d.truck.id, d.aggregate.id,
                              d.location.id, d.gross, d.tare, d.net, op, false, now);
        (t.None? ==>
          outcome == StoreFailed && unchanged(this) &&
          store.trucks == old(store.trucks) && store.tickets == old(store.tickets) &&
          store.auditLog == old(store.auditLog)) &&
        (t.Some? ==>
          outcome == Saved(t.value.id) &&
          store.trucks == MarkTruckUsed(old(store.trucks), d.truck.id, now) &&
          store.tickets == old(store.tickets) + [t.value] &&
          store.auditLog == old(store.auditLog) +
            [AuditEntry(|old(store.auditLog)| + 1, "WeightTickets", t.value.id, Insert, op, now,
                        None, Some(TicketToDict(t.value)))] &&
          trucksByKey == KeyedTrucks(SearchTrucks(store.trucks, Strip(truckSearchText))) &&
          truckChoices == KeyList(SearchTrucks(store.trucks, Strip(truckSearchText))) &&
          selectedTruck.None? && truckKeyText == "" && aggregateText == "" && locationText == "" &&
          grossWeightText == "" && operatorNameText == "" && netReadout == NoWeight &&
          truckSearchText == old(truckSearchText) && currentScaleWeight == old(currentScaleWeight))
      ensures store.aggregateTypes == old(store.aggregateTypes) &&
              store.deliveryLocations == old(store.deliveryLocations)
    {
      var operator := OperatorName(operatorNameText);
      var ticket := RecordTicket(d, operator, now);
      assert OptionalText(operator) == operator;
      if ticket.None? {
        return StoreFailed;
      }
      assert store.trucks == MarkTruckUsed(old(store.trucks), d.truck.id, now);
      PerformTruckSearch();
      ClearForm(false);
      outcome := Saved(ticket.value.id);
    }

    /** `save_ticket`: the checks on the current entries, then `CommitTicket`. A
        rejected save changes nothing. */
    method SaveTicket(confirmOverMax: bool, now: Timestamp) returns (outcome: SaveOutcome)
      requires Valid() && store.Valid()
      modifies this, store
      ensures Valid() && store.Valid()
      ensures old(Checked(confirmOverMax)).Failure? ==>
        outcome == Rejected(old(Checked(confirmOverMax)).error) && unchanged(this) &&
        store.trucks == old(store.trucks) && store.tickets == old(store.tickets) &&
        store.auditLog == old(store.auditLog)
      ensures old(Checked(confirmOverMax)).Success? ==>
        var d := old(Checked(confirmOverMax)).value;
        var op := OperatorName(old(operatorNameText));
        var t := TicketInsert(old(store.trucks), old(store.aggregateTypes), old(store.deliveryLocations),
                              |old(store.tickets)|, store.enforceForeignKeys, d.truck.id, d.aggregate.id,
                              d.location.id, d.gross, d.tare, d.net, op, false, now);
        (t.None? ==>
          outcome == StoreFailed && unchanged(this) &&
          store.trucks == old(store.trucks) && store.tickets == old(store.tickets) &&
          store.auditLog == old(store.auditLog)) &&
        (t.Some? ==>
          outcome == Saved(t.value.id) &&
          store.trucks == MarkTruckUsed(old(store.trucks), d.truck.id, now) &&
          store.tickets == old(store.tickets) + [t.value] &&
          store.auditLog == old(store.auditLog) +
            [AuditEntry(|old(store.auditLog)| + 1, "WeightTickets", t.value.id, Insert, op, now,
                        None, Some(TicketToDict(t.value)))] &&
          trucksByKey == KeyedTrucks(SearchTrucks(store.trucks, Strip(truckSearchText))) &&
          truckChoices == KeyList(SearchTrucks(store.trucks, Strip(truckSearchText))) &&
          selectedTruck.None? && truckKeyText == "" && aggregateText == "" && locationText == "" &&
          grossWeightText == "" && operatorNameText == "" && netReadout == NoWeight &&
          truckSearchText == old(truckSearchText) && currentScaleWeight == old(currentScaleWeight))
      ensures store.aggregateTypes == old(store.aggregateTypes) &&
              store.deliveryLocations == old(store.deliveryLocations)
    {
      var checked := Checked(confirmOverMax);
      if checked.Failure? {
        return Rejected(checked.error);
      }
      outcome := CommitTicket(checked.value, now);
    }
  }
}
