/** The ledger store: the five tables, their insert and update operations with the
    uniqueness rules, rollback on conflict, empty-text normalisation and the audit trail,
    and the ordered queries. Row ids are assigned 1, 2, 3, ... and rows are never
    deleted, so a row's id is its position plus one. */
module Database {
  import opened Wrappers
  import opened Text
  import opened Models
  import opened Sorting

  /** `value if value else None`: an empty text is stored as absent. */
  function OptionalText(v: Option<string>): (r: Option<string>)
    ensures r.None? <==> v.None? || v == Some("")
    ensures r.Some? ==> r == v
  {
    if v == Some("") then None else v
  }

  /** `onupdate=utcnow`: a row whose columns changed gets the current time as
      `updated_at`; an unchanged row is not written and keeps its stamp. */
  function RefreshTruck(before: Truck, after: Truck, now: Timestamp): (r: Truck) {
    if after == before then after else after.(updatedAt := now)
  }

  function RefreshNamed(before: NamedRecord, after: NamedRecord, now: Timestamp): (r: NamedRecord) {
    if after == before then after else after.(updatedAt := now)
  }

  // ----- ids -----

  predicate TruckIdsSequential(ts: seq<Truck>) {
    forall k :: 0 <= k < |ts| ==> ts[k].id == k + 1
  }

  predicate NamedIdsSequential(rs: seq<NamedRecord>) {
    forall k :: 0 <= k < |rs| ==> rs[k].id == k + 1
  }

  predicate TicketIdsSequential(ws: seq<WeightTicket>) {
    forall k :: 0 <= k < |ws| ==> ws[k].id == k + 1
  }

  predicate AuditIdsSequential(es: seq<AuditEntry>) {
    forall k :: 0 <= k < |es| ==> es[k].id == k + 1
  }

  predicate NamesPresent(rs: seq<NamedRecord>) {
    forall k :: 0 <= k < |rs| ==> rs[k].name != ""
  }

  /** The constraints of the truck table: sequential ids, unique columns unique. */
  predicate TruckTable(ts: seq<Truck>) {
    TruckIdsSequential(ts) && TrucksUnique(ts)
  }

  /** The constraints of a reference table: sequential ids, names present and unique. */
  predicate NamedTable(rs: seq<NamedRecord>) {
    NamedIdsSequential(rs) && NamesUnique(rs) && NamesPresent(rs)
  }

  /** The ticket table against the sizes of the tables it refers to: sequential ids,
      every ticket's truck stored and, where enforced, its aggregate type and delivery
      location. */
  predicate TicketTable(ws: seq<WeightTicket>, truckCount: nat, aggregateCount: nat, locationCount: nat,
                        enforceForeignKeys: bool) {
    TicketIdsSequential(ws) &&
    (forall k :: 0 <= k < |ws| ==> 1 <= ws[k].truckId <= truckCount) &&
    (enforceForeignKeys ==> forall k :: 0 <= k < |ws| ==>
       1 <= ws[k].aggregateTypeId <= aggregateCount && 1 <= ws[k].deliveryLocationId <= locationCount)
  }

  /** `query(Truck).filter(Truck.id == id).first()`. */
  function FindTruck(ts: seq<Truck>, id: int): (r: Option<Truck>)
    ensures r.Some? ==> r.value in ts && r.value.id == id
    ensures r.None? ==> forall t :: t in ts ==> t.id != id
  {
    if ts == [] then None
    else if ts[0].id == id then Some(ts[0])
    else
      var r := FindTruck(ts[1..], id);
      assert forall t :: t in ts ==> t == ts[0] || t in ts[1..];
      r
  }

  function FindNamed(rs: seq<NamedRecord>, id: int): (r: Option<NamedRecord>)
    ensures r.Some? ==> r.value in rs && r.value.id == id
    ensures r.None? ==> forall x :: x in rs ==> x.id != id
  {
    if rs == [] then None
    else if rs[0].id == id then Some(rs[0])
    else
      var r := FindNamed(rs[1..], id);
      assert forall x :: x in rs ==> x == rs[0] || x in rs[1..];
      r
  }

  /** With sequential ids, the truck with id `id` is the one at position `id - 1`. */
  lemma FindTruckByPosition(ts: seq<Truck>, id: int)
    requires TruckIdsSequential(ts)
    ensures FindTruck(ts, id) == if 1 <= id <= |ts| then Some(ts[id - 1]) else None
  {
    var r := FindTruck(ts, id);
    if 1 <= id <= |ts| {
      assert ts[id - 1] in ts;
    }
    if r.Some? {
      var k :| 0 <= k < |ts| && ts[k] == r.value;
    }
  }

  lemma FindNamedByPosition(rs: seq<NamedRecord>, id: int)
    requires NamedIdsSequential(rs)
    ensures FindNamed(rs, id) == if 1 <= id <= |rs| then Some(rs[id - 1]) else None
  {
    var r := FindNamed(rs, id);
    if 1 <= id <= |rs| {
      assert rs[id - 1] in rs;
    }
    if r.Some? {
      var k :| 0 <= k < |rs| && rs[k] == r.value;
    }
  }

  // ----- ordering -----

  /** `last_used_timestamp DESC NULLS LAST`: `a` comes strictly before `b`. */
  predicate UsedMoreRecently(a: Option<Timestamp>, b: Option<Timestamp>) {
    a.Some? && (b.None? || a.value > b.value)
  }

  /** The truck order: most recently used first, never-used trucks last, then company
      name, then unit id. */
  predicate TruckLe(a: Truck, b: Truck) {
    if a.lastUsed != b.lastUsed then UsedMoreRecently(a.lastUsed, b.lastUsed)
    else if a.companyName != b.companyName then LexLe(a.companyName, b.companyName)
    else LexLe(a.unitId, b.unitId)
  }

  lemma TruckLeTotal()
    ensures Total(TruckLe)
  {
    forall a: Truck, b: Truck ensures TruckLe(a, b) || TruckLe(b, a) {
      LexLeTotal(a.companyName, b.companyName);
      LexLeTotal(a.unitId, b.unitId);
    }
  }

  lemma TruckLeTransitive()
    ensures Transitive(TruckLe)
  {
    forall a: Truck, b: Truck, c: Truck | TruckLe(a, b) && TruckLe(b, c) ensures TruckLe(a, c) {
      TruckLeTransitiveAt(a, b, c);
    }
  }

  lemma TruckLeTransitiveAt(a: Truck, b: Truck, c: Truck)
    requires TruckLe(a, b) && TruckLe(b, c)
    ensures TruckLe(a, c)
  {
    if a.lastUsed == b.lastUsed && b.lastUsed == c.lastUsed {
      var ca, cb, cc := a.companyName, b.companyName, c.companyName;
      if ca != cb && cb != cc {
        LexLeTransitive(ca, cb, cc);
        LexLeAntisymmetric(ca, cb);
      } else if ca == cb && cb == cc {
        LexLeTransitive(a.unitId, b.unitId, c.unitId);
      }
    }
  }

  /** Two trucks ordered both ways agree on all three sort keys. */
  lemma TruckLeBothWays(a: Truck, b: Truck)
    requires TruckLe(a, b) && TruckLe(b, a)
    ensures a.lastUsed == b.lastUsed && a.companyName == b.companyName && a.unitId == b.unitId
  {
    if a.lastUsed == b.lastUsed && a.companyName == b.companyName {
      LexLeAntisymmetric(a.unitId, b.unitId);
    } else if a.lastUsed == b.lastUsed {
      LexLeAntisymmetric(a.companyName, b.companyName);
    }
  }

  /** Unit ids are unique, so the order tells apart any two trucks of a table. */
  lemma TruckLeAntisymmetric(ts: seq<Truck>)
    requires TrucksUnique(ts)
    ensures AntisymmetricOn(ts, TruckLe)
  {
    forall x, y | x in ts && y in ts && TruckLe(x, y) && TruckLe(y, x) ensures x == y {
      TruckLeBothWays(x, y);
      var i :| 0 <= i < |ts| && ts[i] == x;
      var j :| 0 <= j < |ts| && ts[j] == y;
      assert i == j;
    }
  }

  /** `get_all_trucks_mru_ordered`: the trucks sorted by the truck order. */
  function MruOrdered(ts: seq<Truck>): (r: seq<Truck>) {
    Sort(ts, TruckLe)
  }

  /** The listing holds every truck once, in the truck order. */
  lemma MruOrderedListing(ts: seq<Truck>)
    ensures multiset(MruOrdered(ts)) == multiset(ts)
    ensures Sorted(MruOrdered(ts), TruckLe)
  {
    SortPermutation(ts, TruckLe);
    TruckLeTotal();
    TruckLeTransitive();
    SortSorted(ts, TruckLe);
  }

  /** The order is fully determined: any arrangement of a table's trucks in the truck
      order is the listing. */
  lemma MruOrderedUnique(ts: seq<Truck>, r: seq<Truck>)
    requires TrucksUnique(ts)
    requires multiset(r) == multiset(ts) && Sorted(r, TruckLe)
    ensures r == MruOrdered(ts)
  {
    TruckLeAntisymmetric(ts);
    forall x | x in r ensures x in ts {
      assert x in multiset(r);
    }
    MruOrderedListing(ts);
    SortedUnique(r, MruOrdered(ts), TruckLe);
  }

  /** In the listing, a used truck never follows a never-used one, later use comes
      first, and trucks last used at the same time are ordered by company name. */
  lemma MruRecentFirst(ts: seq<Truck>, i: int, j: int)
    requires 0 <= i < j < |ts|
    ensures var r := MruOrdered(ts);
      (r[j].lastUsed.Some? ==> r[i].lastUsed.Some? && r[i].lastUsed.value >= r[j].lastUsed.value) &&
      (r[i].lastUsed == r[j].lastUsed ==> LexLe(r[i].companyName, r[j].companyName))
  {
    var r := MruOrdered(ts);
    MruOrderedListing(ts);
    assert TruckLe(r[i], r[j]);
    if r[i].companyName == r[j].companyName {
      LexLeTotal(r[i].companyName, r[j].companyName);
    }
  }

  // ----- search -----

  /** `lower(column) LIKE lower('%' || term.lower() || '%')` on the unit id, the company
      name or the ASGA id: the term is lowered by Python, then again by SQLite (which
      changes nothing more), the columns by SQLite alone; an absent ASGA id matches
      nothing. */
  predicate TruckMatches(term: string, t: Truck) {
    var p := Lower(PyLower(term));
    Contains(Lower(t.unitId), p) || Contains(Lower(t.companyName), p) ||
    (t.asgaId.Some? && Contains(Lower(t.asgaId.value), p))
  }

  /** The term is lowered by Python but the columns only in ASCII, so a non-ASCII
      capital in a column can never be found: `Öz` and `öz` both miss `Öztürk`, while
      `ÖZ` finds `öztürk`. */
  lemma NonAsciiCapitalMissed(t: Truck)
    requires t.unitId == "" && t.companyName == "Öztürk" && t.asgaId.None?
    ensures !TruckMatches("Öz", t) && !TruckMatches("öz", t)
    ensures TruckMatches("ÖZ", t.(companyName := "öztürk"))
  {
    LowerOfPyLower("Öz");
    LowerOfPyLower("öz");
    LowerOfPyLower("ÖZ");
    assert PyLower("Öz") == "öz";
    assert PyLower("öz") == "öz";
    assert PyLower("ÖZ") == "öz";
    assert Lower("Öztürk") == "Öztürk";
    assert Lower("öztürk") == "öztürk";
    ContainsIff("Öztürk", "öz");
    ContainsIff("", "öz");
    assert OccursAt("öztürk", "öz", 0);
    ContainsIff("öztürk", "öz");
    forall i | 0 <= i <= 4 ensures !OccursAt("Öztürk", "öz", i) {
      assert "Öztürk"[i..i + 2][0] != 'ö';
    }
  }

  function MatchesTerm(term: string): (r: Truck -> bool) {
    t => TruckMatches(term, t)
  }

  /** `search_trucks`: an empty term lists every truck; otherwise the matching trucks,
      sorted by the truck order. */
  function SearchTrucks(ts: seq<Truck>, term: string): (r: seq<Truck>) {
    if term == "" then MruOrdered(ts) else Sort(Filter(ts, MatchesTerm(term)), TruckLe)
  }

  /** A search lists exactly the trucks that match, in the truck order. */
  lemma SearchTrucksListing(ts: seq<Truck>, term: string)
    ensures Sorted(SearchTrucks(ts, term), TruckLe)
    ensures forall t :: t in SearchTrucks(ts, term) <==> t in ts && (term == "" || TruckMatches(term, t))
  {
    var r := SearchTrucks(ts, term);
    if term == "" {
      MruOrderedListing(ts);
      assert forall t :: t in r <==> t in multiset(r);
    } else {
      var f := Filter(ts, MatchesTerm(term));
      SortPermutation(f, TruckLe);
      TruckLeTotal();
      TruckLeTransitive();
      SortSorted(f, TruckLe);
      assert forall t :: t in r <==> t in multiset(r);
      assert forall t :: t in f <==> t in multiset(f);
    }
  }

  /** Searching is filtering the listing: the matching trucks appear in the same
      relative order as in `get_all_trucks_mru_ordered`. */
  lemma SearchIsFilteredListing(ts: seq<Truck>, term: string)
    requires TrucksUnique(ts) && term != ""
    ensures SearchTrucks(ts, term) == Filter(MruOrdered(ts), MatchesTerm(term))
  {
    var p := MatchesTerm(term);
    var a := SearchTrucks(ts, term);
    var m := MruOrdered(ts);
    var b := Filter(m, p);
    MruOrderedListing(ts);
    SearchTrucksListing(ts, term);
    SortPermutation(Filter(ts, p), TruckLe);
    FilterPermutation(ts, m, p);
    FilterSorted(m, p, TruckLe);
    TruckLeAntisymmetric(ts);
    assert AntisymmetricOn(a, TruckLe);
    SortedUnique(a, b, TruckLe);
  }

  // ----- the reference tables' order -----

  predicate NameLe(a: NamedRecord, b: NamedRecord) {
    LexLe(a.name, b.name)
  }

  /** `get_all_aggregate_types` and `get_all_delivery_locations`: the rows sorted by
      name. */
  function NamesOrdered(rs: seq<NamedRecord>): (r: seq<NamedRecord>) {
    Sort(rs, NameLe)
  }

  /** The listing holds every row once, by name. */
  lemma NamesOrderedListing(rs: seq<NamedRecord>)
    ensures multiset(NamesOrdered(rs)) == multiset(rs)
    ensures Sorted(NamesOrdered(rs), NameLe)
  {
    SortPermutation(rs, NameLe);
    assert Total(NameLe) by {
      forall a: NamedRecord, b: NamedRecord ensures NameLe(a, b) || NameLe(b, a) {
        LexLeTotal(a.name, b.name);
      }
    }
    assert Transitive(NameLe) by {
      forall a: NamedRecord, b: NamedRecord, c: NamedRecord | NameLe(a, b) && NameLe(b, c)
        ensures NameLe(a, c)
      {
        LexLeTransitive(a.name, b.name, c.name);
      }
    }
    SortSorted(rs, NameLe);
  }

  /** With unique names the listing by name is determined. */
  lemma NamesOrderedUnique(rs: seq<NamedRecord>, r: seq<NamedRecord>)
    requires NamesUnique(rs)
    requires multiset(r) == multiset(rs) && Sorted(r, NameLe)
    ensures r == NamesOrdered(rs)
  {
    forall x, y | x in rs && y in rs && NameLe(x, y) && NameLe(y, x) ensures x == y {
      LexLeAntisymmetric(x.name, y.name);
      var i :| 0 <= i < |rs| && rs[i] == x;
      var j :| 0 <= j < |rs| && rs[j] == y;
      assert i == j;
    }
    forall x | x in r ensures x in rs {
      assert x in multiset(r);
    }
    NamesOrderedListing(rs);
    SortedUnique(r, NamesOrdered(rs), NameLe);
  }

  // ----- adding a truck -----

  /** The row `add_truck` builds: an empty ASGA id becomes absent, both stamps are the
      current time and the truck has never been used. */
  function NewTruck(id: int, unitId: string, companyName: string, tare: real, max: real,
                    asgaId: Option<string>, now: Timestamp): (r: Truck)
  {
    Truck(id, unitId, companyName, OptionalText(asgaId), tare, max, now, now, None)
  }

  /** `add_truck`: `None` for an empty unit id or company name, or when the new row
      breaks a unique column; otherwise the row stored with the next id. */
  function TruckInsert(ts: seq<Truck>, unitId: string, companyName: string, tare: real,
                       max: real, asgaId: Option<string>, now: Timestamp): (r: Option<Truck>)
  {
    var t := NewTruck(|ts| + 1, unitId, companyName, tare, max, asgaId, now);
    if unitId == "" || companyName == "" then None
    else if exists k :: 0 <= k < |ts| && TruckClashes(t, ts[k]) then None
    else Some(t)
  }

  /** The insert fails exactly for an empty required text, a taken unit id, or a taken
      ASGA id when one is given; a stored row has the given values. */
  lemma TruckInsertOutcome(ts: seq<Truck>, unitId: string, companyName: string, tare: real,
                           max: real, asgaId: Option<string>, now: Timestamp)
    ensures var r := TruckInsert(ts, unitId, companyName, tare, max, asgaId, now);
      (r.None? <==>
        unitId == "" || companyName == "" ||
        (exists k :: 0 <= k < |ts| && ts[k].unitId == unitId) ||
        (asgaId.Some? && asgaId.value != "" && exists k :: 0 <= k < |ts| && ts[k].asgaId == asgaId)) &&
      (r.Some? ==>
        r.value.id == |ts| + 1 && r.value.unitId == unitId && r.value.companyName == companyName &&
        r.value.tareWeight == tare && r.value.maxAllowedWeight == max &&
        (r.value.asgaId.None? <==> asgaId.None? || asgaId == Some("")) &&
        (r.value.asgaId.Some? ==> r.value.asgaId == asgaId) &&
        r.value.createdAt == now && r.value.updatedAt == now && r.value.lastUsed.None?)
  {
  }

  /** A stored truck keeps the table's ids sequential and its unique columns unique. */
  lemma TruckInsertKeepsInvariant(ts: seq<Truck>, unitId: string, companyName: string, tare: real,
                                  max: real, asgaId: Option<string>, now: Timestamp)
    requires TruckTable(ts)
    requires TruckInsert(ts, unitId, companyName, tare, max, asgaId, now).Some?
    ensures TruckTable(ts + [TruckInsert(ts, unitId, companyName, tare, max, asgaId, now).value])
  {
    var t := TruckInsert(ts, unitId, companyName, tare, max, asgaId, now).value;
    var s := ts + [t];
    forall i, j | 0 <= i < |s| && 0 <= j < |s| && i != j ensures !TruckClashes(s[i], s[j]) {
      if i == |ts| {
        assert !TruckClashes(t, ts[j]);
      } else if j == |ts| {
        assert !TruckClashes(t, ts[i]);
        TruckClashesSymmetric(t, ts[i]);
      }
    }
  }

  // ----- updating a truck -----

  /** One keyword argument of `update_truck`: a truck column with its new value, or a
      name that is not a truck attribute (ignored with a warning). */
  datatype TruckChange =
    | SetUnitId(unitId: string)
    | SetCompanyName(companyName: string)
    | SetAsgaId(asgaId: Option<string>)
    | SetTareWeight(tare: real)
    | SetMaxAllowedWeight(max: real)
    | NotAnAttribute(key: string)

  /** `setattr` for one keyword; an empty ASGA id is stored as absent. */
  function ApplyTruckChange(t: Truck, c: TruckChange): (r: Truck) {
    match c
    case SetUnitId(u) => t.(unitId := u)
    case SetCompanyName(n) => t.(companyName := n)
    case SetAsgaId(a) => t.(asgaId := if a == Some("") then None else a)
    case SetTareWeight(w) => t.(tareWeight := w)
    case SetMaxAllowedWeight(w) => t.(maxAllowedWeight := w)
    case NotAnAttribute(_) => t
  }

  /** The keywords applied in order. */
  function ApplyTruckChanges(t: Truck, cs: seq<TruckChange>): (r: Truck)
    decreases |cs|
  {
    if cs == [] then t else ApplyTruckChanges(ApplyTruckChange(t, cs[0]), cs[1..])
  }

  /** The keywords never touch the id, the stamps or the last use. */
  lemma {:induction false} ChangesKeepIdentity(t: Truck, cs: seq<TruckChange>)
    ensures var u := ApplyTruckChanges(t, cs);
      u.id == t.id && u.createdAt == t.createdAt && u.updatedAt == t.updatedAt && u.lastUsed == t.lastUsed
    decreases |cs|
  {
    if cs != [] {
      ChangesKeepIdentity(ApplyTruckChange(t, cs[0]), cs[1..]);
    }
  }

  predicate IsAttribute(c: TruckChange) {
    !c.NotAnAttribute?
  }

  /** Keywords that are not truck attributes have no effect. */
  lemma {:induction false} NonAttributesIgnored(t: Truck, cs: seq<TruckChange>)
    ensures ApplyTruckChanges(t, Filter(cs, IsAttribute)) == ApplyTruckChanges(t, cs)
    decreases |cs|
  {
    if cs != [] {
      NonAttributesIgnored(ApplyTruckChange(t, cs[0]), cs[1..]);
      if IsAttribute(cs[0]) {
        assert Filter(cs, IsAttribute) == [cs[0]] + Filter(cs[1..], IsAttribute);
        assert ([cs[0]] + Filter(cs[1..], IsAttribute))[1..] == Filter(cs[1..], IsAttribute);
      } else {
        NonAttributesIgnored(t, cs[1..]);
      }
    }
  }

  /** Later keywords are applied after earlier ones. */
  lemma {:induction false} ChangesAppend(t: Truck, cs: seq<TruckChange>, c: TruckChange)
    ensures ApplyTruckChanges(t, cs + [c]) == ApplyTruckChange(ApplyTruckChanges(t, cs), c)
    decreases |cs|
  {
    if cs == [] {
      assert [c][1..] == [];
    } else {
      assert (cs + [c])[1..] == cs[1..] + [c];
      ChangesAppend(ApplyTruckChange(t, cs[0]), cs[1..], c);
    }
  }

  /** The keyword loop of `update_truck`: `setattr` for each keyword that names a
      truck attribute, in the order given. */
  method SetTruckAttributes(before: Truck, changes: seq<TruckChange>) returns (t: Truck)
    ensures t == ApplyTruckChanges(before, changes)
  {
    t := before;
    var i := 0;
    while i < |changes|
      invariant 0 <= i <= |changes|
      invariant ApplyTruckChanges(t, changes[i..]) == ApplyTruckChanges(before, changes)
    {
      match changes[i] {
        case SetUnitId(u) => t := t.(unitId := u);
        case SetCompanyName(n) => t := t.(companyName := n);
        case SetAsgaId(a) => t := t.(asgaId := if a == Some("") then None else a);
        case SetTareWeight(w) => t := t.(tareWeight := w);
        case SetMaxAllowedWeight(w) => t := t.(maxAllowedWeight := w);
        case NotAnAttribute(_) =>
      }
      assert changes[i..][1..] == changes[i + 1..];
      i := i + 1;
    }
  }

  /** The updated row would clash with another truck of the table. */
  predicate ClashesWithOthers(ts: seq<Truck>, pos: int, t: Truck) {
    exists k :: 0 <= k < |ts| && k != pos && TruckClashes(t, ts[k])
  }

  /** `update_truck`: `None` for an unknown id or when the updated row breaks a unique
      column; otherwise the updated row. */
  function TruckUpdate(ts: seq<Truck>, id: int, cs: seq<TruckChange>, now: Timestamp): (r: Option<Truck>) {
    if !(1 <= id <= |ts|) then None
    else
      var u := ApplyTruckChanges(ts[id - 1], cs);
      if ClashesWithOthers(ts, id - 1, u) then None
      else Some(RefreshTruck(ts[id - 1], u, now))
  }

  /** A stored update keeps the id, creation time and last use, carries the changed
      columns, and moves `updated_at` to now exactly when some column changed. */
  lemma TruckUpdateOutcome(ts: seq<Truck>, id: int, cs: seq<TruckChange>, now: Timestamp)
    requires TruckIdsSequential(ts)
    ensures var r := TruckUpdate(ts, id, cs, now);
      (r.None? <==> FindTruck(ts, id).None? ||
                    ClashesWithOthers(ts, id - 1, ApplyTruckChanges(FindTruck(ts, id).value, cs))) &&
      (r.Some? ==>
        var before := FindTruck(ts, id).value;
        var u := ApplyTruckChanges(before, cs);
        r.value.id == id && r.value.createdAt == before.createdAt && r.value.lastUsed == before.lastUsed &&
        r.value.unitId == u.unitId && r.value.companyName == u.companyName && r.value.asgaId == u.asgaId &&
        r.value.tareWeight == u.tareWeight && r.value.maxAllowedWeight == u.maxAllowedWeight &&
        (r.value.updatedAt == now || r.value == before) &&
        (r.value == before <==> u == before))
  {
    FindTruckByPosition(ts, id);
    if 1 <= id <= |ts| {
      ChangesKeepIdentity(ts[id - 1], cs);
    }
  }

  /** A stored update keeps the ids sequential and the unique columns unique. */
  lemma TruckUpdateKeepsInvariant(ts: seq<Truck>, id: int, cs: seq<TruckChange>, now: Timestamp)
    requires TruckTable(ts)
    requires TruckUpdate(ts, id, cs, now).Some?
    ensures TruckTable(ts[id - 1 := TruckUpdate(ts, id, cs, now).value])
  {
    var before := ts[id - 1];
    var u := ApplyTruckChanges(before, cs);
    ChangesKeepIdentity(before, cs);
    var t := RefreshTruck(before, u, now);
    var s := ts[id - 1 := t];
    assert !ClashesWithOthers(ts, id - 1, u);
    forall i, j | 0 <= i < |s| && 0 <= j < |s| && i != j ensures !TruckClashes(s[i], s[j]) {
      if i == id - 1 {
        assert !TruckClashes(u, ts[j]);
      } else if j == id - 1 {
        assert !TruckClashes(u, ts[i]);
        TruckClashesSymmetric(u, ts[i]);
      }
    }
  }

  // ----- the reference tables -----

  /** `add_aggregate_type` / `add_delivery_location`: `None` for an empty name or a
      name already taken; otherwise the row stored with the next id, an empty note
      stored as absent. */
  function NamedInsert(rs: seq<NamedRecord>, name: string, note: Option<string>, now: Timestamp): (r: Option<NamedRecord>) {
    if name == "" then None
    else if exists k :: 0 <= k < |rs| && rs[k].name == name then None
    else Some(NamedRecord(|rs| + 1, name, OptionalText(note), now, now))
  }

  /** A stored row keeps the ids sequential and the names present and unique. */
  lemma NamedInsertKeepsInvariant(rs: seq<NamedRecord>, name: string, note: Option<string>, now: Timestamp)
    requires NamedTable(rs)
    requires NamedInsert(rs, name, note, now).Some?
    ensures NamedTable(rs + [NamedInsert(rs, name, note, now).value])
  {
    var s := rs + [NamedInsert(rs, name, note, now).value];
    forall i, j | 0 <= i < |s| && 0 <= j < |s| && i != j ensures s[i].name != s[j].name {
      if i == |rs| {
        assert s[j] == rs[j];
      } else if j == |rs| {
        assert s[i] == rs[i];
      }
    }
  }

  /** The row being edited: `None` stands for a column set to NULL. */
  datatype NamedDraft = NamedDraft(name: Option<string>, note: Option<string>)

  /** `setattr(row, key, value if value else None)` for the keys `name` and the
      catalogue's note key. Other keys leave the row as it is: a key that is not an
      attribute only prints a warning, and the attributes `id`, `created_at` and
      `updated_at`, which the source would also set, are not modelled. */
  function ApplyNamedKwarg(c: Catalogue, d: NamedDraft, key: string, value: Option<string>): (r: NamedDraft) {
    if key == "name" then d.(name := OptionalText(value))
    else if key == NoteKey(c) then d.(note := OptionalText(value))
    else d
  }

  function ApplyNamedKwargs(c: Catalogue, d: NamedDraft, kwargs: seq<(string, Option<string>)>): (r: NamedDraft)
    decreases |kwargs|
  {
    if kwargs == [] then d
    else ApplyNamedKwargs(c, ApplyNamedKwarg(c, d, kwargs[0].0, kwargs[0].1), kwargs[1..])
  }

  /** The keyword loop of the reference-table updates. */
  method SetNamedAttributes(c: Catalogue, start: NamedDraft, kwargs: seq<(string, Option<string>)>)
    returns (d: NamedDraft)
    ensures d == ApplyNamedKwargs(c, start, kwargs)
  {
    d := start;
    var i := 0;
    while i < |kwargs|
      invariant 0 <= i <= |kwargs|
      invariant ApplyNamedKwargs(c, d, kwargs[i..]) == ApplyNamedKwargs(c, start, kwargs)
    {
      var (key, value) := kwargs[i];
      var normalised := if value.Some? && value.value != "" then value else None;
      if key == "name" {
        d := d.(name := normalised);
      } else if key == NoteKey(c) {
        d := d.(note := normalised);
      }
      assert kwargs[i..][1..] == kwargs[i + 1..];
      i := i + 1;
    }
  }

  function DraftOf(r: NamedRecord): (res: NamedDraft) {
    NamedDraft(Some(r.name), r.note)
  }

  /** `update_aggregate_type` / `update_delivery_location`: `None` for an unknown id,
      for a name set to an empty or absent value (the column is NOT NULL), or for a
      name taken by another row; otherwise the updated row. */
  function NamedUpdate(c: Catalogue, rs: seq<NamedRecord>, id: int, kwargs: seq<(string, Option<string>)>,
                       now: Timestamp): (r: Option<NamedRecord>)
  {
    if !(1 <= id <= |rs|) then None
    else
      var before := rs[id - 1];
      var d := ApplyNamedKwargs(c, DraftOf(before), kwargs);
      if d.name.None? then None
      else if exists k :: 0 <= k < |rs| && k != id - 1 && rs[k].name == d.name.value then None
      else Some(RefreshNamed(before, before.(name := d.name.value, note := d.note), now))
  }

  /** Every key that reaches a row's name maps an empty value to NULL, so an update
      never stores an empty name. */
  lemma {:induction false} KwargsNeverEmptyName(c: Catalogue, d: NamedDraft, kwargs: seq<(string, Option<string>)>)
    requires d.name != Some("")
    ensures ApplyNamedKwargs(c, d, kwargs).name != Some("")
    decreases |kwargs|
  {
    if kwargs != [] {
      KwargsNeverEmptyName(c, ApplyNamedKwarg(c, d, kwargs[0].0, kwargs[0].1), kwargs[1..]);
    }
  }

  /** Setting the name to an empty text makes the update fail, whatever the note. */
  lemma EmptyNameRejected(c: Catalogue, rs: seq<NamedRecord>, id: int, now: Timestamp)
    ensures NamedUpdate(c, rs, id, [("name", Some(""))], now).None?
  {
    if 1 <= id <= |rs| {
      var d := ApplyNamedKwargs(c, DraftOf(rs[id - 1]), [("name", Some(""))]);
      assert d == ApplyNamedKwargs(c, ApplyNamedKwarg(c, DraftOf(rs[id - 1]), "name", Some("")), []);
    }
  }

  /** A stored update keeps the ids sequential and the names present and unique. */
  lemma NamedUpdateKeepsInvariant(c: Catalogue, rs: seq<NamedRecord>, id: int,
                                  kwargs: seq<(string, Option<string>)>, now: Timestamp)
    requires NamedTable(rs)
    requires NamedUpdate(c, rs, id, kwargs, now).Some?
    ensures NamedTable(rs[id - 1 := NamedUpdate(c, rs, id, kwargs, now).value])
    ensures NamedUpdate(c, rs, id, kwargs, now).value.id == id
  {
    KwargsNeverEmptyName(c, DraftOf(rs[id - 1]), kwargs);
    var r := NamedUpdate(c, rs, id, kwargs, now).value;
    var s := rs[id - 1 := r];
    forall i, j | 0 <= i < |s| && 0 <= j < |s| && i != j ensures s[i].name != s[j].name {
      if i != id - 1 && j != id - 1 {
        assert s[i] == rs[i] && s[j] == rs[j];
      }
    }
  }

  // ----- weight tickets -----

  /** The truck row after a weighing: last used now, `updated_at` refreshed with it. */
  function MarkUsed(t: Truck, now: Timestamp): (r: Truck)
    ensures r.lastUsed == Some(now) && r.id == t.id && r.unitId == t.unitId && r.asgaId == t.asgaId
    ensures r.updatedAt == now || r == t
  {
    RefreshTruck(t, t.(lastUsed := Some(now)), now)
  }

  /** The truck table after a weighing of truck `id`: that row marked used, the others
      as they were. */
  function MarkTruckUsed(ts: seq<Truck>, id: int, now: Timestamp): (r: seq<Truck>) {
    if 1 <= id <= |ts| then ts[id - 1 := MarkUsed(ts[id - 1], now)] else ts
  }

  /** `add_weight_ticket`: `None` for an unknown truck, or, where the engine enforces
      foreign keys, for an unknown aggregate type or delivery location; otherwise the
      ticket stored with the next id, an empty operator name stored as absent. Ids
      are positions plus one, so "unknown" is "out of range". */
  function TicketInsert(trucks: seq<Truck>, aggregates: seq<NamedRecord>, locations: seq<NamedRecord>,
                        ticketCount: nat, enforceForeignKeys: bool, truckId: int, aggregateTypeId: int,
                        deliveryLocationId: int, gross: real, tare: real, net: real,
                        operatorName: Option<string>, ticketPrinted: bool, now: Timestamp): (r: Option<WeightTicket>)
  {
    if !(1 <= truckId <= |trucks|) then None
    else if enforceForeignKeys &&
            !(1 <= aggregateTypeId <= |aggregates| && 1 <= deliveryLocationId <= |locations|)
    then None
    else Some(WeightTicket(ticketCount + 1, truckId, aggregateTypeId, deliveryLocationId, gross, tare, net,
                           now, OptionalText(operatorName), ticketPrinted))
  }

  /** A stored ticket refers to an existing truck and carries the given weights
      unchanged; foreign keys are only checked where the engine enforces them. */
  lemma TicketInsertOutcome(trucks: seq<Truck>, aggregates: seq<NamedRecord>, locations: seq<NamedRecord>,
                            ticketCount: nat, enforceForeignKeys: bool, truckId: int, aggregateTypeId: int,
                            deliveryLocationId: int, gross: real, tare: real, net: real,
                            operatorName: Option<string>, ticketPrinted: bool, now: Timestamp)
    requires TruckIdsSequential(trucks) && NamedIdsSequential(aggregates) && NamedIdsSequential(locations)
    ensures var r := TicketInsert(trucks, aggregates, locations, ticketCount, enforceForeignKeys, truckId,
                                  aggregateTypeId, deliveryLocationId, gross, tare, net, operatorName,
                                  ticketPrinted, now);
      (r.None? <==> FindTruck(trucks, truckId).None? ||
                    (enforceForeignKeys &&
                     (FindNamed(aggregates, aggregateTypeId).None? || FindNamed(locations, deliveryLocationId).None?))) &&
      (r.Some? ==> r.value.id == ticketCount + 1 && r.value.truckId == truckId &&
                   r.value.grossWeight == gross && r.value.tareWeightAtWeighing == tare &&
                   r.value.netWeight == net && r.value.timestamp == now &&
                   (r.value.operatorName.None? <==> operatorName.None? || operatorName == Some("")))
  {
    FindTruckByPosition(trucks, truckId);
    FindNamedByPosition(aggregates, aggregateTypeId);
    FindNamedByPosition(locations, deliveryLocationId);
  }

  // ----- the store -----

  /** The database: one sequence per table. Whether the engine checks the aggregate
      and location foreign keys of a ticket is configuration, fixed at creation. */
  class Ledger {
    var trucks: seq<Truck>
    var aggregateTypes: seq<NamedRecord>
    var deliveryLocations: seq<NamedRecord>
    var tickets: seq<WeightTicket>
    var auditLog: seq<AuditEntry>
    const enforceForeignKeys: bool

    /** The table constraints: sequential ids, unique columns unique, names present,
        every ticket's truck stored (and, where enforced, its aggregate type and
        delivery location). */
    ghost predicate Valid()
      reads this
    {
      TruckTable(trucks) && NamedTable(aggregateTypes) && NamedTable(deliveryLocations) &&
      TicketTable(tickets, |trucks|, |aggregateTypes|, |deliveryLocations|, enforceForeignKeys) &&
      AuditIdsSequential(auditLog)
    }

    function Table(c: Catalogue): (r: seq<NamedRecord>)
      reads this
    {
      if c.Aggregates? then aggregateTypes else deliveryLocations
    }

    constructor (enforceForeignKeys: bool)
      ensures Valid()
      ensures trucks == [] && aggregateTypes == [] && deliveryLocations == [] && tickets == [] && auditLog == []
      ensures this.enforceForeignKeys == enforceForeignKeys
    {
      trucks := [];
      aggregateTypes := [];
      deliveryLocations := [];
      tickets := [];
      auditLog := [];
      this.enforceForeignKeys := enforceForeignKeys;
    }

    /** `add_audit_log_entry`: appends one entry with the next id; an empty
        `changed_by` is stored as absent. */
    method AddAuditLogEntry(tableName: string, recordId: int, action: Action, changedBy: Option<string>,
                            oldValues: Option<Snapshot>, newValues: Option<Snapshot>, now: Timestamp)
      returns (e: AuditEntry)
      requires Valid()
      modifies this
      ensures Valid()
      ensures e == AuditEntry(|old(auditLog)| + 1, tableName, recordId, action, OptionalText(changedBy),
                              now, oldValues, newValues)
      ensures auditLog == old(auditLog) + [e]
      ensures trucks == old(trucks) && aggregateTypes == old(aggregateTypes) &&
              deliveryLocations == old(deliveryLocations) && tickets == old(tickets)
    {
      e := AuditEntry(|auditLog| + 1, tableName, recordId, action,
                      if changedBy.Some? && changedBy.value != "" then changedBy else None,
                      now, oldValues, newValues);
      auditLog := auditLog + [e];
    }

    /** `add_truck`: stores the row and writes one INSERT entry with its snapshot, or
        rolls back and changes nothing. */
    method AddTruck(unitId: string, companyName: string, tare: real, max: real, asgaId: Option<string>,
                    now: Timestamp) returns (r: Option<Truck>)
      requires Valid()
      modifies this
      ensures Valid()
      ensures r == TruckInsert(old(trucks), unitId, companyName, tare, max, asgaId, now)
      ensures r.Some? ==> trucks == old(trucks) + [r.value]
      ensures r.Some? ==>
        auditLog == old(auditLog) + [AuditEntry(|old(auditLog)| + 1, "Trucks", r.value.id, Insert, None, now,
                                                None, Some(TruckToDict(r.value)))]
      ensures r.None? ==> trucks == old(trucks) && auditLog == old(auditLog)
      ensures aggregateTypes == old(aggregateTypes) && deliveryLocations == old(deliveryLocations) &&
              tickets == old(tickets)
    {
      if unitId == "" || companyName == "" {
        return None;
      }
      var t := Truck(|trucks| + 1, unitId, companyName, if asgaId == Some("") then None else asgaId,
                     tare, max, now, now, None);
      if exists k :: 0 <= k < |trucks| && TruckClashes(t, trucks[k]) {
        return None;
      }
      assert TruckInsert(trucks, unitId, companyName, tare, max, asgaId, now) == Some(t);
      TruckInsertKeepsInvariant(trucks, unitId, companyName, tare, max, asgaId, now);
      trucks := trucks + [t];
      var _ := AddAuditLogEntry("Trucks", t.id, Insert, None, None, Some(TruckToDict(t)), now);
      r := Some(t);
    }

    /** `update_truck`: applies the keywords one after the other to the stored row,
        then stores it and writes one UPDATE entry with the snapshots before and after,
        or rolls back and changes nothing. */
    method UpdateTruck(id: int, changes: seq<TruckChange>, now: Timestamp) returns (r: Option<Truck>)
      requires Valid()
      modifies this
      ensures Valid()
      ensures r == TruckUpdate(old(trucks), id, changes, now)
      ensures r.Some? ==> trucks == old(trucks)[id - 1 := r.value]
      ensures r.Some? ==>
        auditLog == old(auditLog) + [AuditEntry(|old(auditLog)| + 1, "Trucks", id, Update, None, now,
                                                Some(TruckToDict(old(trucks)[id - 1])), Some(TruckToDict(r.value)))]
      ensures r.None? ==> trucks == old(trucks) && auditLog == old(auditLog)
      ensures aggregateTypes == old(aggregateTypes) && deliveryLocations == old(deliveryLocations) &&
              tickets == old(tickets)
    {
      // the query by id: with sequential ids the row sits at `id - 1` (FindTruckByPosition)
      if !(1 <= id <= |trucks|) {
        return None;
      }
      var before := trucks[id - 1];
      var oldValues := TruckToDict(before);
      var t := SetTruckAttributes(before, changes);
      if exists k :: 0 <= k < |trucks| && k != id - 1 && TruckClashes(t, trucks[k]) {
        return None;
      }
      var stored := if t == before then t else t.(updatedAt := now);
      TruckUpdateKeepsInvariant(trucks, id, changes, now);
      trucks := trucks[id - 1 := stored];
      var _ := AddAuditLogEntry("Trucks", id, Update, None, Some(oldValues), Some(TruckToDict(stored)), now);
      r := Some(stored);
    }

    /** Writes a reference table that still meets its constraints and has lost no row
        a ticket may refer to. */
    method StoreNamed(c: Catalogue, rows: seq<NamedRecord>)
      requires Valid() && NamedTable(rows) && |rows| >= |Table(c)|
      modifies this
      ensures Valid()
      ensures Table(c) == rows
      ensures trucks == old(trucks) && tickets == old(tickets) && auditLog == old(auditLog)
      ensures c.Aggregates? ==> deliveryLocations == old(deliveryLocations)
      ensures c.Locations? ==> aggregateTypes == old(aggregateTypes)
    {
      if c.Aggregates? {
        TicketTableGrows(tickets, |trucks|, |aggregateTypes|, |deliveryLocations|, |trucks|, |rows|,
                         |deliveryLocations|, enforceForeignKeys);
        aggregateTypes := rows;
      } else {
        TicketTableGrows(tickets, |trucks|, |aggregateTypes|, |deliveryLocations|, |trucks|, |aggregateTypes|,
                         |rows|, enforceForeignKeys);
        deliveryLocations := rows;
      }
    }

    /** The shared body of `add_aggregate_type` and `add_delivery_location`. */
    method AddNamed(c: Catalogue, name: string, note: Option<string>, now: Timestamp) returns (r: Option<NamedRecord>)
      requires Valid()
      modifies this
      ensures Valid()
      ensures r == NamedInsert(old(Table(c)), name, note, now)
      ensures r.Some? ==> Table(c) == old(Table(c)) + [r.value]
      ensures r.Some? ==>
        auditLog == old(auditLog) + [AuditEntry(|old(auditLog)| + 1, TableName(c), r.value.id, Insert, None, now,
                                                None, Some(NamedToDict(c, r.value)))]
      ensures r.None? ==> Table(c) == old(Table(c)) && auditLog == old(auditLog)
      ensures trucks == old(trucks) && tickets == old(tickets)
      ensures c.Aggregates? ==> deliveryLocations == old(deliveryLocations)
      ensures c.Locations? ==> aggregateTypes == old(aggregateTypes)
    {
      var rs := Table(c);
      if name == "" {
        return None;
      }
      if exists k :: 0 <= k < |rs| && rs[k].name == name {
        return None;
      }
      var row := NamedRecord(|rs| + 1, name, if note == Some("") then None else note, now, now);
      assert NamedInsert(rs, name, note, now) == Some(row);
      NamedInsertKeepsInvariant(rs, name, note, now);
      StoreNamed(c, rs + [row]);
      var _ := AddAuditLogEntry(TableName(c), row.id, Insert, None, None, Some(NamedToDict(c, row)), now);
      r := Some(row);
    }

    /** `add_aggregate_type`. */
    method AddAggregateType(name: string, description: Option<string>, now: Timestamp) returns (r: Option<NamedRecord>)
      requires Valid()
      modifies this
      ensures Valid()
      ensures r == NamedInsert(old(aggregateTypes), name, description, now)
      ensures r.Some? ==> aggregateTypes == old(aggregateTypes) + [r.value]
      ensures r.Some? ==>
        auditLog == old(auditLog) + [AuditEntry(|old(auditLog)| + 1, "AggregateTypes", r.value.id, Insert, None, now,
                                                None, Some(NamedToDict(Aggregates, r.value)))]
      ensures r.None? ==> aggregateTypes == old(aggregateTypes) && auditLog == old(auditLog)
      ensures trucks == old(trucks) && deliveryLocations == old(deliveryLocations) && tickets == old(tickets)
    {
      r := AddNamed(Aggregates, name, description, now);
    }

    /** `add_delivery_location`. */
    method AddDeliveryLocation(name: string, address: Option<string>, now: Timestamp) returns (r: Option<NamedRecord>)
      requires Valid()
      modifies this
      ensures Valid()
      ensures r == NamedInsert(old(deliveryLocations), name, address, now)
      ensures r.Some? ==> deliveryLocations == old(deliveryLocations) + [r.value]
      ensures r.Some? ==>
        auditLog == old(auditLog) + [AuditEntry(|old(auditLog)| + 1, "DeliveryLocations", r.value.id, Insert, None, now,
                                                None, Some(NamedToDict(Locations, r.value)))]
      ensures r.None? ==> deliveryLocations == old(deliveryLocations) && auditLog == old(auditLog)
      ensures trucks == old(trucks) && aggregateTypes == old(aggregateTypes) && tickets == old(tickets)
    {
      r := AddNamed(Locations, name, address, now);
    }

    /** The shared body of `update_aggregate_type` and `update_delivery_location`. */
    method UpdateNamed(c: Catalogue, id: int, kwargs: seq<(string, Option<string>)>, now: Timestamp)
      returns (r: Option<NamedRecord>)
      requires Valid()
      modifies this
      ensures Valid()
      ensures r == NamedUpdate(c, old(Table(c)), id, kwargs, now)
      ensures r.Some? ==> Table(c) == old(Table(c))[id - 1 := r.value]
      ensures r.Some? ==>
        auditLog == old(auditLog) + [AuditEntry(|old(auditLog)| + 1, TableName(c), id, Update, None, now,
                                                Some(NamedToDict(c, old(Table(c))[id - 1])),
                                                Some(NamedToDict(c, r.value)))]
      ensures r.None? ==> Table(c) == old(Table(c)) && auditLog == old(auditLog)
      ensures trucks == old(trucks) && tickets == old(tickets)
      ensures c.Aggregates? ==> deliveryLocations == old(deliveryLocations)
      ensures c.Locations? ==> aggregateTypes == old(aggregateTypes)
    {
      var rs := Table(c);
      if !(1 <= id <= |rs|) {
        return None;
      }
      var before := rs[id - 1];
      var oldValues := NamedToDict(c, before);
      var d := SetNamedAttributes(c, DraftOf(before), kwargs);
      if d.name.None? {
        return None;
      }
      if exists k :: 0 <= k < |rs| && k != id - 1 && rs[k].name == d.name.value {
        return None;
      }
      var edited := before.(name := d.name.value, note := d.note);
      var stored := if edited == before then edited else edited.(updatedAt := now);
      NamedUpdateKeepsInvariant(c, rs, id, kwargs, now);
      StoreNamed(c, rs[id - 1 := stored]);
      var _ := AddAuditLogEntry(TableName(c), id, Update, None, Some(oldValues), Some(NamedToDict(c, stored)), now);
      r := Some(stored);
    }

    /** `update_aggregate_type`. */
    method UpdateAggregateType(id: int, kwargs: seq<(string, Option<string>)>, now: Timestamp)
      returns (r: Option<NamedRecord>)
      requires Valid()
      modifies this
      ensures Valid()
      ensures r == NamedUpdate(Aggregates, old(aggregateTypes), id, kwargs, now)
      ensures r.Some? ==> aggregateTypes == old(aggregateTypes)[id - 1 := r.value]
      ensures r.Some? ==>
        auditLog == old(auditLog) + [AuditEntry(|old(auditLog)| + 1, "AggregateTypes", id, Update, None, now,
                                                Some(NamedToDict(Aggregates, old(aggregateTypes)[id - 1])),
                                                Some(NamedToDict(Aggregates, r.value)))]
      ensures r.None? ==> aggregateTypes == old(aggregateTypes) && auditLog == old(auditLog)
      ensures trucks == old(trucks) && deliveryLocations == old(deliveryLocations) && tickets == old(tickets)
    {
      r := UpdateNamed(Aggregates, id, kwargs, now);
    }

    /** `update_delivery_location`. */
    method UpdateDeliveryLocation(id: int, kwargs: seq<(string, Option<string>)>, now: Timestamp)
      returns (r: Option<NamedRecord>)
      requires Valid()
      modifies this
      ensures Valid()
      ensures r == NamedUpdate(Locations, old(deliveryLocations), id, kwargs, now)
      ensures r.Some? ==> deliveryLocations == old(deliveryLocations)[id - 1 := r.value]
      ensures r.Some? ==>
        auditLog == old(auditLog) + [AuditEntry(|old(auditLog)| + 1, "DeliveryLocations", id, Update, None, now,
                                                Some(NamedToDict(Locations, old(deliveryLocations)[id - 1])),
                                                Some(NamedToDict(Locations, r.value)))]
      ensures r.None? ==> deliveryLocations == old(deliveryLocations) && auditLog == old(auditLog)
      ensures trucks == old(trucks) && aggregateTypes == old(aggregateTypes) && tickets == old(tickets)
    {
      r := UpdateNamed(Locations, id, kwargs, now);
    }

    /** `add_weight_ticket`: in one commit, marks the truck used now and stores the
        ticket; no audit entry is written here. On failure nothing changes. */
    method AddWeightTicket(truckId: int, aggregateTypeId: int, deliveryLocationId: int, gross: real,
                           tare: real, net: real, operatorName: Option<string>, ticketPrinted: bool,
                           now: Timestamp) returns (r: Option<WeightTicket>)
      requires Valid()
      modifies this
      ensures Valid()
      ensures r == TicketInsert(old(trucks), old(aggregateTypes), old(deliveryLocations), |old(tickets)|,
                                enforceForeignKeys, truckId, aggregateTypeId, deliveryLocationId, gross, tare,
                                net, operatorName, ticketPrinted, now)
      ensures r.Some? ==> tickets == old(tickets) + [r.value]
      ensures r.Some? ==> trucks == MarkTruckUsed(old(trucks), truckId, now)
      ensures r.None? ==> tickets == old(tickets) && trucks == old(trucks)
      ensures aggregateTypes == old(aggregateTypes) && deliveryLocations == old(deliveryLocations) &&
              auditLog == old(auditLog)
    {
      // the queries by id: with sequential ids a row sits at its id minus one
      if !(1 <= truckId <= |trucks|) {
        return None;
      }
      if enforceForeignKeys &&
         !(1 <= aggregateTypeId <= |aggregateTypes| && 1 <= deliveryLocationId <= |deliveryLocations|) {
        return None;
      }
      var truck := trucks[truckId - 1];
      var used := truck.(lastUsed := Some(now));
      if used != truck {
        used := used.(updatedAt := now);
      }
      var ticket := WeightTicket(|tickets| + 1, truckId, aggregateTypeId, deliveryLocationId, gross, tare, net,
                                 now, if operatorName == Some("") then None else operatorName, ticketPrinted);
      MarkUsedKeepsUnique(trucks, truckId - 1, now);
      TicketAppendKeepsTable(tickets, ticket, |trucks|, |aggregateTypes|, |deliveryLocations|, enforceForeignKeys);
      trucks := trucks[truckId - 1 := used];
      tickets := tickets + [ticket];
      r := Some(ticket);
    }
  }

  /** The audit table name of a catalogue. */
  function TableName(c: Catalogue): (r: string) {
    match c
    case Aggregates => "AggregateTypes"
    case Locations => "DeliveryLocations"
  }

  /** References stay valid when the referenced tables grow. */
  lemma TicketTableGrows(ws: seq<WeightTicket>, t: nat, a: nat, l: nat, t': nat, a': nat, l': nat, e: bool)
    requires TicketTable(ws, t, a, l, e) && t <= t' && a <= a' && l <= l'
    ensures TicketTable(ws, t', a', l', e)
  {
  }

  /** A ticket with the next id and valid references keeps the ticket table valid. */
  lemma TicketAppendKeepsTable(ws: seq<WeightTicket>, w: WeightTicket, t: nat, a: nat, l: nat, e: bool)
    requires TicketTable(ws, t, a, l, e) && w.id == |ws| + 1 && 1 <= w.truckId <= t
    requires e ==> 1 <= w.aggregateTypeId <= a && 1 <= w.deliveryLocationId <= l
    ensures TicketTable(ws + [w], t, a, l, e)
  {
  }

  /** Marking a truck used changes no unique column. */
  lemma MarkUsedKeepsUnique(ts: seq<Truck>, pos: int, now: Timestamp)
    requires 0 <= pos < |ts| && TruckTable(ts)
    ensures TruckTable(ts[pos := MarkUsed(ts[pos], now)])
  {
    var s := ts[pos := MarkUsed(ts[pos], now)];
    forall i, j | 0 <= i < |s| && 0 <= j < |s| && i != j ensures !TruckClashes(s[i], s[j]) {
      assert !TruckClashes(ts[i], ts[j]);
    }
  }
}
