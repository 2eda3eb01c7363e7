# Weighbridge model

A Dafny model of the core of a small weighbridge application: trucks drive onto a
scale, the operator picks the truck, the material and the destination, captures the
gross weight from the scale and saves a weight ticket into a ledger of trucks,
aggregate types, delivery locations, tickets and an audit trail.

The project follows the program's structure, one module per source file plus shared
helpers:

| module | file | models |
|---|---|---|
| `ScaleEmulator` | `scale_emulator.dfy` | the software scale: a counter-driven load / settle / reset trend, bounded noise, the clamp at zero and the line `ST,GS,<weight>kg\r\n` |
| `SerialReader` | `serial_reader.dfy` | the line decoder (`re.search` for sign, digits, point, digits, then `float`) and the `ScaleReader` connection state machine |
| `Models` | `models.dfy` | the five record types, their unique columns and their `to_dict` snapshots |
| `Database` | `database.dfy` | the ledger as a class holding one sequence per table: inserts and updates with their uniqueness rules and rollback, empty-text normalisation, the audit trail, the compound ticket insert and the ordered queries and search |
| `WeighingWindow` | `weighing_window.dfy` | the weighing form's state and handlers: truck list and selection, live reading, capture, the net read-out and the checks and store calls of a ticket save |
| `TruckAddWindow` | `truck_add_window.dfy` | the add/edit truck form: its validation chain and the add-or-update dispatch |
| `Text`, `FloatText` | `text.dfy`, `float_text.dfy` | Python's `str.strip()`, SQLite's ASCII `lower()` and BINARY collation, substring search, `str(int)`, the plain-decimal part of `float()` and `format(x, '.2f')` |
| `Sorting` | `sorting.dfy` | `ORDER BY` as a stable insertion sort and `WHERE` as a filter |
| `Wrappers` | `wrappers.dfy` | `Option` and `Result` |

Conventions:

- Weights on the wire and inside the emulator are integer hundredths of a kilogram,
  which is what the line carries. Weights the decoder returns and weights in the
  ledger and the forms are exact `real` numbers. Binary floating point is not
  modelled.
- The clock (`datetime.utcnow()`) is a `Timestamp` parameter `now`. The random noise
  and the random reset base of the emulator are parameters with their bounds. The
  serial port is an oracle: whether opening it succeeds, and what one `readline`
  gave.
- Message boxes become outcome values (`SaveOutcome`, `FormOutcome`). The over-max
  question (`askyesno`) is a boolean answer. Closing the truck form is the field
  `closed`.
- Row ids are 1, 2, 3, ...: rows are never deleted and a rolled-back insert leaves
  nothing, so a row's id is its position plus one.
- An `IntegrityError` is an error outcome: the operation returns `None` and no table
  changes. Whether the engine checks a ticket's aggregate and location foreign keys is
  the ledger constant `enforceForeignKeys`. The ticket's truck is always looked up.
- SQLAlchemy's `onupdate` is modelled as: a row whose columns changed gets
  `updated_at := now`. A row whose columns did not change is not written and keeps its
  stamp.

Where the source comments disagree with the code, the model follows the code:

- `format(w, '0=+10.2f')` pads to ten characters. So 123.45 kg is `+000123.45`, one
  zero more than the example line in the comments (`scale_project/app/scale_reader/scale_emulator.py:33`,
  `scale_project/app/scale_reader/serial_reader.py:51`).
- A saved ticket gets exactly one audit entry: the weighing form writes it
  (`scale_project/app/ui/weighing_window.py:242-246`), and `add_weight_ticket` writes
  none (`scale_project/app/db/database.py:215`).
- In `update_aggregate_type` and `update_delivery_location` every falsy value becomes
  NULL, the name included. A name set to `''` therefore violates NOT NULL and the
  update fails.

## Model

| member | source | states |
|---|---|---|
| `Models.ActionName` | scale_project/app/db/models.py:112 | the audit action is written as `INSERT` or `UPDATE`, and `INSERT` exactly for an insert |
| `Models.TruckClashesSymmetric` | scale_project/app/db/models.py:12-14 | two trucks clash (same unit id, or same present ASGA id) regardless of which is named first |
| `Models.TruckToDict` | scale_project/app/db/models.py:23-34 | a truck snapshot has exactly the nine column keys; the ASGA id and the last use are null exactly when unset |
| `Models.NamedToDict` | scale_project/app/db/models.py:47-54 | an aggregate-type or delivery-location snapshot has exactly its five keys (`description` or `address` for the note), the note null exactly when absent |
| `Models.TicketToDict` | scale_project/app/db/models.py:92-104 | a ticket snapshot has exactly the ten column keys, the operator null exactly when absent |
| `Models.TruckDictRoundTrip` | scale_project/app/db/models.py:23-34 | a truck can be read back from its snapshot, so the snapshot loses nothing |
| `Models.NamedDictRoundTrip` | scale_project/app/db/models.py:66-73 | a reference row can be read back from its snapshot |
| `Models.TicketDictRoundTrip` | scale_project/app/db/models.py:92-104 | a ticket can be read back from its snapshot |
| `Models.TruckToDictInjective` | scale_project/app/db/models.py:23-34 | trucks with equal snapshots are equal |
| `Text.TrimStart` | scale_project/app/ui/truck_add_window.py:75 | the result is a suffix of the text, everything removed is whitespace, and it does not start with whitespace |
| `Text.TrimEnd` | scale_project/app/ui/truck_add_window.py:75 | the result is a prefix of the text, everything removed is whitespace, and it does not end with whitespace |
| `Text.Strip` | scale_project/app/ui/truck_add_window.py:75-79 | `str.strip()`: a contiguous part of the text with only whitespace around it, neither starting nor ending with whitespace |
| `Text.StripEmptyIff` | scale_project/app/ui/truck_add_window.py:81-84 | a stripped entry is empty exactly when the entry is all whitespace |
| `Text.StripIdempotent` | scale_project/app/ui/truck_add_window.py:75-79 | stripping twice is stripping once |
| `Text.StripUnpadded` | scale_project/app/ui/weighing_window.py:228 | a text that neither starts nor ends with whitespace is its own strip |
| `Text.LowerChar` | scale_project/app/db/database.py:110 | SQLite's ASCII case folding of a column: `A`-`Z` move to `a`-`z`, every other character is kept |
| `Text.Lower` | scale_project/app/db/database.py:110 | `lower()` keeps the length and folds each character |
| `Text.PyLowerChar` | scale_project/app/db/database.py:103 | Python's `str.lower()` on one character agrees with the ASCII folding below 128 and never leaves an ASCII capital |
| `Text.PyLower` | scale_project/app/db/database.py:103 | `term.lower()` keeps the length and lowers each character |
| `Text.LowerOfPyLower` | scale_project/app/db/database.py:103-110 | SQLite's `lower()` of a term Python already lowered changes nothing |
| `Text.ContainsIff` | scale_project/app/db/database.py:103-110 | `LIKE '%term%'` holds exactly when the term occurs at some position of the text |
| `Text.LexLeTotal` | scale_project/app/db/database.py:97 | the text order used by `ORDER BY` compares any two texts |
| `Text.LexLeTransitive` | scale_project/app/db/database.py:97 | the text order is transitive |
| `Text.LexLeAntisymmetric` | scale_project/app/db/database.py:152 | texts ordered both ways are equal |
| `Text.NatToDigits` | scale_project/app/ui/weighing_window.py:128 | `str(n)`: a digit run denoting `n` without a leading zero |
| `Text.LeadingZerosValue` | scale_project/app/scale_reader/scale_emulator.py:44 | zero padding does not change the value of a digit run |
| `Text.ZerosValue` | scale_project/app/scale_reader/scale_emulator.py:44 | a run of zeros denotes zero |
| `FloatText.DecimalValue` | scale_project/app/scale_reader/serial_reader.py:56 | the value of a decimal literal has the literal's sign |
| `FloatText.CentsValue` | scale_project/app/scale_reader/scale_emulator.py:44 | the whole part and two decimals of `h` hundredths, with the sign of `h`, denote `h / 100` |
| `FloatText.IntegerDigits` | scale_project/app/scale_reader/scale_emulator.py:44 | the digits before the point denote the whole kilograms |
| `FloatText.CentDigits` | scale_project/app/scale_reader/scale_emulator.py:44 | exactly two digits after the point, denoting the hundredths |
| `FloatText.FixedPoint2` | scale_project/app/scale_reader/scale_emulator.py:44 | a `.2f` magnitude has at least one digit, a point, and two digits after it |
| `FloatText.RoundCents` | scale_project/app/ui/weighing_window.py:178 | `.2f` rounding: within half a hundredth of the value, with the value's sign |
| `FloatText.FormatFixed2Shape` | scale_project/app/ui/weighing_window.py:178 | `format(x, '.2f')` has at least one digit before the point and two after |
| `FloatText.ScanUnsignedShape` | scale_project/app/ui/truck_add_window.py:87 | an unsigned literal `float()` accepts is non-empty, non-negative and made of digits and the point |
| `FloatText.ScanFloatShape` | scale_project/app/ui/truck_add_window.py:87 | `float()` accepts only a text whose stripped form is a non-empty run of digits, signs and points |
| `FloatText.ParseFloatIgnoresSpace` | scale_project/app/ui/truck_add_window.py:78-79 | whitespace around the text does not change what `float()` reads |
| `FloatText.ParseFloatRejectsBlank` | scale_project/app/ui/weighing_window.py:211 | an empty or all-whitespace text is not a number (`ValueError`) |
| `FloatText.ScanFloatLiteral` | scale_project/app/scale_reader/serial_reader.py:56 | `float()` reads `[-]digits.digits` as the literal it denotes |
| `FloatText.LiteralUnpadded` | scale_project/app/scale_reader/serial_reader.py:56 | a decimal literal is unchanged by stripping |
| `FloatText.ParseFormatFixed2` | scale_project/app/ui/weighing_window.py:178 | what `.2f` writes, `float()` reads back as the value rounded to hundredths |
| `FloatText.ParseSignedCents` | scale_project/app/ui/weighing_window.py:189 | a signed two-decimal text of `c` hundredths reads back as `c / 100` |
| `Sorting.InsertPermutation` | scale_project/app/db/database.py:96-98 | inserting adds exactly the one row |
| `Sorting.InsertSorted` | scale_project/app/db/database.py:96-98 | inserting into a sorted list by a total, transitive order keeps it sorted |
| `Sorting.SortPermutation` | scale_project/app/db/database.py:96-98 | `ORDER BY` returns every row once |
| `Sorting.SortSorted` | scale_project/app/db/database.py:96-98 | `ORDER BY` returns the rows in the order |
| `Sorting.SortedUnique` | scale_project/app/db/database.py:96-98 | two sorted arrangements of the same rows are equal when the order separates distinct rows |
| `Sorting.Filter` | scale_project/app/db/database.py:105-106 | `WHERE`: the kept rows are exactly the rows satisfying the condition |
| `Sorting.FilterCount` | scale_project/app/db/database.py:105-106 | a row is kept as often as it occurs when it satisfies the condition, otherwise never |
| `Sorting.FilterPermutation` | scale_project/app/db/database.py:105-106 | filtering two arrangements of the same rows keeps the same rows |
| `Sorting.FilterSorted` | scale_project/app/db/database.py:105-107 | filtering keeps the rows in order |
| `ScaleEmulator.WeightField` | scale_project/app/scale_reader/scale_emulator.py:44 | `0=+10.2f` is ten characters wide, longer only when the number needs it |
| `ScaleEmulator.CounterStaysInCycle` | scale_project/app/scale_reader/scale_emulator.py:18-26 | from a counter in [0, 70], every run of readings keeps it in [0, 70], and in [1, 70] after at least one |
| `ScaleEmulator.LoadingPhase` | scale_project/app/scale_reader/scale_emulator.py:18-19 | from a fresh cycle the first 50 readings each add one step |
| `ScaleEmulator.SettlingPhase` | scale_project/app/scale_reader/scale_emulator.py:20-21 | readings 51 to 70 each take off half a step |
| `ScaleEmulator.FullCycle` | scale_project/app/scale_reader/scale_emulator.py:22-26 | 70 readings end 40 steps up; the 71st restarts from the reset base with the counter at 1 |
| `ScaleEmulator.Emitted` | scale_project/app/scale_reader/scale_emulator.py:28-31 | the emitted weight is the weight plus the noise, or zero when that is negative |
| `ScaleEmulator.EmittedSignIsPlus` | scale_project/app/scale_reader/scale_emulator.py:30-44 | because of the clamp every emitted line carries a `+` sign |
| `ScaleEmulator.Emulator.constructor` | scale_project/app/scale_reader/scale_emulator.py:5-9 | the weight, noise bound and step as given, the counter at zero |
| `ScaleEmulator.Emulator.GetSimulatedReading` | scale_project/app/scale_reader/scale_emulator.py:11-44 | the trend state advances one step (load, settle or reset), the counter ends in [1, 70], the stored weight carries no noise, and the line encodes the clamped weight plus noise |
| `SerialReader.DigitRunEnd` | scale_project/app/scale_reader/serial_reader.py:53 | `\d+` taken greedily: the end of the maximal digit run |
| `SerialReader.FirstMatch` | scale_project/app/scale_reader/serial_reader.py:53 | `re.search` scans left to right: the first position where a match starts, with none before it, or none at all |
| `SerialReader.MatchesAtIff` | scale_project/app/scale_reader/serial_reader.py:53 | the scanner's match test agrees with the regular expression `[+-]\d+\.\d+`, and the match it finds is the greedy one |
| `SerialReader.RunEndsAtPoint` | scale_project/app/scale_reader/serial_reader.py:53 | a digit run followed by a non-digit ends where the scanner stops |
| `SerialReader.ParseNoneIff` | scale_project/app/scale_reader/serial_reader.py:53-63 | the decoder gives `None` exactly when no substring has the form sign, digits, point, digits (so for `123.45`, `+12` and the empty line) |
| `SerialReader.ParseIsLeftmostMatch` | scale_project/app/scale_reader/serial_reader.py:53-57 | the decoder returns the value of the leftmost greedy match |
| `SerialReader.NoScanMatchBefore` | scale_project/app/scale_reader/serial_reader.py:53 | where the regular expression has no match, the scanner finds none |
| `SerialReader.FirstMatchAt` | scale_project/app/scale_reader/serial_reader.py:53 | the first match is the one with none before it |
| `SerialReader.ScanIsLeftmost` | scale_project/app/scale_reader/serial_reader.py:53 | where the scanner stops, the regular expression has its leftmost greedy match |
| `SerialReader.DecodeFramed` | scale_project/app/scale_reader/serial_reader.py:53-57 | text without signs, then `sign digits . digits`, then text not starting with a digit, decodes to the number in the middle |
| `SerialReader.DecodeFramedField` | scale_project/app/scale_reader/serial_reader.py:53-57 | the emulator's weight field inside such a frame decodes to its sign, whole part and two decimals |
| `SerialReader.DecodeEncodedLine` | scale_project/app/scale_reader/serial_reader.py:50-57 | round trip with the emulator: the line for `h` hundredths decodes to exactly `h / 100` |
| `SerialReader.FrameHasNoSign` | scale_project/app/scale_reader/serial_reader.py:51 | the line prefix holds no sign and the suffix does not start with a digit |
| `SerialReader.ParseIgnoresSurroundingSpace` | scale_project/app/scale_reader/serial_reader.py:81-84 | stripping the line before decoding does not change the result |
| `SerialReader.ScanIgnoresSpaceWindow` | scale_project/app/scale_reader/serial_reader.py:81 | a text framed by whitespace scans like the text itself |
| `SerialReader.MatchInWindow` | scale_project/app/scale_reader/serial_reader.py:81 | every match lies inside the whitespace frame |
| `SerialReader.LineWeight` | scale_project/app/scale_reader/serial_reader.py:80-91 | a read error gives `None`; a received line gives the decoder's result (an empty stripped line decodes to `None`) |
| `SerialReader.ScaleReader.Init` | scale_project/app/scale_reader/serial_reader.py:7-17 | no handle; in emulator mode a fresh emulator with the default weight, noise and step |
| `SerialReader.ScaleReader.Create` | scale_project/app/scale_reader/serial_reader.py:15-19 | construction fails exactly when there is neither the emulator nor a port |
| `SerialReader.ScaleReader.Connect` | scale_project/app/scale_reader/serial_reader.py:21-37 | the emulator always connects; an open port is kept; otherwise one open attempt, whose failure leaves no handle and returns false |
| `SerialReader.ScaleReader.Disconnect` | scale_project/app/scale_reader/serial_reader.py:39-48 | an open port is closed; anything else is left as it is |
| `SerialReader.ScaleReader.DecodeEmulatorLine` | scale_project/app/scale_reader/serial_reader.py:66-70 | an emulator line for `h` hundredths decodes to `h / 100` |
| `SerialReader.ScaleReader.ReadWeight` | scale_project/app/scale_reader/serial_reader.py:65-91 | emulator mode: one simulated reading, decoded to the clamped weight; a port that is not open gets exactly one connection attempt and `None` on failure; then one read decoded after stripping; no error escapes |
| `Database.OptionalText` | scale_project/app/db/database.py:52 | `value if value else None`: absent exactly for an absent or empty text, otherwise the text |
| `Database.FindTruck` | scale_project/app/db/database.py:113-115 | `get_truck_by_id`: a stored truck with that id, or none when no truck has it |
| `Database.FindNamed` | scale_project/app/db/database.py:132 | a stored row with that id, or none when no row has it |
| `Database.FindTruckByPosition` | scale_project/app/db/database.py:113-115 | with sequential ids the truck with id `id` is at position `id - 1`, and ids out of range find nothing |
| `Database.FindNamedByPosition` | scale_project/app/db/database.py:170 | the same for reference rows |
| `Database.TruckLeTotal` | scale_project/app/db/database.py:96-98 | the truck order compares any two trucks |
| `Database.TruckLeTransitive` | scale_project/app/db/database.py:96-98 | the truck order is transitive |
| `Database.TruckLeTransitiveAt` | scale_project/app/db/database.py:96-98 | the truck order is transitive at three given trucks |
| `Database.TruckLeBothWays` | scale_project/app/db/database.py:96-98 | trucks ordered both ways agree on last use, company name and unit id |
| `Database.TruckLeAntisymmetric` | scale_project/app/db/database.py:96-98 | unit ids are unique, so the order separates any two trucks of a table |
| `Database.MruOrderedListing` | scale_project/app/db/database.py:94-98 | `get_all_trucks_mru_ordered` returns every truck once, in the truck order |
| `Database.MruOrderedUnique` | scale_project/app/db/database.py:94-98 | the listing is determined: any arrangement of the trucks in the truck order is the listing |
| `Database.MruRecentFirst` | scale_project/app/db/database.py:96-97 | a used truck never follows a never-used one, later use comes first, equal last use is ordered by company name |
| `Database.SearchTrucksListing` | scale_project/app/db/database.py:101-111 | a search lists exactly the trucks whose ASCII-lowered unit id, company name or present ASGA id contains the Python-lowered term (every truck for an empty term), in the truck order |
| `Database.NonAsciiCapitalMissed` | scale_project/app/db/database.py:103-111 | the term is lowered beyond ASCII but the column is not: `Öz` and `öz` both miss `Öztürk`, while `ÖZ` finds `öztürk` |
| `Database.SearchIsFilteredListing` | scale_project/app/db/database.py:105-111 | the search result is the ordered listing filtered by the match |
| `Database.NamesOrderedListing` | scale_project/app/db/database.py:151-153 | the reference listings return every row once, by name |
| `Database.NamesOrderedUnique` | scale_project/app/db/database.py:189-191 | with unique names the listing by name is determined |
| `Database.TruckInsertOutcome` | scale_project/app/db/database.py:46-58 | `add_truck` fails exactly for an empty unit id or company name, a taken unit id, or a taken non-empty ASGA id; a stored row has the next id, the given values, an empty ASGA id as absent, both stamps now and no last use |
| `Database.TruckInsertKeepsInvariant` | scale_project/app/db/database.py:46-58 | a stored truck keeps ids sequential and unique columns unique |
| `Database.ChangesKeepIdentity` | scale_project/app/db/database.py:70-77 | the keyword loop never touches the id, the stamps or the last use |
| `Database.NonAttributesIgnored` | scale_project/app/db/database.py:70-77 | keywords that are not truck attributes have no effect |
| `Database.ChangesAppend` | scale_project/app/db/database.py:70-77 | keywords are applied in the order given |
| `Database.SetTruckAttributes` | scale_project/app/db/database.py:70-77 | the loop applies each keyword in order, an empty ASGA id as absent |
| `Database.TruckUpdateOutcome` | scale_project/app/db/database.py:62-91 | `update_truck` fails exactly for an unknown id or a clash with another truck; a stored update keeps id, creation time and last use, carries the changed columns, and refreshes `updated_at` exactly when a column changed |
| `Database.TruckUpdateKeepsInvariant` | scale_project/app/db/database.py:80-89 | a stored update keeps ids sequential and unique columns unique |
| `Database.NamedInsertKeepsInvariant` | scale_project/app/db/database.py:118-126 | a stored reference row keeps ids sequential and names present and unique |
| `Database.SetNamedAttributes` | scale_project/app/db/database.py:137-140 | the loop sets `name` or the note for each such keyword in order, every falsy value as NULL; a key that is not an attribute leaves the row as it is |
| `Database.KwargsNeverEmptyName` | scale_project/app/db/database.py:139 | the keyword loop never stores an empty name |
| `Database.EmptyNameRejected` | scale_project/app/db/database.py:130-147 | setting the name to `''` makes the update fail |
| `Database.NamedUpdateKeepsInvariant` | scale_project/app/db/database.py:130-149 | a stored reference update keeps its id, ids sequential and names present and unique |
| `Database.MarkUsed` | scale_project/app/db/database.py:204 | a weighed truck is last used now, with its id, unit id and ASGA id kept and `updated_at` refreshed when it changed |
| `Database.MarkUsedKeepsUnique` | scale_project/app/db/database.py:204-205 | marking a truck used keeps the truck table's constraints |
| `Database.TicketInsertOutcome` | scale_project/app/db/database.py:195-220 | `add_weight_ticket` fails exactly for an unknown truck or, where enforced, an unknown aggregate type or location; a stored ticket has the next id and the given weights and time, the operator absent exactly when absent or empty |
| `Database.TicketTableGrows` | scale_project/app/db/models.py:78-80 | ticket references stay valid when the referenced tables grow |
| `Database.TicketAppendKeepsTable` | scale_project/app/db/models.py:78-80 | a ticket with the next id and valid references keeps the ticket table valid |
| `Database.Ledger.constructor` | scale_project/app/db/models.py:9-116 | every table empty, the constraints hold |
| `Database.Ledger.AddAuditLogEntry` | scale_project/app/db/database.py:223-249 | appends exactly one entry with the next id and the given fields, an empty `changed_by` as absent; no other table changes |
| `Database.Ledger.AddTruck` | scale_project/app/db/database.py:46-60 | stores the insert's row and one INSERT entry with its snapshot and no old values, or changes nothing; the constraints are kept |
| `Database.Ledger.UpdateTruck` | scale_project/app/db/database.py:62-91 | stores the updated row and one UPDATE entry with the snapshots before and after, or changes nothing; the constraints are kept |
| `Database.Ledger.StoreNamed` | scale_project/app/db/database.py:122 | writes one reference table that meets its constraints; the other tables are kept |
| `Database.Ledger.AddNamed` | scale_project/app/db/database.py:118-128 | stores the insert's reference row and one INSERT entry, or changes nothing |
| `Database.Ledger.AddAggregateType` | scale_project/app/db/database.py:118-128 | `add_aggregate_type`: the row and one INSERT entry for `AggregateTypes`, or no change |
| `Database.Ledger.AddDeliveryLocation` | scale_project/app/db/database.py:156-166 | `add_delivery_location`: the row and one INSERT entry for `DeliveryLocations`, or no change |
| `Database.Ledger.UpdateNamed` | scale_project/app/db/database.py:130-149 | stores the updated reference row and one UPDATE entry with both snapshots, or changes nothing |
| `Database.Ledger.UpdateAggregateType` | scale_project/app/db/database.py:130-149 | `update_aggregate_type`: the row and one UPDATE entry, or no change |
| `Database.Ledger.UpdateDeliveryLocation` | scale_project/app/db/database.py:168-187 | `update_delivery_location`: the row and one UPDATE entry, or no change |
| `Database.Ledger.AddWeightTicket` | scale_project/app/db/database.py:195-220 | in one step the ticket is appended and its truck marked used now, with no audit entry; on failure neither changes |
| `WeighingWindow.DigitTailUnique` | scale_project/app/ui/weighing_window.py:128 | a key ending in `(digits)` determines the digits |
| `WeighingWindow.DigitTailNoLonger` | scale_project/app/ui/weighing_window.py:128 | of two equal texts ending in a bracketed digit run, the other text's run is no longer than this one's (`DigitTailUnique` applies it both ways for equal length) |
| `WeighingWindow.TruckKeyNamesId` | scale_project/app/ui/weighing_window.py:121 | equal keys of stored trucks have equal ids |
| `WeighingWindow.DistinctIdsDistinctKeys` | scale_project/app/ui/weighing_window.py:128 | trucks with different ids get different keys |
| `WeighingWindow.KeyedTrucksKeys` | scale_project/app/ui/weighing_window.py:128 | the map's keys are the listed trucks' keys, each naming a listed truck that carries it |
| `WeighingWindow.KeyedTrucksComplete` | scale_project/app/ui/weighing_window.py:128 | with distinct ids every listed truck is the entry under its key |
| `WeighingWindow.KeyListKeys` | scale_project/app/ui/weighing_window.py:129 | the choices are the map's keys, each once |
| `WeighingWindow.KeyListInOrder` | scale_project/app/ui/weighing_window.py:129 | with distinct ids the choices are the trucks' keys in list order |
| `WeighingWindow.ByName` | scale_project/app/ui/weighing_window.py:28-29 | the maps by name hold exactly the rows' names, each naming a row with that name |
| `WeighingWindow.CapturedNet` | scale_project/app/ui/weighing_window.py:175-196 | after capturing a reading the net is the reading rounded to hundredths less the tare, or the select-truck notice without a truck |
| `WeighingWindow.RoundCentsExact` | scale_project/app/ui/weighing_window.py:178 | a reading already at two decimals is captured exactly |
| `WeighingWindow.WeightLabelReadsBack` | scale_project/app/ui/weighing_window.py:170 | a weight label is a number and ` kg`, the number reading back as the weight rounded to hundredths |
| `WeighingWindow.CheckTicketOutcome` | scale_project/app/ui/weighing_window.py:200-226 | the checks pass exactly when a truck, an aggregate and a location are selected, the gross is a positive number not below the tare, and an over-max gross was confirmed; the draft carries the truck's tare and net = gross - tare, not negative |
| `WeighingWindow.ValidateTicketOutcome` | scale_project/app/ui/weighing_window.py:210-226 | the same on the typed gross, which must read as a number; a passing draft carries that number |
| `WeighingWindow.CheckTicketFirstFailure` | scale_project/app/ui/weighing_window.py:200-226 | each error is reported exactly when the checks before it passed and its own failed, the negative net with its value |
| `WeighingWindow.AnswerOnlyOverMax` | scale_project/app/ui/weighing_window.py:223-226 | the operator's answer matters only when the gross exceeds a positive maximum |
| `WeighingWindow.CapturedGrossStored` | scale_project/app/ui/weighing_window.py:211 | a captured reading of `h` hundredths is stored as exactly `h / 100` |
| `WeighingWindow.OperatorName` | scale_project/app/ui/weighing_window.py:228 | `strip() or None`: none exactly for an all-whitespace entry, otherwise the stripped entry |
| `WeighingWindow.RunInitFailsIff` | scale_project/app/ui/weighing_window.py:64-91 | building the window raises exactly when a truck load runs before the net label exists; once the label exists no step raises |
| `WeighingWindow.AsWrittenInitRaises` | scale_project/app/ui/weighing_window.py:64-91 | in the order of `__init__` as written, the initial load raises and the window is not built |
| `WeighingWindow.IntendedInitOpens` | scale_project/app/ui/weighing_window.py:64-91 | with the entries created before the load, the window opens with an empty gross entry and a net label showing no weight |
| `WeighingWindow.WeighingForm.constructor` | scale_project/app/ui/weighing_window.py:22-64 | built in the intended order: the reference maps by name from the ordered listings, the full ordered truck list, nothing selected, every entry empty |
| `WeighingWindow.WeighingForm.RecalculateNetWeight` | scale_project/app/ui/weighing_window.py:184-196 | the net read-out is no weight for an empty gross, invalid for a gross that is not a number, select-truck without a truck, else gross - tare; nothing else changes |
| `WeighingWindow.WeighingForm.ShowTrucks` | scale_project/app/ui/weighing_window.py:128-129 | the map and the choices of the given list; nothing else changes |
| `WeighingWindow.WeighingForm.RestoreSelection` | scale_project/app/ui/weighing_window.py:131-140 | the selection is kept when its key is still a choice, otherwise cleared with its tare |
| `WeighingWindow.WeighingForm.LoadTrucks` | scale_project/app/ui/weighing_window.py:117-142 | the given list or the ordered list; the selection survives exactly when its key is among the new choices; the net follows |
| `WeighingWindow.WeighingForm.PerformTruckSearch` | scale_project/app/ui/weighing_window.py:145-151 | the list becomes the search result for the stripped term (the ordered list when it is empty), with the selection rule of the reload |
| `WeighingWindow.WeighingForm.UpdateLiveWeight` | scale_project/app/ui/weighing_window.py:154-162 | the current reading becomes the latest reading or none; nothing else changes |
| `WeighingWindow.WeighingForm.OnTruckSelected` | scale_project/app/ui/weighing_window.py:165-173 | the selection is the truck under the chosen key, or none; tare and net follow |
| `WeighingWindow.WeighingForm.EnterGrossWeight` | scale_project/app/ui/weighing_window.py:83-86 | typing sets the gross entry and the net follows it |
| `WeighingWindow.WeighingForm.CaptureGrossWeight` | scale_project/app/ui/weighing_window.py:175-182 | the gross becomes the reading at two decimals; without a reading it is emptied and a warning shown |
| `WeighingWindow.WeighingForm.ClearForm` | scale_project/app/ui/weighing_window.py:262-273 | every entry, the selection and both read-outs cleared, the search kept unless asked to clear it |
| `WeighingWindow.WeighingForm.RecordTicket` | scale_project/app/ui/weighing_window.py:230-246 | the store's ticket insert with the draft's values and the operator, then exactly one INSERT entry for `WeightTickets` signed by the operator; a refused ticket changes nothing |
| `WeighingWindow.WeighingForm.CommitTicket` | scale_project/app/ui/weighing_window.py:228-260 | a stored ticket gives its id, marks the truck used, writes one audit entry, reloads the list with the current search and clears the form except the search; a refused ticket changes nothing |
| `WeighingWindow.WeighingForm.SaveTicket` | scale_project/app/ui/weighing_window.py:198-260 | a failed check is reported and changes nothing, with no store call; otherwise the outcome of committing the checked ticket |
| `TruckAddWindow.CheckFieldsOutcome` | scale_project/app/ui/truck_add_window.py:81-98 | the checks pass exactly when unit id and company name are non-empty, the tare is a positive number and the maximum a number above it; the passing values are the ones checked |
| `TruckAddWindow.CheckFieldsFirstFailure` | scale_project/app/ui/truck_add_window.py:81-98 | each message is shown exactly when the checks before it passed and its own failed |
| `TruckAddWindow.ValidateTruckFormOutcome` | scale_project/app/ui/truck_add_window.py:74-98 | on the typed entries: pass exactly when unit id and company name are not blank and the weights read as a positive tare below the maximum; the passing fields are the stripped texts and those numbers |
| `TruckAddWindow.ValidateTruckFormIgnoresSpace` | scale_project/app/ui/truck_add_window.py:75-79 | whitespace typed around an entry changes nothing |
| `TruckAddWindow.FormChangesSetEveryField` | scale_project/app/ui/truck_add_window.py:100-106 | the form's keywords set every column the form shows and nothing else, an empty ASGA id as absent |
| `TruckAddWindow.StoredMatchesFields` | scale_project/app/ui/truck_add_window.py:110-126 | a truck the ledger stores, added or edited, carries the checked values |
| `TruckAddWindow.SavedTruckMatchesForm` | scale_project/app/ui/truck_add_window.py:74-126 | a truck the form stores carries the stripped unit id and company name, the ASGA id or none when blank, and a positive tare below the maximum |
| `TruckAddWindow.TruckForm.constructor` | scale_project/app/ui/truck_add_window.py:7-17 | the edited truck's id is kept, and its unit id, company name and present ASGA id are filled in |
| `TruckAddWindow.TruckForm.EnterFields` | scale_project/app/ui/truck_add_window.py:75-79 | the five entries hold what was typed |
| `TruckAddWindow.TruckForm.Store` | scale_project/app/ui/truck_add_window.py:108-126 | `update_truck` with the form's keywords for an edit, `add_truck` otherwise; a stored truck replaces the edited row or is appended as the last row, with exactly one new audit entry (UPDATE with the old and new snapshots, or INSERT with the new one); a refusal changes nothing |
| `TruckAddWindow.TruckForm.Dispatch` | scale_project/app/ui/truck_add_window.py:108-137 | a rejection touches nothing; checked values go to the ledger, which on success holds the new truck table and the one new audit entry, and the form closes exactly when the ledger returns a truck |
| `TruckAddWindow.TruckForm.SaveTruck` | scale_project/app/ui/truck_add_window.py:74-137 | the checks on the current entries, then the dispatch: a rejection makes no store call; a stored truck gives the new truck table and its audit entry, and only then does the form close |

## Left out

- Binary floating point: `float()` is modelled for plain decimal literals only (no exponents, underscores, `inf` or `nan`; digits are ASCII only, whereas Python's `float()` and the decoder's `\d` also accept other Unicode decimal digits), values are exact reals, and `.2f` rounds the exact value half to even. The serial line is ASCII-decoded first, so there only ASCII digits can occur.
- `ScaleEmulator.Emulator.constructor`: requires an even step in hundredths, so that half a step is a whole number of hundredths (the default 0.5 kg is 50).
- `ScaleEmulator.Emulator.GetSimulatedReading`: the noise is a whole number of hundredths within the bound, not a `random.uniform` float; the reset base is a parameter within 100 kg plus or minus 10 kg.
- Randomness, the clock and the serial device (`random`, `utcnow`, `serial.Serial`, `readline`, baud rate, timeout, ASCII decoding) are parameters or oracles.
- The `print` diagnostics are not modelled.
- The emulator branch of `read_weight` that finds no emulator cannot happen once construction succeeds, so it is not modelled.
- The `isoformat` rendering of timestamps: a snapshot carries the clock reading itself.
- SQLAlchemy sessions, `get_db`, engine setup and schema migration are not part of this model.
- Storage faults and the generic `except Exception` branches are not modelled. The separate commit of the primary row and its audit row is modelled as one step without faults.
- LIKE wildcards: a `%` or `_` typed inside a search term is matched literally.
- SQLite's `lower()` folds the columns in ASCII only, as the model does.
- `Database.TruckMatches`: Python's `term.lower()` is modelled for ASCII, Latin-1, basic Greek (without `Σ`, whose lowering depends on its place in the word) and basic Cyrillic capitals; other capitals, and `İ`, which lowers to two characters, are kept as they are. `NonAsciiCapitalMissed` shows the effect: `Öz` does not find `Öztürk`.
- `Database.SetNamedAttributes`: the keywords `id`, `created_at` and `updated_at`, which the source's `hasattr` test lets through, are not modelled; the callers in `scale_project/app/ui/aggregate_type_add_window.py:68-79` pass only the name and the note.
- `Database.Ledger.UpdateTruck`: the keywords are the five truck columns plus names that are not attributes; the keywords `id`, `created_at`, `updated_at` and `last_used_timestamp` are not modelled.
- Foreign keys: whether the engine checks a ticket's aggregate and location references is a ledger constant, because it is engine configuration.
- The tkinter layer is not modelled: widgets, layout, focus, the `after` polling timer and the live display text `f"{weight:0=+8.2f} kg"`.
- The "Error" branch of `recalculate_net_weight` is reached only while the window is being built in the order written (see Findings); in the opened form the model has no other unexpected exception, so `WeighingForm` cannot reach it.
- `TruckAddWindow.TruckForm.constructor`: the tare and maximum entries of an edited truck start empty, because `str(float)` is not modelled.
- `TruckAddWindow.TruckForm.Dispatch`: the parent list refresh after a save is not modelled.
- The selected truck is the row object as it was loaded. A saved ticket clears the selection, so a stale `last_used_timestamp` on that object is never read.
- `WeighingWindow.WeighingForm.constructor`: the live reading loop started at construction is the separate operation `UpdateLiveWeight`.

## Findings

| source | as written | input that shows it | evidently intended | confidence | as-written member | corrected member |
|---|---|---|---|---|---|---|
| scale_project/app/ui/weighing_window.py:64 | `__init__` calls `load_trucks_into_combobox()` at line 64, which ends in `recalculate_net_weight()`, before `gross_weight_var` (line 83) and `net_weight_var` (line 91) exist; reading the gross raises `AttributeError`, and the catch-all handler raises again on the missing net label | opening the weighing window at all | create the gross entry and the net label before the initial load | not executed | `WeighingWindow.AsWrittenInitRaises` | `WeighingWindow.IntendedInitOpens`, `WeighingWindow.WeighingForm.constructor` |
