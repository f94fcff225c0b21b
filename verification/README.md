# MittGarage registry core in Dafny

This project models the registry core of MittGarage, a garage that checks in
vehicles. It covers two parts:

- **Vehicles** (`MittGarage/Models/Vehicle.cs`): the colour and vehicle-type
  enumerations and `VehicleFactory.Fabricate`. The factory takes the first
  command-line token as the owner and picks a vehicle kind by name (`car`,
  `bus`, `boat`, `mc`, `plane`). Each kind's `Init` then reads the remaining
  tokens by position:
  - default rule: regnr, brand, colour;
  - plane: regnr, wheel count, an unused token, colour;
  - boat: brand only.

  Colour names match case-insensitively. The base constructor takes ids from
  a counter that only ever increases. Two vehicles are equal exactly when
  their ids are.
- **Garage** (`MittGarage/Models/Garage.cs`): a capacity-bounded list of
  vehicles. It offers `Add`, `Remove` by id or by vehicle, `FindByRegNr`,
  `FindById`, `CountByType` and `Search`. `Search` is a conjunctive filter
  with wildcards, ordered stably by check-in time.

Every operation is a pure function. An operation that throws in C# returns
`Err` in the model, with one error constructor per exception it raises. The
mutable `Init` becomes a function from the freshly constructed vehicle to a
`Result`. The static `LastId` becomes a counter that the caller passes in
and gets back (`Fabricate`, `FabricateAll`). The check-in time (`DateTime.Now`)
is an integer supplied by the caller.

Modules:
- `Wrappers`: `Option` and `Result`.
- `Text`: ASCII lower-casing and `int.TryParse`'s decimal syntax.
- `Seqs`: LINQ `Where` and how many elements it keeps.
- `Vehicles`: the enumerations, the record, the factory and the id counter.
- `CheckInOrder`: the stable sort by check-in time.
- `Garages`: the garage itself.
- `GarageScenario`: the capacity-two walk-through.

Behaviours of the code that the model keeps as written:
- The code only rejects a missing first token, so an empty owner string is
  accepted.
- Removing an absent id: `FindIndex` returns -1, and the `RemoveAt(-1)` after
  it throws an `ArgumentOutOfRangeException`. The `catch` that turns a failure
  into an `InvalidOperationException` only wraps `FindIndex`, so it never
  fires. The model's error is `IndexOutOfRange`.
- `Vehicle.Id` is an `int`, but `Garage.Remove(string)` and
  `Garage.FindById(string)` compare it with a string. The model uses `int`
  ids throughout.
- `FindByRegNr(null)` compares each `RegNr` with null. So it matches the
  vehicles that have no registration, such as boats. The model's query is an
  `Option<string>`, and `None` behaves the same way. In `Search`, by
  contrast, a null regnr is a wildcard.

## Model

| member | source | states |
|---|---|---|
| Text.ParseInt | MittGarage/Models/Vehicle.cs:232-237 | A parsed wheel count is a 32-bit integer. It is accepted only as an optional `+` or `-` followed by one or more decimal digits; a non-digit anywhere after the first character rejects the token. An unsigned or `+` token parses to its digits' value, a `-` token to the negated value, whenever that value fits. |
| Text.ParseShowRoundTrip | MittGarage/Models/Vehicle.cs:232-237 | Every 32-bit integer, printed in decimal, parses back to itself. |
| Seqs.Filter | MittGarage/Models/Garage.cs:141-145 | `Where` keeps exactly the elements satisfying the predicate. It never grows the sequence and keeps a sub-multiset of it. |
| Seqs.FilterCounts | MittGarage/Models/Garage.cs:141-145 | Every element satisfying the predicate is kept as many times as it occurs in the input; any other element is not kept at all. |
| Seqs.FilterConcat | MittGarage/Models/Garage.cs:141-145 | Filtering a concatenation is the concatenation of the filtered parts, so the kept elements stay in their input order. |
| Seqs.FilterTwo | MittGarage/Models/Garage.cs:90-95 | The filter keeps two or more elements exactly when two distinct positions satisfy the predicate. This is the multiplicity that `SingleOrDefault` and `Single` test. |
| Vehicles.ParseColor | MittGarage/Models/Vehicle.cs:88-99 | An unrecognised colour token fails with `IllegalColor` carrying the token. There is no fallback colour. |
| Vehicles.ParseColorByName | MittGarage/Models/Vehicle.cs:88-99 | A token parses to colour `c` if and only if its lower-cased form is `c`'s enumeration name. |
| Vehicles.ParseColorRoundTrip | MittGarage/Models/Vehicle.cs:12-22 | Every colour name parses back to its colour, in any mix of upper and lower case. |
| Vehicles.NewVehicle | MittGarage/Models/Vehicle.cs:171-183 | The new id is the previous counter plus one, and the counter moves to it. Owner, kind and time are set. Colour is `none`, regnr and brand are null, wheels is -1. |
| Vehicles.InitDefault | MittGarage/Models/Vehicle.cs:150-166 | Fails with `MissingRegNr` exactly on no tokens. Otherwise it succeeds unless a colour token is present and unknown. On success regnr is token 0, brand is token 1 if present, colour is the parse of token 2 if present. Identity fields and wheels are unchanged. |
| Vehicles.InitPlane | MittGarage/Models/Vehicle.cs:223-248 | Fails with `MissingRegNr` exactly on no tokens. A non-integer token 1 fails with `BadWheelNumber`. Token 2 is never read and colour comes from token 3; any other failure is `IllegalColor` carrying token 3. On success wheels is the parsed token 1, and brand and identity are unchanged. |
| Vehicles.InitBoat | MittGarage/Models/Vehicle.cs:284-292 | Fails with `MissingBrand` exactly on no tokens. Otherwise it sets only the brand, to token 0. Regnr, colour and wheels keep their values. |
| Vehicles.Init | MittGarage/Models/Vehicle.cs:190-318 | Airplanes use the plane rule, oil tankers the boat rule, and every other kind the default rule. A successful `Init` never changes id, owner, kind or check-in time. |
| Vehicles.InitIgnoresTrailingTokens | MittGarage/Models/Vehicle.cs:150-292 | Tokens after the last position a kind's rule reads do not affect the outcome. That position is 2 for the default rule, 3 for planes and 0 for boats. |
| Vehicles.KindOfName | MittGarage/Models/Vehicle.cs:54-73 | Only `car`, `bus`, `boat`, `mc` and `plane` select a kind. The kind is never `bike` or `none`. |
| Vehicles.KindNameRoundTrip | MittGarage/Models/Vehicle.cs:54-73 | The factory names and the kinds they select are inverse: car→car, bus→bus, boat→oljetanker, mc→mc, plane→airplane. |
| Vehicles.Fabricate | MittGarage/Models/Vehicle.cs:48-75 | An empty command line fails with `MissingOwner` and leaves the counter alone. So does an unknown kind name, which fails with `IllegalVehicleType`. A known kind advances the counter by one even when `Init` then fails, and the outcome is exactly the kind's `Init` applied to the freshly constructed vehicle and the tokens after the owner. A command line holding only the owner fails with `MissingRegNr`, or `MissingBrand` for boats. On success the id is the new counter, the owner is token 0, the kind matches the name, and the next token is the regnr (the brand for boats). |
| Vehicles.FabricateExamples | MittGarage/Models/Vehicle.cs:48-75 | A car with no regnr fails `MissingRegNr`. A boat with no brand fails `MissingBrand`. A plane with wheels `notanumber` fails `BadWheelNumber`. A car with colour `pink` fails `IllegalColor("pink")`. The kind `bike` fails `IllegalVehicleType` without using an id. An empty command line fails `MissingOwner`. |
| Vehicles.FabricateAll | MittGarage/Models/Vehicle.cs:171-183 | Over any series of factory calls, the successful vehicles' ids strictly increase. They lie above the starting counter and at most at the final one, and the counter moves at most one step per call. |
| Vehicles.IdsNeverReused | MittGarage/Models/Vehicle.cs:175-178 | Every id from a later batch of factory calls is above every id from an earlier batch. |
| Vehicles.EqualsById | MittGarage/Models/Vehicle.cs:133-144 | `Equals` holds exactly when ids are equal, whatever the other fields. It is false for null and is an equivalence. Equal vehicles have equal hash codes. |
| CheckInOrder.SortByCheckIn | MittGarage/Models/Garage.cs:146 | The output is a permutation sorted by check-in time. For every time, the vehicles checked in then appear in their input order: the sort is stable. |
| CheckInOrder.StableSortUnique | MittGarage/Models/Garage.cs:146 | Two sorted sequences that agree on every time group are equal. So sortedness and stability determine the result. |
| CheckInOrder.SortByCheckInIsTheStableSort | MittGarage/Models/Garage.cs:146 | Any stable ordering of a sequence by check-in time is the insertion sort's output. |
| Garages.NewGarage | MittGarage/Models/Garage.cs:208-213 | A new garage has the given id and capacity, no vehicles, and free space equal to its capacity. |
| Garages.FreeSpace | MittGarage/Models/Garage.cs:25-28 | Free space is `Capacity - Count` in wrap-around `uint` arithmetic. When the capacity invariant holds, that is the plain difference. |
| Garages.Add | MittGarage/Models/Garage.cs:48-53 | Fails with `GarageFull` exactly when `Count >= Capacity`. Otherwise it appends the vehicle after the old list, keeps id and capacity, leaves `Count <= Capacity`, and lowers free space by one. |
| Garages.AddFabricatedKeepsIdsDistinct | MittGarage/Models/Garage.cs:48-53 | Adding a vehicle fresh from the factory keeps the garage's ids distinct when they were before. All ids then stay at or below the counter. |
| Garages.FindIndex | MittGarage/Models/Garage.cs:67 | Returns -1 exactly when no vehicle has the id. Otherwise it returns the first position holding the id. |
| Garages.CutAtFindIndex | MittGarage/Models/Garage.cs:67-73 | `RemoveAt` at the position `FindIndex` reports is the same as removing the first vehicle with the id, keeping the others in order. |
| Garages.CutShrinks | MittGarage/Models/Garage.cs:73 | `RemoveAt` shortens the list by one and removes exactly the vehicle at that position from the multiset. |
| Garages.CutKeepsIdsDistinct | MittGarage/Models/Garage.cs:73 | With distinct ids, `RemoveAt` keeps the ids distinct and leaves no vehicle with the removed vehicle's id. |
| Garages.Remove | MittGarage/Models/Garage.cs:62-74 | Fails with `IndexOutOfRange` exactly when no vehicle has the id. Otherwise it deletes the first vehicle with that id, keeps the others' order, shrinks the count by one, and preserves the capacity invariant and distinct ids. |
| Garages.RemoveVehicle | MittGarage/Models/Garage.cs:57-60 | Removing by vehicle fails with `IndexOutOfRange` exactly when no vehicle `Equals` it. Otherwise it removes the first vehicle with its id and keeps the garage's id and capacity. |
| Garages.FindByRegNr | MittGarage/Models/Garage.cs:90-95 | Returns nothing exactly when no vehicle has the regnr. It fails with `MoreThanOneMatch` exactly when two positions have it. Otherwise it returns a vehicle of the garage with that regnr. |
| Garages.FindById | MittGarage/Models/Garage.cs:99-104 | Succeeds exactly when one position holds the id, returning that vehicle. Fails with `NoSuchVehicle` exactly when no vehicle has the id, and with `MoreThanOneMatch` exactly when two positions have it; no other error occurs. |
| Garages.FindByIdInDistinctGarage | MittGarage/Models/Garage.cs:99-104 | With distinct ids, lookup by id succeeds exactly when the id is present. |
| Garages.CountByType | MittGarage/Models/Garage.cs:108-113 | There is a key exactly for each kind present. Each value is at least one and is the number of vehicles of that kind. |
| Garages.CountByTypeSumsToCount | MittGarage/Models/Garage.cs:108-113 | The counts over all kinds add up to the number of vehicles. |
| Garages.Search | MittGarage/Models/Garage.cs:136-148 | Returns exactly the vehicles that meet every criterion. Null owner or regnr, kind `none` and colour `none` are wildcards. The result is sorted by check-in time and is a stable ordering of the filtered vehicles. |
| Garages.SearchAnyReturnsAll | MittGarage/Models/Garage.cs:136-148 | A search with only wildcards returns the whole garage, stably ordered by check-in time. |
| Garages.SearchIsIntersection | MittGarage/Models/Garage.cs:141-145 | A vehicle is in a combined search exactly when it is in each single-criterion search. |
| GarageScenario.ScenarioVehicles | MittGarage/Models/Vehicle.cs:48-75 | From a fresh counter, the factory builds a car, a bus and a motorcycle with ids 1, 2 and 3. Each carries its owner and regnr, with default colour and wheels. |
| GarageScenario.CapacityTwoAdds | MittGarage/Models/Garage.cs:48-53 | In a capacity-2 garage, a car and a bus fit but a third vehicle is rejected. With only the bus left, the third vehicle fits. |
| GarageScenario.CapacityTwoRemove | MittGarage/Models/Garage.cs:62-74 | Removing the car's id from a garage with the car and the bus leaves just the bus. |
| GarageScenario.CapacityTwoCount | MittGarage/Models/Garage.cs:108-113 | A garage with one car and one bus counts exactly one car and one bus. |

## Left out

- `store`, `load` and `ClearDump` (Garage.cs:157-205) are left out. They are file I/O through .NET's `BinaryFormatter`, whose encoding is not part of this model, so there is no codec to round-trip.
- `DateTime.Now` is left out. The check-in time is an integer chosen by the caller.
- The `ToString` overrides are left out. They only build display strings.
- The `IEnumerable` plumbing and `ListVehicles` are left out. The non-generic enumerator only throws `NotImplementedException`.
- Data-annotation and `Display` attributes are left out. They are framework metadata.
- Vehicles.ParseColor: does not model `Enum.Parse` quirks. Numeric strings (`"3"`), comma-separated flag lists and surrounding white space are rejected rather than accepted.
- Vehicles.ParseColor: does not model culture-aware lower-casing. Only ASCII capitals are folded, so a non-ASCII letter that `ToLower` maps into ASCII (the Kelvin sign, say) is not treated as its ASCII counterpart.
- Text.ParseInt: does not model `int.TryParse`'s culture settings or its tolerance of leading and trailing white space. It accepts an optional `+` or `-`, then decimal digits, within the 32-bit range.
- Vehicles.FabricateAll: the counter is an unbounded natural number. The source's `int` `LastId` would wrap after 2^31 - 1 vehicles, and this is not modelled.
- The `ArgumentNullException` for a null owner is not modelled, because strings in the model are never null.
- The parameterless subclass constructors (owner `"Unknown"`, Vehicle.cs:206, 252, 269, 296, 314) are left out. They are not called from the modelled files. Each call would run the base constructor and use up an id.
- Later writes to `Type` and `RegNr` are left out. Both have public setters (Vehicle.cs:113, 124), and the garage keeps references its caller still holds, so such a write changes what `FindByRegNr`, `CountByType` and `Search` see afterwards. Vehicles in the model are immutable values.
- Vehicles.Fabricate: does not model that `cmdline.RemoveAt(0)` (Vehicle.cs:52) removes the owner from the caller's list, even when the kind name then turns out illegal. The model's command line is an immutable value.
- Vehicles.IdsNeverReused: holds for factory calls made one after another. `LastId += 1` (Vehicle.cs:175) is not atomic, so vehicles constructed concurrently can get the same id; concurrency is not modelled.
