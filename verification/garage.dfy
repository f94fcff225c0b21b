/**
 * The garage: a capacity-bounded list of vehicles in the order they were added, with
 * the queries the class offers. Every operation is a function from the old
 * garage to a result; an operation that throws returns `Err`.
 */
module Garages {
  import opened Wrappers
  import opened Seqs
  import opened Vehicles
  import opened CheckInOrder

  const UINT32_MODULUS: int := 0x1_0000_0000

  /** The `uint` of the capacity and the free space. */
  type uint32 = x: int | 0 <= x < UINT32_MODULUS

  datatype Garage = Garage(id: string, capacity: uint32, vehicles: seq<Vehicle>)

  /** The exceptions the garage's operations raise. */
  datatype GarageError =
    | GarageFull          // `InvalidOperationException` from `Add`
    | IndexOutOfRange     // `ArgumentOutOfRangeException` from `RemoveAt(-1)`
    | NoSuchVehicle       // `Single` on an empty match
    | MoreThanOneMatch    // `Single` / `SingleOrDefault` on several matches

  /** The capacity invariant. */
  predicate Valid(g: Garage) {
    |g.vehicles| <= g.capacity
  }

  /** No two vehicles of the garage share an id. */
  predicate DistinctIds(vs: seq<Vehicle>) {
    forall i, j :: 0 <= i < j < |vs| ==> vs[i].id != vs[j].id
  }

  /** Every id in the garage was handed out by a counter now at `lastId`. */
  predicate IdsAtMost(vs: seq<Vehicle>, lastId: int) {
    forall i :: 0 <= i < |vs| ==> vs[i].id <= lastId
  }

  /** The constructor: an empty garage with the given id and capacity. */
  function NewGarage(id: string, capacity: uint32): (g: Garage)
    ensures g.id == id && g.capacity == capacity && g.vehicles == []
    ensures Valid(g) && DistinctIds(g.vehicles)
    ensures FreeSpace(g) == capacity
  {
    Garage(id, capacity, [])
  }

  /** `Capacity - (uint)Count` in wrap-around `uint` arithmetic. */
  function FreeSpace(g: Garage): (r: uint32)
    ensures Valid(g) ==> r == g.capacity - |g.vehicles|
    ensures (r - (g.capacity - |g.vehicles|)) % UINT32_MODULUS == 0
  {
    (g.capacity - |g.vehicles|) % UINT32_MODULUS
  }

  /** Appends the vehicle unless the garage is full; a full garage is left alone. */
  function Add(g: Garage, v: Vehicle): (r: Result<Garage, GarageError>)
    ensures r.Err? <==> |g.vehicles| >= g.capacity
    ensures r.Err? ==> r.error == GarageFull
    ensures r.Ok? ==> Valid(r.value)
    ensures r.Ok? ==> r.value.id == g.id && r.value.capacity == g.capacity
    ensures r.Ok? ==> |r.value.vehicles| == |g.vehicles| + 1
    ensures r.Ok? ==> r.value.vehicles[..|g.vehicles|] == g.vehicles && r.value.vehicles[|g.vehicles|] == v
    ensures r.Ok? ==> FreeSpace(r.value) == FreeSpace(g) - 1
  {
    if |g.vehicles| >= g.capacity then Err(GarageFull)
    else Ok(g.(vehicles := g.vehicles + [v]))
  }

  /** A vehicle fresh from the factory keeps the garage's ids distinct and below the counter. */
  lemma AddFabricatedKeepsIdsDistinct(g: Garage, name: string, cmdline: seq<string>, lastId: nat, now: int)
    requires DistinctIds(g.vehicles) && IdsAtMost(g.vehicles, lastId)
    requires Fabricate(name, cmdline, lastId, now).result.Ok?
    ensures var f := Fabricate(name, cmdline, lastId, now);
            Add(g, f.result.value).Ok? ==>
              && DistinctIds(Add(g, f.result.value).value.vehicles)
              && IdsAtMost(Add(g, f.result.value).value.vehicles, f.lastId)
  {
    var f := Fabricate(name, cmdline, lastId, now);
    var r := Add(g, f.result.value);
    if r.Ok? {
      var vs := r.value.vehicles;
      assert vs == g.vehicles + [f.result.value];
      forall i, j | 0 <= i < j < |vs|
        ensures vs[i].id != vs[j].id
      {
        if j == |g.vehicles| {
          assert vs[i] == g.vehicles[i];
        }
      }
    }
  }

  /** `List.FindIndex`: the first position holding the id, or -1. */
  function FindIndex(vs: seq<Vehicle>, id: int): (ix: int)
    ensures -1 <= ix < |vs|
    ensures ix == -1 <==> forall i :: 0 <= i < |vs| ==> vs[i].id != id
    ensures ix >= 0 ==> vs[ix].id == id && forall j :: 0 <= j < ix ==> vs[j].id != id
    decreases |vs|
  {
    if vs == [] then -1
    else if vs[0].id == id then 0
    else
      var k := FindIndex(vs[1..], id);
      if k < 0 then -1 else k + 1
  }

  /** Reference definition: drop the first vehicle with the id, keep the rest in order. */
  function RemoveFirst(vs: seq<Vehicle>, id: int): seq<Vehicle>
    decreases |vs|
  {
    if vs == [] then []
    else if vs[0].id == id then vs[1..]
    else [vs[0]] + RemoveFirst(vs[1..], id)
  }

  /** Cutting out the position `FindIndex` reports is `RemoveFirst`. */
  lemma {:induction false} CutAtFindIndex(vs: seq<Vehicle>, id: int)
    requires FindIndex(vs, id) >= 0
    ensures var ix := FindIndex(vs, id);
            vs[..ix] + vs[ix + 1..] == RemoveFirst(vs, id)
    decreases |vs|
  {
    if vs[0].id != id {
      var ix := FindIndex(vs, id);
      assert ix == FindIndex(vs[1..], id) + 1;
      assert RemoveFirst(vs, id) == [vs[0]] + RemoveFirst(vs[1..], id);
      CutAtFindIndex(vs[1..], id);
      assert vs[1..][..ix - 1] == vs[1..ix];
      assert vs[1..][ix..] == vs[ix + 1..];
      assert vs[..ix] == [vs[0]] + vs[1..ix];
    }
  }

  /** Cutting out one position shortens the list by one and drops exactly that vehicle. */
  lemma CutShrinks(vs: seq<Vehicle>, ix: nat)
    requires ix < |vs|
    ensures |vs[..ix] + vs[ix + 1..]| == |vs| - 1
    ensures multiset(vs[..ix] + vs[ix + 1..]) + multiset{vs[ix]} == multiset(vs)
  {
    assert vs == vs[..ix] + [vs[ix]] + vs[ix + 1..];
  }

  /** With distinct ids, cutting out a position keeps the ids distinct and leaves none equal to the cut one. */
  lemma CutKeepsIdsDistinct(vs: seq<Vehicle>, ix: nat)
    requires ix < |vs|
    ensures DistinctIds(vs) ==> DistinctIds(vs[..ix] + vs[ix + 1..])
    ensures DistinctIds(vs) ==> forall w :: w in vs[..ix] + vs[ix + 1..] ==> w.id != vs[ix].id
  {
    var r := vs[..ix] + vs[ix + 1..];
    assert forall i :: 0 <= i < ix ==> r[i] == vs[i];
    assert forall i :: ix <= i < |r| ==> r[i] == vs[i + 1];
  }

  /**
   * `Remove(key)`: removes the first vehicle with the id. For an absent id
   * `FindIndex` yields -1 and the `RemoveAt(-1)` that follows throws; the
   * `catch` around `FindIndex` never applies.
   */
  function Remove(g: Garage, id: int): (r: Result<Garage, GarageError>)
    ensures r.Err? <==> forall i :: 0 <= i < |g.vehicles| ==> g.vehicles[i].id != id
    ensures r.Err? ==> r.error == IndexOutOfRange
    ensures r.Ok? ==> r.value.id == g.id && r.value.capacity == g.capacity
    ensures r.Ok? ==> r.value.vehicles == RemoveFirst(g.vehicles, id)
    ensures r.Ok? ==> |r.value.vehicles| == |g.vehicles| - 1
    ensures r.Ok? ==> (exists ix :: 0 <= ix < |g.vehicles| && g.vehicles[ix].id == id
                         && multiset(r.value.vehicles) + multiset{g.vehicles[ix]} == multiset(g.vehicles))
    ensures r.Ok? && Valid(g) ==> Valid(r.value)
    ensures r.Ok? && DistinctIds(g.vehicles) ==>
              DistinctIds(r.value.vehicles) && forall v :: v in r.value.vehicles ==> v.id != id
  {
    var ix := FindIndex(g.vehicles, id);
    if ix < 0 then Err(IndexOutOfRange)
    else
      CutAtFindIndex(g.vehicles, id);
      CutShrinks(g.vehicles, ix);
      CutKeepsIdsDistinct(g.vehicles, ix);
      Ok(g.(vehicles := g.vehicles[..ix] + g.vehicles[ix + 1..]))
  }

  /** `Remove(Vehicle)`: removes the first vehicle that `Equals` the argument. */
  function RemoveVehicle(g: Garage, v: Vehicle): (r: Result<Garage, GarageError>)
    ensures r.Err? <==> forall i :: 0 <= i < |g.vehicles| ==> !Equals(g.vehicles[i], Some(v))
    ensures r.Err? ==> r.error == IndexOutOfRange
    ensures r.Ok? ==> r.value.id == g.id && r.value.capacity == g.capacity
    ensures r.Ok? ==> r.value.vehicles == RemoveFirst(g.vehicles, v.id)
    ensures r.Ok? ==> |r.value.vehicles| == |g.vehicles| - 1
  {
    Remove(g, v.id)
  }

  /** The registration-number test; a `None` query matches the vehicles without one. */
  function HasRegNr(regNr: Option<string>): Vehicle -> bool {
    (v: Vehicle) => v.regNr == regNr
  }

  /**
   * `Where(RegNr == regNr).SingleOrDefault()`: nothing for no match, the
   * vehicle for one match, an error for several.
   */
  function FindByRegNr(g: Garage, regNr: Option<string>): (r: Result<Option<Vehicle>, GarageError>)
    ensures r == Ok(None) <==> forall i :: 0 <= i < |g.vehicles| ==> g.vehicles[i].regNr != regNr
    ensures r.Err? <==> exists i, j :: 0 <= i < j < |g.vehicles|
                           && g.vehicles[i].regNr == regNr && g.vehicles[j].regNr == regNr
    ensures r.Err? ==> r.error == MoreThanOneMatch
    ensures r.Ok? && r.value.Some? ==> r.value.value in g.vehicles && r.value.value.regNr == regNr
  {
    var ms := Filter(g.vehicles, HasRegNr(regNr));
    FilterEmpty(g.vehicles, HasRegNr(regNr));
    FilterTwo(g.vehicles, HasRegNr(regNr));
    if |ms| == 0 then Ok(None)
    else if |ms| == 1 then
      assert ms[0] in ms;
      Ok(Some(ms[0]))
    else Err(MoreThanOneMatch)
  }

  function HasId(id: int): Vehicle -> bool {
    (v: Vehicle) => v.id == id
  }

  /** `Where(Id == id).Single()`: the vehicle for exactly one match, an error otherwise. */
  function FindById(g: Garage, id: int): (r: Result<Vehicle, GarageError>)
    ensures r == Err(NoSuchVehicle) <==> forall i :: 0 <= i < |g.vehicles| ==> g.vehicles[i].id != id
    ensures r == Err(MoreThanOneMatch) <==> exists i, j :: 0 <= i < j < |g.vehicles|
                                              && g.vehicles[i].id == id && g.vehicles[j].id == id
    ensures r.Err? ==> r.error == NoSuchVehicle || r.error == MoreThanOneMatch
    ensures r.Ok? <==> exists i :: && 0 <= i < |g.vehicles| && g.vehicles[i].id == id
                                    && forall j :: 0 <= j < |g.vehicles| && j != i ==> g.vehicles[j].id != id
    ensures r.Ok? ==> r.value in g.vehicles && r.value.id == id
  {
    var ms := Filter(g.vehicles, HasId(id));
    FilterEmpty(g.vehicles, HasId(id));
    FilterTwo(g.vehicles, HasId(id));
    if |ms| == 1 then
      assert ms[0] in ms;
      Ok(ms[0])
    else if |ms| == 0 then Err(NoSuchVehicle)
    else Err(MoreThanOneMatch)
  }

  /** With distinct ids, a lookup by id succeeds exactly when the id is present. */
  lemma FindByIdInDistinctGarage(g: Garage, id: int)
    requires DistinctIds(g.vehicles)
    ensures FindById(g, id).Ok? <==> exists i :: 0 <= i < |g.vehicles| && g.vehicles[i].id == id
  {
  }

  /** The number of vehicles of one kind. */
  function KindCount(vs: seq<Vehicle>, k: VehicleType): nat
    decreases |vs|
  {
    if vs == [] then 0 else (if vs[0].kind == k then 1 else 0) + KindCount(vs[1..], k)
  }

  /** `GroupBy(Type).ToDictionary(Key, Count)`: one entry per kind present, holding how many there are. */
  function CountByType(g: Garage): (r: map<VehicleType, nat>)
    ensures forall k :: k in r <==> exists i :: 0 <= i < |g.vehicles| && g.vehicles[i].kind == k
    ensures forall k :: k in r ==> r[k] == KindCount(g.vehicles, k) && r[k] >= 1
  {
    Tally(g.vehicles)
  }

  function Tally(vs: seq<Vehicle>): (r: map<VehicleType, nat>)
    ensures forall k :: k in r <==> exists i :: 0 <= i < |vs| && vs[i].kind == k
    ensures forall k :: k in r ==> r[k] == KindCount(vs, k) && r[k] >= 1
    decreases |vs|
  {
    if vs == [] then map[]
    else
      var m := Tally(vs[1..]);
      var k := vs[0].kind;
      assert forall i :: 0 < i < |vs| ==> vs[i] == vs[1..][i - 1];
      assert forall k' :: k' !in m ==> KindCount(vs[1..], k') == 0 by {
        forall k' | k' !in m ensures KindCount(vs[1..], k') == 0 {
          KindCountZero(vs[1..], k');
        }
      }
      m[k := CountOf(m, k) + 1]
  }

  /** A kind absent from the sequence counts zero. */
  lemma {:induction false} KindCountZero(vs: seq<Vehicle>, k: VehicleType)
    requires forall i :: 0 <= i < |vs| ==> vs[i].kind != k
    ensures KindCount(vs, k) == 0
    decreases |vs|
  {
    if vs != [] {
      KindCountZero(vs[1..], k);
    }
  }

  /** The count of one kind in a count dictionary, zero when the kind is missing. */
  function CountOf(m: map<VehicleType, nat>, k: VehicleType): nat {
    if k in m then m[k] else 0
  }

  /** The total over all kinds of a count dictionary. */
  function Total(m: map<VehicleType, nat>): nat {
    CountOf(m, Car) + CountOf(m, Bike) + CountOf(m, Airplane) + CountOf(m, Oljetanker)
      + CountOf(m, Bus) + CountOf(m, Mc) + CountOf(m, NoType)
  }

  lemma TotalBump(m: map<VehicleType, nat>, k: VehicleType)
    ensures Total(m[k := CountOf(m, k) + 1]) == Total(m) + 1
  {
  }

  lemma {:induction false} TallyTotal(vs: seq<Vehicle>)
    ensures Total(Tally(vs)) == |vs|
    decreases |vs|
  {
    if vs != [] {
      TallyTotal(vs[1..]);
      var m := Tally(vs[1..]);
      TotalBump(m, vs[0].kind);
      assert Tally(vs) == m[vs[0].kind := CountOf(m, vs[0].kind) + 1];
    }
  }

  /** The counts per kind add up to the number of vehicles in the garage. */
  lemma CountByTypeSumsToCount(g: Garage)
    ensures Total(CountByType(g)) == |g.vehicles|
  {
    TallyTotal(g.vehicles);
  }

  /** Search criteria; `None`, `NoType` and `NoColor` mean "any". */
  datatype Criteria = Criteria(owner: Option<string>, regNr: Option<string>, kind: VehicleType, color: ColorType)

  const AnyVehicle := Criteria(None, None, NoType, NoColor)

  /** The conjunction of the four `Where` clauses. */
  predicate Matches(v: Vehicle, c: Criteria) {
    && (c.owner.None? || v.owner == c.owner.value)
    && (c.regNr.None? || v.regNr == c.regNr)
    && (c.kind == NoType || v.kind == c.kind)
    && (c.color == NoColor || v.color == c.color)
  }

  function MatchesAll(c: Criteria): Vehicle -> bool {
    (v: Vehicle) => Matches(v, c)
  }

  /**
   * `Search`: the vehicles matching every criterion, ordered by check-in
   * time, vehicles checked in at the same time kept in garage order.
   */
  function Search(g: Garage, c: Criteria): (r: seq<Vehicle>)
    ensures forall v :: v in r <==> v in g.vehicles && Matches(v, c)
    ensures StablySorts(r, Filter(g.vehicles, MatchesAll(c)))
    ensures |r| <= |g.vehicles|
  {
    var f := Filter(g.vehicles, MatchesAll(c));
    var r := SortByCheckIn(f);
    assert forall v :: v in r <==> v in f by {
      forall v
        ensures v in r <==> v in f
      {
        assert v in r <==> v in multiset(r);
        assert v in f <==> v in multiset(f);
      }
    }
    r
  }

  /** With every criterion a wildcard, the search is the whole garage in check-in order. */
  lemma SearchAnyReturnsAll(g: Garage)
    ensures StablySorts(Search(g, AnyVehicle), g.vehicles)
    ensures Search(g, AnyVehicle) == SortByCheckIn(g.vehicles)
  {
    FilterAll(g.vehicles, MatchesAll(AnyVehicle));
  }

  /** Combining criteria intersects the single-criterion searches. */
  lemma SearchIsIntersection(g: Garage, c: Criteria, v: Vehicle)
    ensures v in Search(g, c) <==>
              && v in Search(g, AnyVehicle.(owner := c.owner))
              && v in Search(g, AnyVehicle.(regNr := c.regNr))
              && v in Search(g, AnyVehicle.(kind := c.kind))
              && v in Search(g, AnyVehicle.(color := c.color))
  {
    var byOwner, byRegNr := AnyVehicle.(owner := c.owner), AnyVehicle.(regNr := c.regNr);
    var byKind, byColor := AnyVehicle.(kind := c.kind), AnyVehicle.(color := c.color);
    assert v in Search(g, c) <==> v in g.vehicles && Matches(v, c);
    assert v in Search(g, byOwner) <==> v in g.vehicles && Matches(v, byOwner);
    assert v in Search(g, byRegNr) <==> v in g.vehicles && Matches(v, byRegNr);
    assert v in Search(g, byKind) <==> v in g.vehicles && Matches(v, byKind);
    assert v in Search(g, byColor) <==> v in g.vehicles && Matches(v, byColor);
  }
}

module GarageScenario {
  import opened Wrappers
  import opened Vehicles
  import opened Garages

  /** A car, a bus and a motorcycle from the factory, checked in at times 10, 20 and 30. */
  lemma ScenarioVehicles()
    ensures Fabricate("car", ["A", "R1"], 0, 10) == Fabricated(Ok(Vehicle(1, "A", Car, 10, NoColor, -1, Some("R1"), None)), 1)
    ensures Fabricate("bus", ["B", "R2"], 1, 20) == Fabricated(Ok(Vehicle(2, "B", Bus, 20, NoColor, -1, Some("R2"), None)), 2)
    ensures Fabricate("mc", ["C", "R3"], 2, 30) == Fabricated(Ok(Vehicle(3, "C", Mc, 30, NoColor, -1, Some("R3"), None)), 3)
  {
    assert ["A", "R1"][1..] == ["R1"];
    assert ["B", "R2"][1..] == ["R2"];
    assert ["C", "R3"][1..] == ["R3"];
  }

  /**
   * Capacity two: the car and the bus fit, a third vehicle does not; once
   * the car has left, the third vehicle fits.
   */
  lemma CapacityTwoAdds(car: Vehicle, bus: Vehicle, mc: Vehicle)
    ensures Add(NewGarage("g", 2), car) == Ok(Garage("g", 2, [car]))
    ensures Add(Garage("g", 2, [car]), bus) == Ok(Garage("g", 2, [car, bus]))
    ensures Add(Garage("g", 2, [car, bus]), mc) == Err(GarageFull)
    ensures Add(Garage("g", 2, [bus]), mc) == Ok(Garage("g", 2, [bus, mc]))
  {
    assert [car] + [bus] == [car, bus];
    assert [bus] + [mc] == [bus, mc];
  }

  /** The car leaves a garage holding the car and the bus, and the bus stays. */
  lemma CapacityTwoRemove(car: Vehicle, bus: Vehicle)
    requires car.id != bus.id
    ensures Remove(Garage("g", 2, [car, bus]), car.id) == Ok(Garage("g", 2, [bus]))
  {
    var vs := [car, bus];
    assert FindIndex(vs, car.id) == 0;
    assert vs[..0] + vs[1..] == [bus];
  }

  /** A garage holding one car and one bus counts one of each kind. */
  lemma CapacityTwoCount(car: Vehicle, bus: Vehicle)
    requires car.kind == Car && bus.kind == Bus
    ensures CountByType(Garage("g", 2, [car, bus])) == map[Car := 1, Bus := 1]
  {
    var vs := [car, bus];
    assert vs[1..] == [bus];
    assert [bus][1..] == [];
    assert KindCount([], Car) == 0 && KindCount([], Bus) == 0;
    assert KindCount([bus], Car) == 0 && KindCount([bus], Bus) == 1;
    assert KindCount(vs, Car) == 1;
    assert KindCount(vs, Bus) == 1;
    var m := CountByType(Garage("g", 2, vs));
    assert m.Keys == {Car, Bus};
  }
}
