/**
 * Vehicles: the colour and kind enumerations, the vehicle record, the
 * per-kind parsing of command-line attributes and the factory that picks a
 * kind by name. The process-wide `LastId` counter is threaded explicitly: the
 * factory takes the last id handed out and returns the new last id.
 */
module Vehicles {
  import opened Wrappers
  import opened Text

  /** `ColorType`; `NoColor` is the enumeration's `none` member. */
  datatype ColorType = Black | White | Red | Green | Yellow | Blue | Cyan | NoColor

  /** `VehicleType`; `NoType` is the enumeration's `none` member, the search wildcard. */
  datatype VehicleType = Car | Bike | Airplane | Oljetanker | Bus | Mc | NoType

  /**
   * A vehicle, as a value. The constructor sets `id`, `owner`, `kind` and
   * `checkIn` and gives the other fields their defaults; `Init` fills in
   * registration, brand, wheels and colour. The class also lets any caller
   * reassign `Type` and `RegNr` later; the model has no such update. `None`
   * stands for a null string, `checkIn` for the check-in timestamp.
   */
  datatype Vehicle = Vehicle(
    id: int,
    owner: string,
    kind: VehicleType,
    checkIn: int,
    color: ColorType,
    wheels: int,
    regNr: Option<string>,
    brand: Option<string>)

  /**
   * The `ArgumentException`s raised while fabricating a vehicle. The payloads
   * of `IllegalVehicleType` and `BadWheelNumber` add the offending name or
   * token, which those exceptions' messages do not carry; `IllegalColor`'s
   * token is part of its message.
   */
  datatype VehicleError =
    | MissingOwner
    | IllegalVehicleType(name: string)
    | MissingRegNr
    | BadWheelNumber(token: string)
    | IllegalColor(token: string)
    | MissingBrand

  /** The enumeration member name of a colour. */
  function ColorName(c: ColorType): string {
    match c
    case Black => "black"
    case White => "white"
    case Red => "red"
    case Green => "green"
    case Yellow => "yellow"
    case Blue => "blue"
    case Cyan => "cyan"
    case NoColor => "none"
  }

  /** Lower-cases the token and looks it up among the colour names; no default. */
  function ParseColor(s: string): (r: Result<ColorType, VehicleError>)
    ensures r.Err? ==> r.error == IllegalColor(s)
  {
    var l := Lower(s);
    if l == "black" then Ok(Black)
    else if l == "white" then Ok(White)
    else if l == "red" then Ok(Red)
    else if l == "green" then Ok(Green)
    else if l == "yellow" then Ok(Yellow)
    else if l == "blue" then Ok(Blue)
    else if l == "cyan" then Ok(Cyan)
    else if l == "none" then Ok(NoColor)
    else Err(IllegalColor(s))
  }

  /** A token parses to a colour exactly when its lower-cased form is that colour's name. */
  lemma ParseColorByName(s: string, c: ColorType)
    ensures ParseColor(s) == Ok(c) <==> Lower(s) == ColorName(c)
  {
  }

  /** Every colour name parses back to its colour, whatever the case of its letters. */
  lemma ParseColorRoundTrip(c: ColorType, s: string)
    requires Lower(s) == ColorName(c)
    ensures ParseColor(s) == Ok(c)
    ensures ParseColor(ColorName(c)) == Ok(c)
  {
    var n := ColorName(c);
    assert forall i :: 0 <= i < |n| ==> !IsUpper(n[i]);
    LowerOfLower(n);
    ParseColorByName(s, c);
    ParseColorByName(n, c);
  }

  /** The `LastId += 1` constructor: the fresh id, the owner, the kind, the time and every default. */
  function NewVehicle(owner: string, kind: VehicleType, lastId: nat, now: int): (r: (Vehicle, nat))
    ensures r.1 == lastId + 1 && r.0.id == r.1
    ensures r.0.owner == owner && r.0.kind == kind && r.0.checkIn == now
    ensures r.0.color == NoColor && r.0.regNr == None && r.0.wheels == -1 && r.0.brand == None
  {
    (Vehicle(lastId + 1, owner, kind, now, NoColor, -1, None, None), lastId + 1)
  }

  /** The fields `Init` may not touch are the same in both vehicles. */
  predicate SameIdentity(a: Vehicle, b: Vehicle) {
    a.id == b.id && a.owner == b.owner && a.kind == b.kind && a.checkIn == b.checkIn
  }

  /** The base `Init`: `<regnr> [brand [colour]]`. */
  function InitDefault(v: Vehicle, attr: seq<string>): (r: Result<Vehicle, VehicleError>)
    ensures r == Err(MissingRegNr) <==> |attr| == 0
    ensures r.Ok? <==> |attr| >= 1 && (|attr| > 2 ==> ParseColor(attr[2]).Ok?)
    ensures r.Err? && |attr| > 0 ==> r.error == IllegalColor(attr[2])
    ensures r.Ok? ==> SameIdentity(v, r.value) && r.value.wheels == v.wheels
    ensures r.Ok? ==> r.value.regNr == Some(attr[0])
    ensures r.Ok? ==> r.value.brand == (if |attr| > 1 then Some(attr[1]) else v.brand)
    ensures r.Ok? && |attr| > 2 ==> ParseColor(attr[2]) == Ok(r.value.color)
    ensures r.Ok? && |attr| <= 2 ==> r.value.color == v.color
  {
    if |attr| == 0 then Err(MissingRegNr)
    else
      var withReg := v.(regNr := Some(attr[0]));
      var withBrand := if |attr| > 1 then withReg.(brand := Some(attr[1])) else withReg;
      if |attr| > 2 then
        match ParseColor(attr[2])
        case Ok(c) => Ok(withBrand.(color := c))
        case Err(e) => Err(e)
      else Ok(withBrand)
  }

  /** The plane `Init`: `<regnr> [wheels [unused [colour]]]`. */
  function InitPlane(v: Vehicle, attr: seq<string>): (r: Result<Vehicle, VehicleError>)
    ensures r == Err(MissingRegNr) <==> |attr| == 0
    ensures r.Ok? <==> |attr| >= 1 && (|attr| > 1 ==> ParseInt(attr[1]).Some?)
                                   && (|attr| > 3 ==> ParseColor(attr[3]).Ok?)
    ensures |attr| > 1 && ParseInt(attr[1]).None? ==> r == Err(BadWheelNumber(attr[1]))
    ensures r.Err? && |attr| > 0 && !(|attr| > 1 && ParseInt(attr[1]).None?) ==> r.error == IllegalColor(attr[3])
    ensures r.Ok? ==> SameIdentity(v, r.value) && r.value.brand == v.brand
    ensures r.Ok? ==> r.value.regNr == Some(attr[0])
    ensures r.Ok? ==> r.value.wheels == (if |attr| > 1 then ParseInt(attr[1]).value else v.wheels)
    ensures r.Ok? && |attr| > 3 ==> ParseColor(attr[3]) == Ok(r.value.color)
    ensures r.Ok? && |attr| <= 3 ==> r.value.color == v.color
  {
    if |attr| < 1 then Err(MissingRegNr)
    else
      var withReg := v.(regNr := Some(attr[0]));
      if |attr| > 1 && ParseInt(attr[1]).None? then Err(BadWheelNumber(attr[1]))
      else
        var withWheels := if |attr| > 1 then withReg.(wheels := ParseInt(attr[1]).value) else withReg;
        if |attr| > 3 then
          match ParseColor(attr[3])
          case Ok(c) => Ok(withWheels.(color := c))
          case Err(e) => Err(e)
        else Ok(withWheels)
  }

  /** The boat `Init`: `<brand>`; registration, colour and wheels keep their defaults. */
  function InitBoat(v: Vehicle, attr: seq<string>): (r: Result<Vehicle, VehicleError>)
    ensures r.Err? <==> |attr| == 0
    ensures r.Err? ==> r.error == MissingBrand
    ensures r.Ok? ==> SameIdentity(v, r.value) && r.value.brand == Some(attr[0])
    ensures r.Ok? ==> r.value.regNr == v.regNr && r.value.color == v.color && r.value.wheels == v.wheels
  {
    if |attr| == 0 then Err(MissingBrand) else Ok(v.(brand := Some(attr[0])))
  }

  /** Virtual dispatch of `Init` on the kind the subclass passed to the base constructor. */
  function Init(v: Vehicle, attr: seq<string>): (r: Result<Vehicle, VehicleError>)
    ensures r.Ok? ==> SameIdentity(v, r.value)
    ensures v.kind == Airplane ==> r == InitPlane(v, attr)
    ensures v.kind == Oljetanker ==> r == InitBoat(v, attr)
    ensures v.kind != Airplane && v.kind != Oljetanker ==> r == InitDefault(v, attr)
  {
    match v.kind
    case Airplane => InitPlane(v, attr)
    case Oljetanker => InitBoat(v, attr)
    case _ => InitDefault(v, attr)
  }

  /** Only tokens up to the highest position a rule reads influence `Init`. */
  lemma InitIgnoresTrailingTokens(v: Vehicle, attr: seq<string>, extra: seq<string>)
    requires |attr| >= (match v.kind case Airplane => 4 case Oljetanker => 1 case _ => 3)
    ensures Init(v, attr + extra) == Init(v, attr)
  {
    var a := attr + extra;
    assert a[0] == attr[0];
    if v.kind != Oljetanker {
      assert a[1] == attr[1] && a[2] == attr[2];
    }
    if v.kind == Airplane {
      assert a[3] == attr[3];
    }
  }

  /** The kind selected by the factory's `switch`, or `None` for an illegal name. */
  function KindOfName(name: string): (r: Option<VehicleType>)
    ensures r.Some? <==> name in {"car", "bus", "boat", "mc", "plane"}
    ensures r.Some? ==> r.value != Bike && r.value != NoType
  {
    if name == "car" then Some(Car)
    else if name == "bus" then Some(Bus)
    else if name == "boat" then Some(Oljetanker)
    else if name == "mc" then Some(Mc)
    else if name == "plane" then Some(Airplane)
    else None
  }

  /** The factory name of each kind it can build; `Bike` and `NoType` have none. */
  function KindName(k: VehicleType): Option<string> {
    match k
    case Car => Some("car")
    case Bus => Some("bus")
    case Oljetanker => Some("boat")
    case Mc => Some("mc")
    case Airplane => Some("plane")
    case _ => None
  }

  /** The factory's names and the kinds they select are inverse to each other. */
  lemma KindNameRoundTrip(name: string, k: VehicleType)
    ensures KindOfName(name) == Some(k) <==> KindName(k) == Some(name)
  {
  }

  /** The factory's result together with the counter's value afterwards. */
  datatype Fabricated = Fabricated(result: Result<Vehicle, VehicleError>, lastId: nat)

  /**
   * `VehicleFactory.Fabricate`: token 0 is the owner, the rest go to the
   * kind's `Init`. The constructor runs before `Init`, so a vehicle that
   * fails validation still uses up an id.
   */
  function Fabricate(name: string, cmdline: seq<string>, lastId: nat, now: int): (r: Fabricated)
    ensures |cmdline| == 0 ==> r == Fabricated(Err(MissingOwner), lastId)
    ensures |cmdline| > 0 && KindOfName(name).None? ==> r == Fabricated(Err(IllegalVehicleType(name)), lastId)
    ensures r.lastId == (if |cmdline| > 0 && KindOfName(name).Some? then lastId + 1 else lastId)
    ensures r.result.Ok? ==> var v := r.result.value;
      && v.id == r.lastId == lastId + 1
      && v.owner == cmdline[0]
      && Some(v.kind) == KindOfName(name)
      && v.checkIn == now
    ensures KindOfName(name).Some? && KindOfName(name).value !in {Airplane, Oljetanker} ==>
              (r.result == Err(MissingRegNr) <==> |cmdline| == 1)
    ensures KindOfName(name) == Some(Airplane) ==> (r.result == Err(MissingRegNr) <==> |cmdline| == 1)
    ensures KindOfName(name) == Some(Oljetanker) ==> (r.result == Err(MissingBrand) <==> |cmdline| == 1)
    ensures |cmdline| > 0 && KindOfName(name).Some? ==>
              r.result == Init(NewVehicle(cmdline[0], KindOfName(name).value, lastId, now).0, cmdline[1..])
    ensures r.result.Ok? ==> |cmdline| >= 2
    ensures r.result.Ok? && r.result.value.kind == Oljetanker ==> r.result.value.brand == Some(cmdline[1])
    ensures r.result.Ok? && r.result.value.kind != Oljetanker ==> r.result.value.regNr == Some(cmdline[1])
  {
    if |cmdline| == 0 then Fabricated(Err(MissingOwner), lastId)
    else
      match KindOfName(name)
      case None => Fabricated(Err(IllegalVehicleType(name)), lastId)
      case Some(kind) =>
        var (v, next) := NewVehicle(cmdline[0], kind, lastId, now);
        Fabricated(Init(v, cmdline[1..]), next)
  }

  /** Validation outcomes for a few concrete command lines. */
  lemma FabricateExamples()
    ensures Fabricate("car", ["Alice"], 0, 0).result == Err(MissingRegNr)
    ensures Fabricate("boat", ["Bob"], 0, 0).result == Err(MissingBrand)
    ensures Fabricate("plane", ["Eve", "ABC123", "notanumber"], 0, 0).result == Err(BadWheelNumber("notanumber"))
    ensures Fabricate("bike", ["Sam", "X1"], 0, 0) == Fabricated(Err(IllegalVehicleType("bike")), 0)
    ensures Fabricate("car", [], 7, 0) == Fabricated(Err(MissingOwner), 7)
    ensures Fabricate("car", ["Ann", "R1", "Volvo", "pink"], 0, 0).result == Err(IllegalColor("pink"))
  {
    assert ["Eve", "ABC123", "notanumber"][1..] == ["ABC123", "notanumber"];
    assert ["Ann", "R1", "Volvo", "pink"][1..] == ["R1", "Volvo", "pink"];
  }

  /** One call of the factory: the kind name, the command line and the check-in time. */
  datatype Request = Request(name: string, cmdline: seq<string>, now: int)

  /** The ids of `vs` increase strictly from left to right. */
  predicate IncreasingIds(vs: seq<Vehicle>) {
    forall i, j :: 0 <= i < j < |vs| ==> vs[i].id < vs[j].id
  }

  /**
   * Runs the factory on each request in turn, threading the counter, and
   * collects the vehicles that passed validation.
   */
  function FabricateAll(reqs: seq<Request>, lastId: nat): (r: (seq<Vehicle>, nat))
    ensures lastId <= r.1 <= lastId + |reqs|
    ensures forall v :: v in r.0 ==> lastId < v.id <= r.1
    ensures IncreasingIds(r.0)
    decreases |reqs|
  {
    if reqs == [] then ([], lastId)
    else
      var f := Fabricate(reqs[0].name, reqs[0].cmdline, lastId, reqs[0].now);
      var (rest, last) := FabricateAll(reqs[1..], f.lastId);
      (if f.result.Ok? then [f.result.value] + rest else rest, last)
  }

  /** Ids are never reused: a later batch only produces ids above every id of an earlier one. */
  lemma IdsNeverReused(first: seq<Request>, second: seq<Request>, lastId: nat)
    ensures var (a, mid) := FabricateAll(first, lastId);
            var (b, _) := FabricateAll(second, mid);
            forall x, y :: x in a && y in b ==> x.id < y.id
  {
  }

  /** `Vehicle.Equals`: `other` is null or not a vehicle when it is `None`. */
  predicate Equals(v: Vehicle, other: Option<Vehicle>) {
    other.Some? && v.id == other.value.id
  }

  /** `Vehicle.GetHashCode`: an `int`'s hash code is the value itself. */
  function HashCode(v: Vehicle): int {
    v.id
  }

  /** Equality is an equivalence on ids alone, ignores every other field, and agrees with the hash code. */
  lemma EqualsById(a: Vehicle, b: Vehicle, c: Vehicle)
    ensures Equals(a, Some(b)) <==> a.id == b.id
    ensures !Equals(a, None)
    ensures Equals(a, Some(a))
    ensures Equals(a, Some(b)) ==> Equals(b, Some(a))
    ensures Equals(a, Some(b)) && Equals(b, Some(c)) ==> Equals(a, Some(c))
    ensures Equals(a, Some(b)) ==> HashCode(a) == HashCode(b)
  {
  }
}
