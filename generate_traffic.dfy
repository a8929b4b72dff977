/**
 * Background-traffic generation: the four traffic scenarios, the split of a vehicle
 * count into cars, buses and trucks, the trip list written for them, and the repair
 * that puts the emergency vehicle type back into a routes file after duarouter has
 * rewritten it.
 *
 * Random draws (departure times, origin and destination edges) are nondeterministic
 * choices; the file is its text.
 */
module GenerateTraffic {
  import opened Common
  import opened Text

  // ---------------------------------------------------------------- the emergency vType

  const EmergencyMarker: string := "id=\"emergency\""
  const EmergencyVtype: string :=
    "    <vType " + EmergencyMarker
    + " vClass=\"emergency\" color=\"1,0,0\" speedFactor=\"1.3\" sigma=\"0.0\" guiShape=\"emergency\"/>\n"
  const VtypeOpen: string := "<vType"
  const VtypeClose: string := "\"/>\n"
  const RoutesClose: string := "</routes>"

  /** Where the emergency line goes, if anywhere: after the first vType's closing `"/>` line, else before `</routes>`. */
  function InsertionPoint(content: string): (p: Option<nat>)
    ensures p.Some? && Contains(content, VtypeOpen) ==>
              var v := Find(content, VtypeOpen);
              p.value >= 4 && v <= p.value - 4 && OccursAt(content, VtypeClose, p.value - 4)
              && forall i :: v <= i < p.value - 4 ==> !OccursAt(content, VtypeClose, i)
    ensures p.Some? && !Contains(content, VtypeOpen) ==>
              OccursAt(content, RoutesClose, p.value) && forall i :: 0 <= i < p.value ==> !OccursAt(content, RoutesClose, i)
    ensures p.None? <==> if Contains(content, VtypeOpen)
                         then FindFrom(content, VtypeClose, Find(content, VtypeOpen)) == -1
                         else !Contains(content, RoutesClose)
    ensures p.Some? ==> p.value <= |content|
  {
    if Contains(content, VtypeOpen) then
      var close := FindFrom(content, VtypeClose, Find(content, VtypeOpen));
      if close == -1 then None else Some(close + |VtypeClose|)
    else
      var r := Find(content, RoutesClose);
      if r == -1 then None else Some(r)
  }

  /** `add_emergency_vtype` on the file's text. */
  function AddEmergencyVtype(content: string): (r: string)
    ensures Contains(content, EmergencyMarker) ==> r == content
  {
    if Contains(content, EmergencyMarker) then content
    else
      match InsertionPoint(content)
      case None => content
      case Some(p) =>
        if Contains(content, VtypeOpen) then content[..p] + EmergencyVtype + content[p..]
        else content[..p] + EmergencyVtype + "\n" + content[p..]
  }

  lemma EmergencyLineHasMarker()
    ensures Contains(EmergencyVtype, EmergencyMarker)
  {
    var head := "    <vType ";
    assert EmergencyVtype[|head|..|head| + |EmergencyMarker|] == EmergencyMarker;
    assert OccursAt(EmergencyVtype, EmergencyMarker, |head|);
  }

  /**
   * The text around the insertion point is kept as it was: the result is the input, or
   * the input with the emergency line (and, before `</routes>`, a newline) spliced in.
   */
  lemma AddEmergencyVtypeSplices(content: string)
    ensures var r := AddEmergencyVtype(content);
            || r == content
            || exists p :: 0 <= p <= |content| && (r == content[..p] + EmergencyVtype + content[p..]
                                                   || r == content[..p] + EmergencyVtype + "\n" + content[p..])
    ensures AddEmergencyVtype(content) == content <==>
              Contains(content, EmergencyMarker) || InsertionPoint(content).None?
  {
    var r := AddEmergencyVtype(content);
    if !Contains(content, EmergencyMarker) && InsertionPoint(content).Some? {
      var p := InsertionPoint(content).value;
      EmergencyLineHasMarker();
      if Contains(content, VtypeOpen) {
        ContainsSpliced(content[..p], EmergencyVtype, content[p..], EmergencyMarker);
      } else {
        ContainsSpliced(content[..p], EmergencyVtype, "\n" + content[p..], EmergencyMarker);
        assert r == content[..p] + EmergencyVtype + ("\n" + content[p..]);
      }
    }
  }

  /** Once added, the line is not added again. */
  lemma AddEmergencyVtypeIdempotent(content: string)
    ensures AddEmergencyVtype(AddEmergencyVtype(content)) == AddEmergencyVtype(content)
  {
    var r := AddEmergencyVtype(content);
    if InsertionPoint(content).Some? {
      AddEmergencyVtypeDeclares(content);
      assert Contains(r, EmergencyMarker);
    } else {
      assert r == content;
    }
  }

  /** Once added, the file declares the emergency type, unless there was nowhere to put it. */
  lemma AddEmergencyVtypeDeclares(content: string)
    requires InsertionPoint(content).Some?
    ensures Contains(AddEmergencyVtype(content), EmergencyMarker)
  {
    if !Contains(content, EmergencyMarker) {
      var p := InsertionPoint(content).value;
      EmergencyLineHasMarker();
      if Contains(content, VtypeOpen) {
        ContainsSpliced(content[..p], EmergencyVtype, content[p..], EmergencyMarker);
      } else {
        ContainsSpliced(content[..p], EmergencyVtype, "\n" + content[p..], EmergencyMarker);
        assert AddEmergencyVtype(content) == content[..p] + EmergencyVtype + ("\n" + content[p..]);
      }
    }
  }

  // ---------------------------------------------------------------- scenarios and counts

  datatype Scenario = Scenario(vehicles: nat, carRatio: real, busRatio: real, truckRatio: real, departWindow: real)

  function ScenarioOf(name: string): (sc: Option<Scenario>)
    ensures sc.Some? <==> name in {"low", "moderate", "high", "severe"}
    ensures sc.Some? ==> && sc.value.carRatio + sc.value.busRatio + sc.value.truckRatio == 1.0
                         && 0.0 <= sc.value.carRatio && 0.0 <= sc.value.busRatio && 0.0 <= sc.value.truckRatio
                         && sc.value.departWindow > 0.0
                         && sc.value.departWindow * 20.0 == sc.value.vehicles as real
  {
    if name == "low" then Some(Scenario(2000, 0.85, 0.08, 0.07, 100.0))
    else if name == "moderate" then Some(Scenario(5000, 0.80, 0.10, 0.10, 250.0))
    else if name == "high" then Some(Scenario(10000, 0.75, 0.12, 0.13, 500.0))
    else if name == "severe" then Some(Scenario(20000, 0.70, 0.15, 0.15, 1000.0))
    else None
  }

  /** Python `int(x)` on a float: truncation toward zero. */
  function Trunc(x: real): (n: int)
    ensures x >= 0.0 ==> 0 <= n && n as real <= x < n as real + 1.0
    ensures x < 0.0 ==> n <= 0 && n as real - 1.0 < x <= n as real
  {
    if x >= 0.0 then x.Floor else -((-x).Floor)
  }

  /** A custom count of None or 0 falls back to the scenario's own. */
  function NumVehicles(custom: Option<int>, sc: Scenario): int {
    if custom.Some? && custom.value != 0 then custom.value else sc.vehicles
  }

  datatype Counts = Counts(cars: int, buses: int, trucks: int)

  /** Python `int(n * ratio)`, with `n` already a float. */
  function Portion(m: real, ratio: real): int {
    Trunc(m * ratio)
  }

  function VehicleCounts(n: int, sc: Scenario): (c: Counts)
    ensures c.cars + c.buses + c.trucks == n
  {
    var cars := Portion(n as real, sc.carRatio);
    var buses := Portion(n as real, sc.busRatio);
    Counts(cars, buses, n - cars - buses)
  }

  /** With a non-negative count and ratios that sum to at most one, no count is negative. */
  lemma CountsAreNonNegative(n: int, sc: Scenario)
    requires n >= 0 && 0.0 <= sc.carRatio && 0.0 <= sc.busRatio && sc.carRatio + sc.busRatio <= 1.0
    ensures var c := VehicleCounts(n, sc); c.cars >= 0 && c.buses >= 0 && c.trucks >= 0
  {
    PortionsFit(n as real, sc.carRatio, sc.busRatio);
  }

  /** Two truncated portions by ratios summing to at most one fit in the whole. */
  lemma PortionsFit(m: real, p: real, q: real)
    requires m >= 0.0 && 0.0 <= p && 0.0 <= q && p + q <= 1.0
    ensures 0 <= Portion(m, p) && 0 <= Portion(m, q) && (Portion(m, p) + Portion(m, q)) as real <= m
  {
    assert m * p >= 0.0 && m * q >= 0.0 && m * (1.0 - p - q) >= 0.0;
    assert m * (1.0 - p - q) == m - m * p - m * q;
  }

  lemma DefaultScenarioCounts()
    ensures VehicleCounts(2000, ScenarioOf("low").value) == Counts(1700, 160, 140)
    ensures VehicleCounts(5000, ScenarioOf("moderate").value) == Counts(4000, 500, 500)
    ensures VehicleCounts(10000, ScenarioOf("high").value) == Counts(7500, 1200, 1300)
    ensures VehicleCounts(20000, ScenarioOf("severe").value) == Counts(14000, 3000, 3000)
  {
  }

  // ---------------------------------------------------------------- trips

  datatype Trip = Trip(id: string, vtype: string, depart: real, from: string, to: string)

  /** The type of the vehicle with number `k`: cars first, then buses, then trucks. */
  function KindAt(k: nat, c: Counts): string {
    if k < Runs(c.cars) then "car" else if k < Runs(c.cars) + Runs(c.buses) then "bus" else "truck"
  }

  /** The number of times `range(k)` runs. */
  function Runs(k: int): nat {
    if k > 0 then k else 0
  }

  predicate TripOk(t: Trip, k: nat, kind: string, edges: seq<string>, window: real) {
    && t.id == "bg_" + kind + "_" + NatToString(k) && t.vtype == kind
    && t.from in edges && t.to in edges && t.from != t.to
    && 0.0 <= t.depart <= window
  }

  predicate TwoDistinctEdges(edges: seq<string>) {
    exists i, j :: 0 <= i < |edges| && 0 <= j < |edges| && edges[i] != edges[j]
  }

  /** One of the three generation loops: `count` trips of `kind`, numbered on from `|prior|`. */
  method AppendTrips(edges: seq<string>, kind: string, count: int, window: real, prior: seq<Trip>)
    returns (trips: seq<Trip>)
    requires TwoDistinctEdges(edges) && window >= 0.0
    ensures |trips| == |prior| + Runs(count) && trips[..|prior|] == prior
    ensures forall k :: |prior| <= k < |trips| ==> TripOk(trips[k], k, kind, edges, window)
  {
    trips := prior;
    var vehicleId := |prior|;
    var i := 0;
    while i < count
      invariant 0 <= i && vehicleId == |trips| == |prior| + i
      invariant count > 0 ==> i <= count
      invariant count <= 0 ==> i == 0
      invariant trips[..|prior|] == prior
      invariant forall k :: |prior| <= k < |trips| ==> TripOk(trips[k], k, kind, edges, window)
    {
      var depart :| 0.0 <= depart <= window;
      var a, b :| 0 <= a < |edges| && 0 <= b < |edges| && edges[a] != edges[b];
      var from, to := edges[a], edges[b];
      trips := trips + [Trip("bg_" + kind + "_" + NatToString(vehicleId), kind, depart, from, to)];
      vehicleId := vehicleId + 1;
      i := i + 1;
    }
  }

  /**
   * `generate_vehicle_trips`: None for an unknown scenario (the lookup raises); otherwise
   * the counts and the trips, cars then buses then trucks, numbered 0, 1, ... in that order.
   */
  method GenerateVehicleTrips(edges: seq<string>, scenario: string, custom: Option<int>)
    returns (stats: Option<Counts>, trips: seq<Trip>)
    requires TwoDistinctEdges(edges)
    ensures stats.None? <==> ScenarioOf(scenario).None?
    ensures stats.None? ==> trips == []
    ensures stats.Some? ==> var sc := ScenarioOf(scenario).value;
              && stats.value == VehicleCounts(NumVehicles(custom, sc), sc)
              && |trips| == Runs(stats.value.cars) + Runs(stats.value.buses) + Runs(stats.value.trucks)
              && forall k :: 0 <= k < |trips| ==> TripOk(trips[k], k, KindAt(k, stats.value), edges, sc.departWindow)
    ensures forall i, j :: 0 <= i < j < |trips| ==> trips[i].id != trips[j].id
  {
    var config := ScenarioOf(scenario);
    if config.None? {
      return None, [];
    }
    var sc := config.value;
    var n := NumVehicles(custom, sc);
    var c := VehicleCounts(n, sc);
    var cars := AppendTrips(edges, "car", c.cars, sc.departWindow, []);
    var buses := AppendTrips(edges, "bus", c.buses, sc.departWindow, cars);
    trips := AppendTrips(edges, "truck", c.trucks, sc.departWindow, buses);
    stats := Some(c);
    TripsInKindOrder(cars, buses, trips, c, edges, sc.departWindow);
    TripIdsDistinct(trips, c, edges, sc.departWindow);
  }

  /** The three runs laid end to end number every trip with the kind `KindAt` gives it. */
  lemma TripsInKindOrder(cars: seq<Trip>, buses: seq<Trip>, trips: seq<Trip>, c: Counts, edges: seq<string>, window: real)
    requires |cars| == Runs(c.cars) && forall k :: 0 <= k < |cars| ==> TripOk(cars[k], k, "car", edges, window)
    requires |buses| == |cars| + Runs(c.buses) && buses[..|cars|] == cars
    requires forall k :: |cars| <= k < |buses| ==> TripOk(buses[k], k, "bus", edges, window)
    requires |buses| <= |trips| && trips[..|buses|] == buses
    requires forall k :: |buses| <= k < |trips| ==> TripOk(trips[k], k, "truck", edges, window)
    ensures forall k :: 0 <= k < |trips| ==> TripOk(trips[k], k, KindAt(k, c), edges, window)
  {
    forall k | 0 <= k < |trips|
      ensures TripOk(trips[k], k, KindAt(k, c), edges, window)
    {
      if k < |cars| {
        assert trips[k] == buses[k] == cars[k];
      } else if k < |buses| {
        assert trips[k] == buses[k];
      }
    }
  }

  /** Trip ids are unique: within a kind the numbers differ, and the three kinds differ in the id's fourth character. */
  lemma TripIdsDistinct(trips: seq<Trip>, c: Counts, edges: seq<string>, window: real)
    requires forall k :: 0 <= k < |trips| ==> TripOk(trips[k], k, KindAt(k, c), edges, window)
    ensures forall i, j :: 0 <= i < j < |trips| ==> trips[i].id != trips[j].id
  {
    forall i, j | 0 <= i < j < |trips|
      ensures trips[i].id != trips[j].id
    {
      assert TripOk(trips[i], i, KindAt(i, c), edges, window);
      assert TripOk(trips[j], j, KindAt(j, c), edges, window);
      var p, q := "bg_" + KindAt(i, c) + "_", "bg_" + KindAt(j, c) + "_";
      if KindAt(i, c) == KindAt(j, c) {
        assert trips[i].id[|p|..] == NatToString(i);
        assert trips[j].id[|p|..] == NatToString(j);
        NatToStringInjective(i, j);
      } else {
        assert trips[i].id[3] == p[3] && trips[j].id[3] == q[3];
      }
    }
  }
}
