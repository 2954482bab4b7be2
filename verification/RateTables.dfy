/** Rate tables of one tenant: administration, versioning and the simulations
    that price with them. Every request is one atomic step. */
module RateTables {
  import opened Text
  import opened Pricing
  import opened RateRanges
  import Postal = PostalCoverage

  datatype Service = Service(
    active: bool, carrierActive: bool, cubicFactor: real, minimumValue: real,
    minWeightKg: Option<real>, maxWeightKg: Option<real>)

  datatype StoredCharge = StoredCharge(charge: Charge, active: bool)

  /** A coverage rule belongs to one service, and can be moved to another. */
  datatype Coverage = Coverage(service: nat, rule: Postal.Rule)

  datatype Table = Table(
    service: nat, version: nat, previous: Option<nat>, validFrom: int, validTo: Option<int>, active: bool,
    ranges: seq<Range>, charges: seq<StoredCharge>, coverageIds: seq<nat>)

  /** A request body; the ids of its ranges are ignored. */
  datatype TableInput = TableInput(
    service: nat, validFrom: int, validTo: Option<int>, active: Option<bool>,
    ranges: seq<Range>, charges: seq<StoredCharge>, coverageIds: seq<nat>)

  /** `services` lists the candidate ids in query order. */
  datatype Simulation = Simulation(
    services: seq<nat>, origin: Postal.Address, destination: Postal.Address,
    shipDate: int, cargoValue: real, packages: seq<Package>)

  /** A stored option. The fields from `seenRanges` on are history: what the
      simulation priced with, kept only to state that it is preserved. */
  datatype PricedOption = PricedOption(
    tableId: nat, tableVersion: nat, range: Range, chargeableWeightKg: real, totalPrice: real,
    seenRanges: seq<Range>, seenCharges: seq<StoredCharge>, seenService: Service, simulation: Simulation)

  /** Ids of tables and coverages are positions: neither is ever deleted. */
  datatype Store = Store(
    services: map<nat, Service>, coverages: seq<Coverage>, tables: seq<Table>, options: seq<PricedOption>, nextRangeId: nat)

  datatype Outcome =
    | Done
    | NotFound
    | BadRanges(verdict: Verdict)
    | BadValidity
    | BadCoverages
    | AlreadyUsed
    | VersionTaken
    | NoRanges
    | BadPostalCode
    | NothingEligible

  datatype Action =
    | Create(input: TableInput)
    | Update(id: nat, newInput: TableInput)
    | NewVersion(source: nat)
    | SetStatus(target: nat, active: bool)
    | Simulate(simulation: Simulation)
    | SetService(serviceId: nat, service: Service)
    | AddCoverage(coverage: Coverage)
    | UpdateCoverage(coverageId: nat, newCoverage: Coverage)

  // ---------- Queries ----------

  predicate Used(options: seq<PricedOption>, id: nat) {
    exists i :: 0 <= i < |options| && options[i].tableId == id
  }

  predicate HasVersion(tables: seq<Table>, service: nat, version: nat) {
    exists i :: 0 <= i < |tables| && tables[i].service == service && tables[i].version == version
  }

  /** The highest version of a service, 0 when it has no table. */
  function MaxVersion(tables: seq<Table>, service: nat): (v: nat)
    ensures forall i :: 0 <= i < |tables| && tables[i].service == service ==> tables[i].version <= v
    ensures v == 0 || HasVersion(tables, service, v)
  {
    if tables == [] then 0
    else
      var front, t := tables[..|tables| - 1], tables[|tables| - 1];
      var rest := MaxVersion(front, service);
      assert HasVersion(front, service, rest) ==> HasVersion(tables, service, rest) by {
        if HasVersion(front, service, rest) {
          var i :| 0 <= i < |front| && front[i].service == service && front[i].version == rest;
          assert tables[i] == front[i];
        }
      }
      if t.service == service && t.version > rest then t.version else rest
  }

  /** The unique constraint on service and version. */
  predicate Taken(tables: seq<Table>, service: nat, version: nat, except: int) {
    exists i :: 0 <= i < |tables| && i != except && tables[i].service == service && tables[i].version == version
  }

  predicate CarrierReady(services: map<nat, Service>, service: nat) {
    service in services && services[service].carrierActive
  }

  predicate ValidityOk(validFrom: int, validTo: Option<int>) {
    validTo.None? || validTo.value > validFrom
  }

  /** `findMany({ where: { id: { in: ids }, carrierServiceId } })`: each row once. */
  function Matching(coverages: seq<Coverage>, ids: seq<nat>, service: nat): set<nat> {
    set id | id in ids && id < |coverages| && coverages[id].service == service
  }

  /** Every coverage is one of the service's. */
  predicate Owned(coverages: seq<Coverage>, ids: seq<nat>, service: nat) {
    forall i :: 0 <= i < |ids| ==> ids[i] < |coverages| && coverages[ids[i]].service == service
  }

  predicate Distinct(ids: seq<nat>) {
    forall i, j :: 0 <= i < j < |ids| ==> ids[i] != ids[j]
  }

  predicate InForce(t: Table, service: nat, date: int) {
    t.service == service && t.active && t.validFrom <= date && (t.validTo.None? || t.validTo.value >= date)
  }

  /** The table a simulation takes: the highest version in force. */
  function Current(tables: seq<Table>, service: nat, date: int): (id: Option<nat>)
    ensures id.Some? ==> id.value < |tables| && InForce(tables[id.value], service, date)
    ensures id.Some? ==> forall i :: 0 <= i < |tables| && InForce(tables[i], service, date) ==> tables[i].version <= tables[id.value].version
    ensures id.None? ==> forall i :: 0 <= i < |tables| ==> !InForce(tables[i], service, date)
  {
    if tables == [] then None
    else
      var n := |tables| - 1;
      var rest := Current(tables[..n], service, date);
      if InForce(tables[n], service, date) && (rest.None? || tables[n].version > tables[rest.value].version) then Some(n) else rest
  }

  function ActiveCharges(charges: seq<StoredCharge>): seq<Charge> {
    if charges == [] then []
    else ActiveCharges(charges[..|charges| - 1])
         + if charges[|charges| - 1].active then [charges[|charges| - 1].charge] else []
  }

  /** The ranges as inserted: new ids, and the columns' precision. */
  function Saved(ranges: seq<Range>, next: nat): (r: seq<Range>)
    ensures |r| == |ranges|
  {
    seq(|ranges|, i requires 0 <= i < |ranges| => Kept(ranges[i]).(id := next + i))
  }

  function KeptCharge(c: StoredCharge): StoredCharge {
    c.(charge := c.charge.(
      fixedAmount := if c.charge.fixedAmount.Some? then Some(Money(c.charge.fixedAmount.value)) else None,
      percentage := if c.charge.percentage.Some? then Some(Millionths(c.charge.percentage.value)) else None))
  }

  function SavedCharges(charges: seq<StoredCharge>): (r: seq<StoredCharge>)
    ensures |r| == |charges|
  {
    seq(|charges|, i requires 0 <= i < |charges| => KeptCharge(charges[i]))
  }

  function PriceRequest(sim: Simulation, service: Service, charges: seq<StoredCharge>, rate: Rate): Request {
    Request(sim.cargoValue, ActiveCharges(charges), service.cubicFactor, sim.shipDate, service.minimumValue, sim.packages, rate)
  }

  predicate WithinLimits(service: Service, chargeable: real) {
    (service.minWeightKg.None? || chargeable >= service.minWeightKg.value)
    && (service.maxWeightKg.None? || chargeable <= service.maxWeightKg.value)
  }

  function RulesOf(coverages: seq<Coverage>, service: nat): seq<Postal.Rule> {
    if coverages == [] then []
    else
      var last := coverages[|coverages| - 1];
      RulesOf(coverages[..|coverages| - 1], service) + if last.service == service then [last.rule] else []
  }

  /** Whether the route is covered; None when a badly sized code makes it throw. */
  function Covers(s: Store, sim: Simulation, serviceId: nat): Option<bool> {
    Postal.Eligible(RulesOf(s.coverages, serviceId), sim.origin, sim.destination)
  }

  predicate Listed(s: Store, serviceId: nat) {
    serviceId in s.services && s.services[serviceId].active && s.services[serviceId].carrierActive
  }

  /** What the eligibility loop makes of a covered service: an option or nothing. */
  function Offer(s: Store, sim: Simulation, serviceId: nat): Option<PricedOption>
    requires Listed(s, serviceId)
  {
    var service := s.services[serviceId];
    var chargeable := Chargeable(sim.packages, service.cubicFactor);
    if !WithinLimits(service, chargeable) then None
    else
      var current := Current(s.tables, serviceId, sim.shipDate);
      if current.None? then None
      else
        var table := s.tables[current.value];
        var range := Lookup(table.ranges, chargeable);
        if range.None? then None
        else Some(PricedOption(
                    current.value, table.version, range.value, chargeable,
                    Total(PriceRequest(sim, service, table.charges, range.value.rate)),
                    table.ranges, table.charges, service, sim))
  }

  /** The options of a list of services; None when the loop throws. */
  function Offers(s: Store, sim: Simulation, services: seq<nat>): Option<seq<PricedOption>> {
    if services == [] then Some([])
    else
      var last, before := services[|services| - 1], Offers(s, sim, services[..|services| - 1]);
      if before.None? || !Listed(s, last) then before
      else
        var covered := Covers(s, sim, last);
        if covered.None? then None
        else if !covered.value || Offer(s, sim, last).None? then before
        else Some(before.value + [Offer(s, sim, last).value])
  }

  // ---------- Steps ----------

  function Insertion(s: Store, input: TableInput, previous: Option<nat>): (Store, Outcome) {
    var version := if previous.Some? then MaxVersion(s.tables, input.service) + 1 else 1;
    if Judge(input.ranges) != Accepted then (s, BadRanges(Judge(input.ranges)))
    else if !ValidityOk(input.validFrom, input.validTo) then (s, BadValidity)
    else if !CarrierReady(s.services, input.service) then (s, NotFound)
    else if |Matching(s.coverages, input.coverageIds, input.service)| != |input.coverageIds| then (s, BadCoverages)
    else if Taken(s.tables, input.service, version, -1) then (s, VersionTaken)
    else
      var active := input.active.Some? && input.active.value;
      var table := Table(
        input.service, version, previous, input.validFrom, input.validTo, active,
        Saved(input.ranges, s.nextRangeId), SavedCharges(input.charges), input.coverageIds);
      (s.(tables := s.tables + [table], nextRangeId := s.nextRangeId + |input.ranges|), Done)
  }

  function Replacement(s: Store, id: nat, input: TableInput): (Store, Outcome) {
    if id >= |s.tables| then (s, NotFound)
    else if Used(s.options, id) then (s, AlreadyUsed)
    else if Judge(input.ranges) != Accepted then (s, BadRanges(Judge(input.ranges)))
    else if !ValidityOk(input.validFrom, input.validTo) then (s, BadValidity)
    else if !CarrierReady(s.services, input.service) then (s, NotFound)
    else if |Matching(s.coverages, input.coverageIds, input.service)| != |input.coverageIds| then (s, BadCoverages)
    else if Taken(s.tables, input.service, s.tables[id].version, id) then (s, VersionTaken)
    else
      var kept := s.tables[id];
      var active := if input.active.Some? then input.active.value else kept.active;
      var table := Table(
        input.service, kept.version, kept.previous, input.validFrom, input.validTo, active,
        Saved(input.ranges, s.nextRangeId), SavedCharges(input.charges), input.coverageIds);
      (s.(tables := s.tables[id := table], nextRangeId := s.nextRangeId + |input.ranges|), Done)
  }

  function AsInput(t: Table): TableInput {
    TableInput(t.service, t.validFrom, t.validTo, Some(false), t.ranges, t.charges, t.coverageIds)
  }

  function Apply(s: Store, action: Action): (Store, Outcome) {
    match action
    case Create(input) => Insertion(s, input, None)
    case Update(id, input) => Replacement(s, id, input)
    case NewVersion(id) => if id >= |s.tables| then (s, NotFound) else Insertion(s, AsInput(s.tables[id]), Some(id))
    case SetStatus(id, active) =>
      if id >= |s.tables| then (s, NotFound)
      else if active && s.tables[id].ranges == [] then (s, NoRanges)
      else (s.(tables := s.tables[id := s.tables[id].(active := active)]), Done)
    case Simulate(sim) =>
      var offers := Offers(s, sim, sim.services);
      if offers.None? then (s, BadPostalCode)
      else if offers.value == [] then (s, NothingEligible)
      else (s.(options := s.options + offers.value), Done)
    case SetService(id, service) => (s.(services := s.services[id := service]), Done)
    case AddCoverage(coverage) =>
      if coverage.service !in s.services then (s, NotFound) else (s.(coverages := s.coverages + [coverage]), Done)
    case UpdateCoverage(id, coverage) =>
      if id >= |s.coverages| || coverage.service !in s.services then (s, NotFound)
      else (s.(coverages := s.coverages[id := coverage]), Done)
  }

  function Run(s: Store, actions: seq<Action>): Store
    decreases |actions|
  {
    if actions == [] then s else Run(Apply(s, actions[0]).0, actions[1..])
  }

  // ---------- The store behind the handlers ----------

  class RateTableService {
    var services: map<nat, Service>
    var coverages: seq<Coverage>
    var tables: seq<Table>
    var options: seq<PricedOption>
    var nextRangeId: nat

    function Abs(): Store
      reads this
    {
      Store(services, coverages, tables, options, nextRangeId)
    }

    method CreateRateTable(input: TableInput, previous: Option<nat>) returns (outcome: Outcome)
      modifies this`tables, this`nextRangeId
      ensures (Abs(), outcome) == Insertion(old(Abs()), input, previous)
    {
      var verdict := ValidateRanges(input.ranges);
      if verdict != Accepted {
        return BadRanges(verdict);
      }
      if input.validTo.Some? && input.validTo.value <= input.validFrom {
        return BadValidity;
      }
      if !CarrierReady(services, input.service) {
        return NotFound;
      }
      var found := Matching(coverages, input.coverageIds, input.service);
      if |found| != |input.coverageIds| {
        return BadCoverages;
      }
      var version := 1;
      if previous.Some? {
        version := MaxVersion(tables, input.service) + 1;
      }
      if Taken(tables, input.service, version, -1) {
        return VersionTaken;
      }
      var status := if input.active.Some? then input.active.value else false;
      tables := tables + [Table(
        input.service, version, previous, input.validFrom, input.validTo, status,
        Saved(input.ranges, nextRangeId), SavedCharges(input.charges), input.coverageIds)];
      nextRangeId := nextRangeId + |input.ranges|;
      return Done;
    }

    method UpdateRateTable(id: nat, input: TableInput) returns (outcome: Outcome)
      modifies this`tables, this`nextRangeId
      ensures (Abs(), outcome) == Replacement(old(Abs()), id, input)
    {
      if id >= |tables| {
        return NotFound;
      }
      if Used(options, id) {
        return AlreadyUsed;
      }
      var verdict := ValidateRanges(input.ranges);
      if verdict != Accepted {
        return BadRanges(verdict);
      }
      if input.validTo.Some? && input.validTo.value <= input.validFrom {
        return BadValidity;
      }
      if !CarrierReady(services, input.service) {
        return NotFound;
      }
      var found := Matching(coverages, input.coverageIds, input.service);
      if |found| != |input.coverageIds| {
        return BadCoverages;
      }
      if Taken(tables, input.service, tables[id].version, id) {
        return VersionTaken;
      }
      var status := if input.active.Some? then input.active.value else tables[id].active;
      tables := tables[id := tables[id].(
        service := input.service, validFrom := input.validFrom, validTo := input.validTo, active := status,
        ranges := Saved(input.ranges, nextRangeId), charges := SavedCharges(input.charges), coverageIds := input.coverageIds)];
      nextRangeId := nextRangeId + |input.ranges|;
      return Done;
    }

    method CreateRateTableVersion(id: nat) returns (outcome: Outcome)
      modifies this`tables, this`nextRangeId
      ensures (Abs(), outcome) == Apply(old(Abs()), NewVersion(id))
    {
      if id >= |tables| {
        return NotFound;
      }
      outcome := CreateRateTable(AsInput(tables[id]), Some(id));
    }

    method UpdateRateTableStatus(id: nat, active: bool) returns (outcome: Outcome)
      modifies this`tables
      ensures (Abs(), outcome) == Apply(old(Abs()), SetStatus(id, active))
    {
      if id >= |tables| {
        return NotFound;
      }
      if active && |tables[id].ranges| == 0 {
        return NoRanges;
      }
      tables := tables[id := tables[id].(active := active)];
      return Done;
    }

    method DoUpdateCoverage(id: nat, coverage: Coverage) returns (outcome: Outcome)
      modifies this`coverages
      ensures (Abs(), outcome) == Apply(old(Abs()), UpdateCoverage(id, coverage))
    {
      if id >= |coverages| || coverage.service !in services {
        return NotFound;
      }
      coverages := coverages[id := coverage];
      return Done;
    }

    /** The turn of the eligibility loop for a service that covers the route. */
    method TryService(sim: Simulation, serviceId: nat) returns (offer: Option<PricedOption>)
      requires Listed(Abs(), serviceId)
      ensures offer == Offer(Abs(), sim, serviceId)
    {
      hide Chargeable, Lookup, Total, ActiveCharges, InForce;
      var service := services[serviceId];
      var chargeable := Chargeable(sim.packages, service.cubicFactor);
      if service.minWeightKg.Some? && chargeable < service.minWeightKg.value {
        return None;
      }
      if service.maxWeightKg.Some? && chargeable > service.maxWeightKg.value {
        return None;
      }
      var current := Current(tables, serviceId, sim.shipDate);
      if current.None? {
        return None;
      }
      var table := tables[current.value];
      var range := Lookup(table.ranges, chargeable);
      if range.None? {
        return None;
      }
      var quote := Calculate(PriceRequest(sim, service, table.charges, range.value.rate));
      return Some(PricedOption(
        current.value, table.version, range.value, quote.chargeableWeightKg, quote.totalPrice,
        table.ranges, table.charges, service, sim));
    }

    /** The eligibility loop of a simulation. */
    method CreateSimulation(sim: Simulation) returns (outcome: Outcome)
      modifies this`options
      ensures (Abs(), outcome) == Apply(old(Abs()), Simulate(sim))
    {
      hide Offer, RulesOf, Postal.Eligible;
      var candidates: seq<PricedOption> := [];
      for i := 0 to |sim.services|
        invariant Abs() == old(Abs())
        invariant Offers(Abs(), sim, sim.services[..i]) == Some(candidates)
      {
        assert sim.services[..i + 1][..i] == sim.services[..i];
        var serviceId := sim.services[i];
        if serviceId !in services || !services[serviceId].active || !services[serviceId].carrierActive {
          continue;
        }
        var covered := Postal.Eligible(RulesOf(coverages, serviceId), sim.origin, sim.destination);
        if covered.None? {
          OffersThrow(Abs(), sim, i);
          return BadPostalCode;
        }
        if !covered.value {
          continue;
        }
        var offer := TryService(sim, serviceId);
        if offer.Some? {
          candidates := candidates + [offer.value];
        }
      }
      assert sim.services[..|sim.services|] == sim.services;
      if |candidates| == 0 {
        return NothingEligible;
      }
      options := options + candidates;
      return Done;
    }
  }

  /** One service that throws makes the request fail. */
  lemma {:induction false} OffersThrow(s: Store, sim: Simulation, i: nat)
    requires i < |sim.services| && Offers(s, sim, sim.services[..i + 1]).None?
    ensures Offers(s, sim, sim.services).None?
  {
    OffersStayThrown(s, sim, sim.services, i + 1);
  }

  lemma {:induction false} OffersStayThrown(s: Store, sim: Simulation, services: seq<nat>, k: nat)
    requires k <= |services| && Offers(s, sim, services[..k]).None?
    ensures Offers(s, sim, services).None?
    decreases |services|
  {
    hide Covers, Offer;
    if k == |services| {
      assert services[..k] == services;
    } else {
      var front := services[..|services| - 1];
      assert front[..k] == services[..k];
      OffersStayThrown(s, sim, front, k);
    }
  }

  // ---------- What every run keeps ----------

  /** The option can still be explained, to the cent, by the table it points to. */
  predicate Stands(tables: seq<Table>, o: PricedOption) {
    o.tableId < |tables| &&
    var t := tables[o.tableId];
    && t.version == o.tableVersion && t.ranges == o.seenRanges && t.charges == o.seenCharges
    && Lookup(t.ranges, o.chargeableWeightKg) == Some(o.range)
    && o.range in multiset(t.ranges) && Contains(o.range, o.chargeableWeightKg)
    && o.totalPrice == Total(PriceRequest(o.simulation, o.seenService, t.charges, o.range.rate))
  }

  /** Reading a table and writing it again changes no number of it. */
  predicate InColumns(t: Table) {
    && (forall i :: 0 <= i < |t.ranges| ==> Kept(t.ranges[i]) == t.ranges[i])
    && (forall i :: 0 <= i < |t.charges| ==> KeptCharge(t.charges[i]) == t.charges[i])
  }

  predicate Sound(tables: seq<Table>, id: nat)
    requires id < |tables|
  {
    var t := tables[id];
    && Settled(t.ranges) && InColumns(t) && ValidityOk(t.validFrom, t.validTo) && t.version >= 1 && Distinct(t.coverageIds)
    && (t.previous.Some? ==> t.previous.value < |tables| && tables[t.previous.value].version < t.version)
  }

  predicate TablesSound(tables: seq<Table>) {
    && (forall i :: 0 <= i < |tables| ==> Sound(tables, i))
    && (forall i, j :: 0 <= i < j < |tables| && tables[i].service == tables[j].service ==> tables[i].version != tables[j].version)
  }

  predicate Inv(s: Store) {
    TablesSound(s.tables) && forall i :: 0 <= i < |s.options| ==> Stands(s.tables, s.options[i])
  }

  /** The contents of a table fit to be inserted. */
  predicate Fit(t: Table) {
    Settled(t.ranges) && InColumns(t) && Distinct(t.coverageIds)
  }

  lemma SavedSettled(ranges: seq<Range>, next: nat)
    requires Judge(ranges) == Accepted
    ensures Settled(Saved(ranges, next))
  {
    hide Kept, WellFormed, Apart;
    var r := Saved(ranges, next);
    forall i | 0 <= i < |r|
      ensures r[i].rate.minWeightKg <= r[i].rate.maxWeightKg && r[i].rate.basePrice >= 0.0 && r[i].rate.pricePerKg >= 0.0
    {
      KeptOrder(ranges[i], ranges[i]);
    }
    forall i, j | 0 <= i < j < |r| ensures AtMostTouching(r[i], r[j]) {
      KeptOrder(ranges[i], ranges[j]);
    }
  }

  lemma SavedInColumns(ranges: seq<Range>, next: nat, charges: seq<StoredCharge>)
    ensures forall i :: 0 <= i < |ranges| ==> Kept(Saved(ranges, next)[i]) == Saved(ranges, next)[i]
    ensures forall i :: 0 <= i < |charges| ==> KeptCharge(SavedCharges(charges)[i]) == SavedCharges(charges)[i]
  {
    hide Money, Grams, TenThousandths, Millionths;
    forall i | 0 <= i < |ranges| ensures Kept(Saved(ranges, next)[i]) == Saved(ranges, next)[i] {
      KeptTwice(ranges[i]);
    }
    forall i | 0 <= i < |charges| ensures KeptCharge(SavedCharges(charges)[i]) == SavedCharges(charges)[i] {
      var c := charges[i].charge;
      if c.fixedAmount.Some? { MoneyInCents(c.fixedAmount.value); }
      if c.percentage.Some? { MillionthsTwice(c.percentage.value); }
    }
  }

  lemma {:induction false} MatchingCounts(coverages: seq<Coverage>, ids: seq<nat>, service: nat)
    ensures |Matching(coverages, ids, service)| <= |ids|
    ensures |Matching(coverages, ids, service)| == |ids| <==> Distinct(ids) && Owned(coverages, ids, service)
  {
    hide Matching, Distinct, Owned;
    if ids == [] {
      NoneMatch(coverages, service);
    } else {
      MatchingCounts(coverages, ids[..|ids| - 1], service);
      MatchingLast(coverages, ids, service);
      DistinctLast(ids);
      OwnedLast(coverages, ids, service);
    }
  }

  lemma NoneMatch(coverages: seq<Coverage>, service: nat)
    ensures Matching(coverages, [], service) == {} && Distinct([]) && Owned(coverages, [], service)
  {
  }

  lemma MatchingLast(coverages: seq<Coverage>, ids: seq<nat>, service: nat)
    requires ids != []
    ensures var front, last := ids[..|ids| - 1], ids[|ids| - 1];
      |Matching(coverages, ids, service)| == |Matching(coverages, front, service)|
      + if last !in front && last < |coverages| && coverages[last].service == service then 1 else 0
  {
    var front, last := ids[..|ids| - 1], ids[|ids| - 1];
    var before, all := Matching(coverages, front, service), Matching(coverages, ids, service);
    assert ids == front + [last];
    if last !in front && last < |coverages| && coverages[last].service == service {
      assert all == before + {last};
    } else {
      assert all == before;
    }
  }

  lemma DistinctLast(ids: seq<nat>)
    requires ids != []
    ensures Distinct(ids) <==> Distinct(ids[..|ids| - 1]) && ids[|ids| - 1] !in ids[..|ids| - 1]
  {
  }

  lemma OwnedLast(coverages: seq<Coverage>, ids: seq<nat>, service: nat)
    requires ids != []
    ensures Owned(coverages, ids, service) <==>
      var last := ids[|ids| - 1]; Owned(coverages, ids[..|ids| - 1], service) && last < |coverages| && coverages[last].service == service
  {
    var front := ids[..|ids| - 1];
    forall i | 0 <= i < |front| ensures front[i] == ids[i] {
    }
  }

  /** What the count of rows found decides: the coverages are the service's own and
      none is listed twice. */
  lemma CoverageCheckExact(coverages: seq<Coverage>, ids: seq<nat>, service: nat)
    ensures |Matching(coverages, ids, service)| == |ids| <==> Distinct(ids) && Owned(coverages, ids, service)
  {
    MatchingCounts(coverages, ids, service);
  }

  lemma InsertedFit(s: Store, input: TableInput, previous: Option<nat>)
    requires Insertion(s, input, previous).1 == Done
    ensures var n := Insertion(s, input, previous).0; Fit(n.tables[|s.tables|])
  {
    hide Saved, SavedCharges, Judge, Matching, Settled, Kept, KeptCharge, MaxVersion;
    SavedSettled(input.ranges, s.nextRangeId);
    SavedInColumns(input.ranges, s.nextRangeId, input.charges);
    CoverageCheckExact(s.coverages, input.coverageIds, input.service);
  }

  lemma ReplacedFit(s: Store, id: nat, input: TableInput)
    requires Replacement(s, id, input).1 == Done
    ensures var n := Replacement(s, id, input).0; Fit(n.tables[id])
  {
    hide Saved, SavedCharges, Judge, Matching, Settled, Kept, KeptCharge;
    SavedSettled(input.ranges, s.nextRangeId);
    SavedInColumns(input.ranges, s.nextRangeId, input.charges);
    CoverageCheckExact(s.coverages, input.coverageIds, input.service);
  }

  /** Appending a table of a new version keeps every table and option in order. */
  lemma InsertionKeeps(s: Store, input: TableInput, previous: Option<nat>)
    requires Inv(s)
    requires previous.Some? ==> previous.value < |s.tables| && s.tables[previous.value].service == input.service
    ensures Inv(Insertion(s, input, previous).0)
  {
    hide Lookup, Total, PriceRequest, Judge, Settled, InColumns, Distinct, Matching, Saved, SavedCharges;
    var n := Insertion(s, input, previous).0;
    if n != s {
      InsertedFit(s, input, previous);
      forall i | 0 <= i < |n.tables| ensures Sound(n.tables, i) {
        if i < |s.tables| { assert Sound(s.tables, i); }
      }
      forall i | 0 <= i < |n.options| ensures Stands(n.tables, n.options[i]) {
        assert Stands(s.tables, s.options[i]);
      }
    }
  }

  /** Replacing the contents of a table no option uses. */
  lemma ReplacementKeeps(s: Store, id: nat, input: TableInput)
    requires Inv(s)
    ensures Inv(Replacement(s, id, input).0)
  {
    hide Lookup, Total, PriceRequest, Judge, Settled, InColumns, Distinct, Matching, Saved, SavedCharges;
    var n := Replacement(s, id, input).0;
    if n != s {
      ReplacedFit(s, id, input);
      forall i | 0 <= i < |n.tables| ensures Sound(n.tables, i) {
        assert Sound(s.tables, i) && Sound(s.tables, id);
      }
      forall i | 0 <= i < |n.options| ensures Stands(n.tables, n.options[i]) {
        assert Stands(s.tables, s.options[i]);
        assert s.options[i].tableId != id;
      }
    }
  }

  lemma StatusKeeps(s: Store, id: nat, active: bool)
    requires Inv(s)
    ensures Inv(Apply(s, SetStatus(id, active)).0)
  {
    hide Lookup, Total, PriceRequest, Settled, Kept, KeptCharge, Distinct;
    var n := Apply(s, SetStatus(id, active)).0;
    if id < |s.tables| {
      forall i | 0 <= i < |n.tables| ensures Sound(n.tables, i) {
        assert Sound(s.tables, i);
      }
      forall i | 0 <= i < |n.options| ensures Stands(n.tables, n.options[i]) {
        assert Stands(s.tables, s.options[i]);
      }
    }
  }

  lemma OfferStands(s: Store, sim: Simulation, serviceId: nat)
    requires Listed(s, serviceId) && Offer(s, sim, serviceId).Some?
    ensures Stands(s.tables, Offer(s, sim, serviceId).value)
  {
    hide Total, PriceRequest, Chargeable, Sort, Find;
    var o := Offer(s, sim, serviceId).value;
    var ranges := s.tables[o.tableId].ranges;
    SortPermutes(ranges, ByPriority());
    FindFinds(Sort(ranges, ByPriority()), o.chargeableWeightKg);
  }

  lemma {:induction false} OffersStand(s: Store, sim: Simulation, services: seq<nat>)
    requires Offers(s, sim, services).Some?
    ensures forall i :: 0 <= i < |Offers(s, sim, services).value| ==> Stands(s.tables, Offers(s, sim, services).value[i])
  {
    hide Stands, Offer, Covers;
    if services != [] {
      var last := services[|services| - 1];
      OffersStand(s, sim, services[..|services| - 1]);
      if Listed(s, last) && Offer(s, sim, last).Some? {
        OfferStands(s, sim, last);
      }
    }
  }

  lemma StepKeeps(s: Store, action: Action)
    requires Inv(s)
    ensures Inv(Apply(s, action).0) && s.options <= Apply(s, action).0.options
  {
    hide Stands, TablesSound, Offers, Insertion, Replacement;
    OptionsGrow(s, action);
    match action
    case Create(input) => InsertionKeeps(s, input, None);
    case Update(id, input) => ReplacementKeeps(s, id, input);
    case NewVersion(id) => if id < |s.tables| { InsertionKeeps(s, AsInput(s.tables[id]), Some(id)); }
    case SetStatus(id, active) => StatusKeeps(s, id, active);
    case Simulate(sim) => if Offers(s, sim, sim.services).Some? { OffersStand(s, sim, sim.services); }
    case SetService(_, _) =>
    case AddCoverage(_) =>
    case UpdateCoverage(_, _) =>
  }

  lemma OptionsGrow(s: Store, action: Action)
    ensures s.options <= Apply(s, action).0.options
  {
  }

  /** In every run, from any sound store, every stored option stays explained by
      the table it was priced with, and options are never lost. */
  lemma {:induction false} HistoryPreserved(s: Store, actions: seq<Action>)
    requires Inv(s)
    ensures Inv(Run(s, actions)) && s.options <= Run(s, actions).options
    decreases |actions|
  {
    hide Inv, Apply;
    if actions != [] {
      StepKeeps(s, actions[0]);
      HistoryPreserved(Apply(s, actions[0]).0, actions[1..]);
    }
  }

  /** Between any two moments of a run, the table behind an option has the same
      version, ranges and charges. */
  lemma TableFrozen(s: Store, actions: seq<Action>, i: nat)
    requires Inv(s) && i < |s.options|
    ensures var id, later := s.options[i].tableId, Run(s, actions);
      && id < |s.tables| && id < |later.tables|
      && later.tables[id].version == s.tables[id].version
      && later.tables[id].ranges == s.tables[id].ranges
      && later.tables[id].charges == s.tables[id].charges
  {
    hide Lookup, Total, PriceRequest, TablesSound, Run;
    HistoryPreserved(s, actions);
    var later := Run(s, actions);
    assert later.options[i] == s.options[i];
    assert Stands(s.tables, s.options[i]) && Stands(later.tables, later.options[i]);
  }

  lemma EmptyStoreSound(services: map<nat, Service>)
    ensures Inv(Store(services, [], [], [], 0))
  {
  }

  /** The versions behind a table, newest first. */
  function Chain(tables: seq<Table>, id: nat): seq<nat>
    requires TablesSound(tables) && id < |tables|
    decreases tables[id].version
  {
    assert Sound(tables, id);
    [id] + if tables[id].previous.Some? then Chain(tables, tables[id].previous.value) else []
  }

  /** Version chains are finite and strictly descending. */
  lemma {:induction false} ChainDescends(tables: seq<Table>, id: nat)
    requires TablesSound(tables) && id < |tables|
    ensures var c := Chain(tables, id);
      && 0 < |c| <= tables[id].version && c[0] == id && (forall i :: 0 <= i < |c| ==> c[i] < |tables|)
      && forall i :: 0 < i < |c| ==> tables[c[i]].version < tables[c[i - 1]].version
    decreases tables[id].version
  {
    assert Sound(tables, id);
    if tables[id].previous.Some? {
      ChainDescends(tables, tables[id].previous.value);
    }
  }

  // ---------- Superseding a table ----------

  /** A table, frozen or not, can be superseded exactly while its stored ranges
      would be accepted again, its carrier is active and its coverages are still
      the service's; the copy then holds the same numbers. */
  lemma NewVersionExact(s: Store, id: nat)
    requires Inv(s) && id < |s.tables|
    ensures var t, step := s.tables[id], Apply(s, NewVersion(id));
      && step.1 == (if Judge(t.ranges) != Accepted then BadRanges(Judge(t.ranges))
                    else if !CarrierReady(s.services, t.service) then NotFound
                    else if !Owned(s.coverages, t.coverageIds, t.service) then BadCoverages
                    else Done)
      && (step.1 == Done ==>
            && |step.0.tables| == |s.tables| + 1 && step.0.tables[..|s.tables|] == s.tables
            && var copy := step.0.tables[|s.tables|];
               && copy.service == t.service && copy.validFrom == t.validFrom && copy.validTo == t.validTo
               && copy.previous == Some(id) && copy.version > t.version && !copy.active
               && copy.charges == t.charges && copy.coverageIds == t.coverageIds && |copy.ranges| == |t.ranges|
               && forall i :: 0 <= i < |t.ranges| ==> copy.ranges[i] == t.ranges[i].(id := s.nextRangeId + i))
  {
    hide Stands, Judge, Settled, Matching, Distinct, Owned, Kept, KeptCharge;
    var t := s.tables[id];
    assert Sound(s.tables, id);
    CoverageCheckExact(s.coverages, t.coverageIds, t.service);
    assert SavedCharges(t.charges) == t.charges;
  }

  /** Tables whose bounds were submitted in whole grams are accepted again. */
  lemma GramBoundsAcceptedAgain(ranges: seq<Range>, next: nat)
    requires Judge(ranges) == Accepted && forall i :: 0 <= i < |ranges| ==> InGrams(ranges[i])
    ensures Judge(Saved(ranges, next)) == Accepted
  {
    hide Grams, Money, TenThousandths;
    var r := Saved(ranges, next);
    forall i | 0 <= i < |r| ensures WellFormed(r[i]) {
      assert InGrams(ranges[i]) && WellFormed(ranges[i]);
      KeptOrder(ranges[i], ranges[i]);
    }
    forall i, j | 0 <= i < j < |r| ensures Apart(r[i], r[j]) {
      assert InGrams(ranges[i]) && InGrams(ranges[j]) && Apart(ranges[i], ranges[j]);
    }
  }

  function Bounded(low: real, high: real): Range {
    Range(0, Rate(1.0, 1, None, high, low, 1.0), 0)
  }

  /** Bounds finer than a gram: accepted once, touching in the table, and refused
      when the table is versioned. */
  lemma RoundingBlocksVersion(s: Store, service: nat)
    requires Inv(s) && CarrierReady(s.services, service) && forall i :: 0 <= i < |s.tables| ==> s.tables[i].service != service
    ensures var ranges := [Bounded(0.0, 9.9996), Bounded(10.0004, 20.0)];
      var created := Apply(s, Create(TableInput(service, 0, None, None, ranges, [], [])));
      && created.1 == Done
      && Apply(created.0, NewVersion(|s.tables|)).1 == BadRanges(OverlappingRanges)
  {
    hide Stands, Sound;
    var ranges := [Bounded(0.0, 9.9996), Bounded(10.0004, 20.0)];
    var input := TableInput(service, 0, None, None, ranges, [], []);
    assert Matching(s.coverages, [], service) == {};
    var n := Insertion(s, input, None).0;
    StepKeeps(s, Create(input));
    assert WellFormed(ranges[0]) && WellFormed(ranges[1]) && Apart(ranges[0], ranges[1]);
    var stored := n.tables[|s.tables|].ranges;
    assert stored == Saved(ranges, s.nextRangeId);
    assert stored[0].rate.maxWeightKg == 10.0 && stored[1].rate.minWeightKg == 10.0;
    assert stored[0].rate.minWeightKg == 0.0 && stored[1].rate.maxWeightKg == 20.0;
    assert !Apart(stored[0], stored[1]);
    NewVersionExact(n, |s.tables|);
  }

  /** A coverage moved to another service blocks the version too, with the
      carrier active. */
  lemma MovedCoverageBlocksVersion(s: Store, id: nat, at: nat, elsewhere: nat)
    requires Inv(s) && id < |s.tables| && Apply(s, NewVersion(id)).1 == Done
    requires at < |s.tables[id].coverageIds| && elsewhere in s.services && elsewhere != s.tables[id].service
    ensures var c := s.tables[id].coverageIds[at];
      c < |s.coverages| && Apply(Apply(s, UpdateCoverage(c, s.coverages[c].(service := elsewhere))).0, NewVersion(id)).1 == BadCoverages
  {
    hide Stands, Judge, Insertion, Sound;
    NewVersionExact(s, id);
    var c := s.tables[id].coverageIds[at];
    var moved := UpdateCoverage(c, s.coverages[c].(service := elsewhere));
    StepKeeps(s, moved);
    NewVersionExact(Apply(s, moved).0, id);
  }

  // ---------- Lookup in stored tables ----------

  /** In a stored table the reading order matters for a weight exactly where one
      range ends and another begins, which rounding alone can bring about. */
  lemma StoredLookup(s: Store, id: nat, weight: real)
    requires Inv(s) && id < |s.tables|
    ensures var ranges := s.tables[id].ranges;
      (forall t :: multiset(t) == multiset(ranges) ==> Find(t, weight) == Find(ranges, weight)) <==>
        !exists x, y :: x in ranges && y in ranges && x != y && weight == x.rate.maxWeightKg == y.rate.minWeightKg
  {
    hide Stands, Find, Settled;
    assert Sound(s.tables, id);
    SettledLookup(s.tables[id].ranges, weight);
  }
}
