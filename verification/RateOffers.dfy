/** Which tables may be created and changed, and which table, range and charges a
    simulation prices with. */
module RateOffers {
  import opened Text
  import opened Pricing
  import opened RateRanges
  import opened RateTables
  import Postal = PostalCoverage

  // ---------- What an offer is made from ----------

  /** An offer comes from an active table of the service that is valid on the ship
      date, the newest such, and from a range of it that holds the weight, within
      the limits of the service. */
  lemma OfferMeans(s: Store, sim: Simulation, serviceId: nat)
    requires Listed(s, serviceId) && Offer(s, sim, serviceId).Some?
    ensures var o := Offer(s, sim, serviceId).value;
      && o.tableId < |s.tables|
      && var t, service := s.tables[o.tableId], s.services[serviceId];
         && t.active && t.service == serviceId && t.validFrom <= sim.shipDate && (t.validTo.Some? ==> sim.shipDate <= t.validTo.value)
         && o.tableVersion == t.version
         && (forall i :: 0 <= i < |s.tables| && s.tables[i].active && s.tables[i].service == serviceId
                         && s.tables[i].validFrom <= sim.shipDate && (s.tables[i].validTo.Some? ==> sim.shipDate <= s.tables[i].validTo.value)
                         ==> s.tables[i].version <= t.version)
         && o.range in t.ranges && o.range.rate.minWeightKg <= o.chargeableWeightKg <= o.range.rate.maxWeightKg
         && o.chargeableWeightKg == Chargeable(sim.packages, service.cubicFactor)
         && (service.minWeightKg.Some? ==> service.minWeightKg.value <= o.chargeableWeightKg)
         && (service.maxWeightKg.Some? ==> o.chargeableWeightKg <= service.maxWeightKg.value)
  {
    hide Chargeable, Total, PriceRequest, Lookup;
    var o := Offer(s, sim, serviceId).value;
    LookupPrefers(s.tables[o.tableId].ranges, o.chargeableWeightKg);
  }

  /** It is priced with that range, the table's active charges and the service's own
      cubic factor and minimum. */
  lemma OfferPrice(s: Store, sim: Simulation, serviceId: nat)
    requires Listed(s, serviceId) && Offer(s, sim, serviceId).Some?
    ensures var o := Offer(s, sim, serviceId).value;
      var service := s.services[serviceId];
      && o.tableId < |s.tables|
      && o.totalPrice == TotalFor(
           Request(sim.cargoValue, ActiveCharges(s.tables[o.tableId].charges), service.cubicFactor, sim.shipDate,
                   service.minimumValue, sim.packages, o.range.rate),
           Chargeable(sim.packages, service.cubicFactor))
  {
    hide Chargeable, TotalFor, Lookup, InForce, ActiveCharges;
  }

  /** No offer is made exactly when the weight is outside the limits, no table
      applies, or the newest one that does has no range for the weight. */
  lemma NoOfferMeans(s: Store, sim: Simulation, serviceId: nat)
    requires Listed(s, serviceId)
    ensures var service := s.services[serviceId];
      var weight, current := Chargeable(sim.packages, service.cubicFactor), Current(s.tables, serviceId, sim.shipDate);
      Offer(s, sim, serviceId).None? <==>
        || (service.minWeightKg.Some? && weight < service.minWeightKg.value)
        || (service.maxWeightKg.Some? && weight > service.maxWeightKg.value)
        || current.None?
        || !exists r :: r in s.tables[current.value].ranges && r.rate.minWeightKg <= weight <= r.rate.maxWeightKg
  {
    hide Chargeable, Total, PriceRequest, Lookup, InForce;
    var current := Current(s.tables, serviceId, sim.shipDate);
    if current.Some? {
      LookupPrefers(s.tables[current.value].ranges, Chargeable(sim.packages, s.services[serviceId].cubicFactor));
    }
  }

  /** Only the active charges of the table are priced, in their order. */
  lemma {:induction false} ChargesPriced(a: seq<StoredCharge>, b: seq<StoredCharge>)
    ensures ActiveCharges(a + b) == ActiveCharges(a) + ActiveCharges(b)
    ensures |b| == 1 ==> ActiveCharges(b) == if b[0].active then [b[0].charge] else []
    decreases |b|
  {
    if b == [] {
      assert a + b == a;
    } else {
      var front, last := b[..|b| - 1], b[|b| - 1];
      ChargesPriced(a, front);
      assert (a + b)[..|a + b| - 1] == a + front && (a + b)[|a + b| - 1] == last;
    }
  }

  lemma {:induction false} RulesAreTheServices(coverages: seq<Coverage>, service: nat, rule: Postal.Rule)
    ensures rule in RulesOf(coverages, service) <==> Coverage(service, rule) in coverages
  {
    if coverages != [] {
      RulesAreTheServices(coverages[..|coverages| - 1], service, rule);
      assert coverages == coverages[..|coverages| - 1] + [coverages[|coverages| - 1]];
    }
  }

  /** A simulation's options are the offers of the active services of active carriers
      that cover the route, and all of them. */
  lemma {:induction false} OptionsMean(s: Store, sim: Simulation, services: seq<nat>, o: PricedOption)
    requires Offers(s, sim, services).Some?
    ensures o in Offers(s, sim, services).value <==>
      exists id :: id in services && id in s.services && s.services[id].active && s.services[id].carrierActive
                   && Postal.Eligible(RulesOf(s.coverages, id), sim.origin, sim.destination) == Some(true)
                   && Offer(s, sim, id) == Some(o)
  {
    hide Offer, RulesOf, Postal.Eligible;
    if services != [] {
      OptionsMean(s, sim, services[..|services| - 1], o);
      assert services == services[..|services| - 1] + [services[|services| - 1]];
    }
  }

  /** The request fails exactly when a listed service cannot tell whether it covers
      the route. */
  lemma {:induction false} RejectionMeans(s: Store, sim: Simulation, services: seq<nat>)
    ensures Offers(s, sim, services).None? <==>
      exists id :: id in services && Listed(s, id) && Covers(s, sim, id).None?
  {
    hide Offer, Covers, Listed;
    if services != [] {
      RejectionMeans(s, sim, services[..|services| - 1]);
      assert services == services[..|services| - 1] + [services[|services| - 1]];
    }
  }

  // ---------- Deactivated tables ----------

  /** Nothing in the run turns the table on again or rewrites it. */
  predicate LeavesOff(actions: seq<Action>, id: nat) {
    forall i :: 0 <= i < |actions| ==>
      && !(actions[i].SetStatus? && actions[i].target == id && actions[i].active)
      && !(actions[i].Update? && actions[i].id == id)
  }

  lemma StaysOff(s: Store, action: Action, id: nat)
    requires id < |s.tables| && !s.tables[id].active && LeavesOff([action], id)
    ensures var n := Apply(s, action).0; id < |n.tables| && !n.tables[id].active && s.options <= n.options
  {
    hide Offers, Judge, MaxVersion, Matching, Saved, SavedCharges;
    assert [action][0] == action;
    OptionsGrow(s, action);
  }

  lemma {:induction false} OffersAvoid(s: Store, sim: Simulation, services: seq<nat>, id: nat)
    requires id < |s.tables| && !s.tables[id].active && Offers(s, sim, services).Some?
    ensures forall o :: o in Offers(s, sim, services).value ==> o.tableId != id
  {
    forall o | o in Offers(s, sim, services).value ensures o.tableId != id {
      OptionsMean(s, sim, services, o);
      var service :| service in services && Listed(s, service) && Offer(s, sim, service) == Some(o);
      OfferMeans(s, sim, service);
    }
  }

  lemma StepAvoids(s: Store, action: Action, id: nat)
    requires id < |s.tables| && !s.tables[id].active
    ensures var n := Apply(s, action).0.options;
      |s.options| <= |n| && forall i :: |s.options| <= i < |n| ==> n[i].tableId != id
  {
    hide Offers, Insertion, Replacement;
    if action.Simulate? && Offers(s, action.simulation, action.simulation.services).Some? {
      OffersAvoid(s, action.simulation, action.simulation.services, id);
    }
    InsertionKeepsOptions(s, action);
  }

  lemma InsertionKeepsOptions(s: Store, action: Action)
    ensures !action.Simulate? ==> Apply(s, action).0.options == s.options
  {
  }

  /** A table that is off prices nothing, in any run that does not turn it on or
      rewrite it. */
  lemma {:induction false} DeactivatedNeverPrices(s: Store, actions: seq<Action>, id: nat)
    requires id < |s.tables| && !s.tables[id].active && LeavesOff(actions, id)
    ensures var n := Run(s, actions).options;
      |s.options| <= |n| && forall i :: |s.options| <= i < |n| ==> n[i].tableId != id
    decreases |actions|
  {
    hide Apply;
    if actions != [] {
      var next := Apply(s, actions[0]).0;
      assert LeavesOff([actions[0]], id);
      StaysOff(s, actions[0], id);
      StepAvoids(s, actions[0], id);
      DeactivatedNeverPrices(next, actions[1..], id);
      var n := Run(next, actions[1..]).options;
      LaterOptions(next, actions[1..]);
    }
  }

  lemma {:induction false} LaterOptions(s: Store, actions: seq<Action>)
    ensures s.options <= Run(s, actions).options
    decreases |actions|
  {
    hide Apply;
    if actions != [] {
      OptionsGrow(s, actions[0]);
      LaterOptions(Apply(s, actions[0]).0, actions[1..]);
    }
  }

  /** A new version is inserted off, so simulations go on with the old one until it
      is turned on. */
  lemma NewVersionWaits(s: Store, id: nat, sim: Simulation, serviceId: nat)
    requires id < |s.tables| && Apply(s, NewVersion(id)).1 == Done && Listed(s, serviceId)
    ensures var n := Apply(s, NewVersion(id)).0; Listed(n, serviceId) && Offer(n, sim, serviceId) == Offer(s, sim, serviceId)
  {
    hide Chargeable, Lookup, Total, PriceRequest, Judge, MaxVersion, Matching, Saved, SavedCharges;
    var n := Apply(s, NewVersion(id)).0;
    var last := n.tables[|s.tables|];
    assert n.tables == s.tables + [last] && !last.active;
    OffTableIgnored(s.tables, last, serviceId, sim.shipDate);
  }

  lemma OffTableIgnored(tables: seq<Table>, t: Table, service: nat, date: int)
    requires !t.active
    ensures Current(tables + [t], service, date) == Current(tables, service, date)
  {
    assert (tables + [t])[..|tables|] == tables;
  }

  // ---------- Administration ----------

  /** A table is created exactly when its ranges are accepted, it ends after it
      starts, the carrier of its service is active, its coverages are the service's
      own and its version is free; and then it holds what was submitted. */
  lemma CreatedMeans(s: Store, input: TableInput, previous: Option<nat>)
    ensures var (n, outcome) := Insertion(s, input, previous);
      var version := if previous.Some? then MaxVersion(s.tables, input.service) + 1 else 1;
      && (outcome == Done <==>
            && Judge(input.ranges) == Accepted && (input.validTo.Some? ==> input.validFrom < input.validTo.value)
            && input.service in s.services && s.services[input.service].carrierActive
            && Distinct(input.coverageIds) && Owned(s.coverages, input.coverageIds, input.service)
            && !HasVersion(s.tables, input.service, version))
      && (outcome != Done ==> n == s)
      && (outcome == Done ==>
            && |n.tables| == |s.tables| + 1 && n.tables[..|s.tables|] == s.tables && n.options == s.options
            && var t := n.tables[|s.tables|];
               && t.service == input.service && t.validFrom == input.validFrom && t.validTo == input.validTo
               && t.version == version && t.previous == previous && t.coverageIds == input.coverageIds
               && t.active == (input.active == Some(true))
               && |t.ranges| == |input.ranges| && |t.charges| == |input.charges|)
  {
    hide Judge, MaxVersion, Matching, Distinct, Owned, Saved, SavedCharges;
    CoverageCheckExact(s.coverages, input.coverageIds, input.service);
  }

  /** A table is rewritten exactly when no option uses it and it could be created so,
      and keeps its version and ancestor. */
  lemma UpdatedMeans(s: Store, id: nat, input: TableInput)
    requires id < |s.tables|
    ensures var (n, outcome) := Replacement(s, id, input);
      && (outcome == Done <==>
            && (forall i :: 0 <= i < |s.options| ==> s.options[i].tableId != id)
            && Judge(input.ranges) == Accepted && (input.validTo.Some? ==> input.validFrom < input.validTo.value)
            && input.service in s.services && s.services[input.service].carrierActive
            && Distinct(input.coverageIds) && Owned(s.coverages, input.coverageIds, input.service)
            && forall i :: 0 <= i < |s.tables| && i != id && s.tables[i].service == input.service ==> s.tables[i].version != s.tables[id].version)
      && (outcome != Done ==> n == s)
      && (outcome == Done ==>
            && |n.tables| == |s.tables| && n.options == s.options && (forall i :: 0 <= i < |s.tables| && i != id ==> n.tables[i] == s.tables[i])
            && var t, was := n.tables[id], s.tables[id];
               && t.service == input.service && t.validFrom == input.validFrom && t.validTo == input.validTo
               && t.version == was.version && t.previous == was.previous && t.coverageIds == input.coverageIds
               && t.active == (if input.active.Some? then input.active.value else was.active)
               && |t.ranges| == |input.ranges| && |t.charges| == |input.charges|)
  {
    hide Judge, Matching, Distinct, Owned, Saved, SavedCharges;
    CoverageCheckExact(s.coverages, input.coverageIds, input.service);
  }

  /** The ranges and charges as stored: to the precision of their columns, with new
      range ids that no other range has. */
  lemma StoredMeans(ranges: seq<Range>, next: nat, charges: seq<StoredCharge>, i: nat)
    ensures i < |ranges| ==> Saved(ranges, next)[i].id == next + i && Saved(ranges, next)[i].rate == Kept(ranges[i]).rate
                             && Saved(ranges, next)[i].priority == ranges[i].priority
    ensures i < |charges| ==>
      var c, k := charges[i], SavedCharges(charges)[i];
      && k.active == c.active && k.charge.kind == c.charge.kind && k.charge.name == c.charge.name
      && (c.charge.fixedAmount.Some? <==> k.charge.fixedAmount.Some?) && (c.charge.percentage.Some? <==> k.charge.percentage.Some?)
      && -0.005 <= OrZero(k.charge.fixedAmount) - OrZero(c.charge.fixedAmount) <= 0.005
      && -0.0000005 <= OrZero(k.charge.percentage) - OrZero(c.charge.percentage) <= 0.0000005
  {
    if i < |charges| {
      RoundClose(OrZero(charges[i].charge.fixedAmount) * 100.0);
      RoundClose(OrZero(charges[i].charge.percentage) * 1000000.0);
    }
  }

  /** A status request changes the status of one table, and turns on none without ranges. */
  lemma StatusMeans(s: Store, id: nat, active: bool)
    requires id < |s.tables|
    ensures var (n, outcome) := Apply(s, SetStatus(id, active));
      && (outcome == Done <==> !active || |s.tables[id].ranges| > 0)
      && (outcome == Done ==> n == s.(tables := s.tables[id := s.tables[id].(active := active)]))
      && (outcome != Done ==> n == s)
  {
  }

  /** A service is offered while it and its carrier are active, whatever it was
      before; the other services are not touched. */
  lemma ServiceChangeMeans(s: Store, id: nat, service: Service, other: nat, sim: Simulation)
    ensures var n := Apply(s, SetService(id, service)).0;
      && (Listed(n, id) <==> service.active && service.carrierActive)
      && (other != id ==> (Listed(n, other) <==> Listed(s, other)))
      && (other != id && Listed(s, other) ==> Offer(n, sim, other) == Offer(s, sim, other) && Covers(n, sim, other) == Covers(s, sim, other))
  {
    hide Chargeable, Current, Lookup, Total, PriceRequest, RulesOf, Postal.Eligible;
  }

  /** A new coverage adds its rule, after the others, to its own service only. */
  lemma AddCoverageMeans(s: Store, coverage: Coverage, id: nat)
    ensures var (n, outcome) := Apply(s, AddCoverage(coverage));
      && (outcome == Done <==> coverage.service in s.services)
      && (outcome == Done ==>
            RulesOf(n.coverages, id) == RulesOf(s.coverages, id) + if id == coverage.service then [coverage.rule] else [])
      && (outcome != Done ==> n == s)
  {
    assert (s.coverages + [coverage])[..|s.coverages|] == s.coverages;
  }
}
