/** The shipment tracking machine: an append-only event log over a cyclic
    transition graph, with the current status kept beside it. */
module Tracking {
  import opened Text

  datatype Status =
    | CREATED | PICKUP_SCHEDULED | PICKED_UP | IN_TRANSIT | ARRIVED_AT_HUB | OUT_FOR_DELIVERY
    | DELIVERED | DELIVERY_FAILED | RETURNING | RETURNED | CANCELED

  function Transitions(s: Status): set<Status> {
    match s
    case CREATED => {PICKUP_SCHEDULED, CANCELED}
    case PICKUP_SCHEDULED => {PICKED_UP, CANCELED}
    case PICKED_UP => {IN_TRANSIT, CANCELED}
    case IN_TRANSIT => {ARRIVED_AT_HUB, OUT_FOR_DELIVERY, RETURNING, CANCELED}
    case ARRIVED_AT_HUB => {OUT_FOR_DELIVERY, IN_TRANSIT, RETURNING}
    case OUT_FOR_DELIVERY => {DELIVERED, DELIVERY_FAILED, RETURNING}
    case DELIVERY_FAILED => {OUT_FOR_DELIVERY, RETURNING}
    case RETURNING => {RETURNED}
    case DELIVERED => {}
    case RETURNED => {}
    case CANCELED => {}
  }

  predicate IsValidTransition(current: Status, next: Status) {
    current == next || next in Transitions(current)
  }

  /** `recordedAt` is the clock at insertion; `occurredAt` comes from the client. */
  datatype Event = Event(status: Option<Status>, occurredAt: int, recordedAt: int, key: Option<string>)

  datatype Input = Input(status: Option<Status>, occurredAt: int, key: Option<string>)

  datatype Shipment = Shipment(status: Status, deliveredAt: Option<int>, events: seq<Event>)

  datatype Outcome = Recorded | InvalidTransition | Duplicate

  const NEW := Shipment(CREATED, None, [])

  function TrimKey(key: Option<string>): Option<string> {
    if key.Some? then Some(Trim(key.value)) else None
  }

  /** The unique constraint on shipment and idempotency key; absent keys never clash. */
  predicate KeyTaken(events: seq<Event>, key: Option<string>) {
    key.Some? && exists i :: 0 <= i < |events| && events[i].key == key
  }

  function Record(s: Shipment, input: Input, now: int): (Shipment, Outcome) {
    if input.status.Some? && !IsValidTransition(s.status, input.status.value) then (s, InvalidTransition)
    else if KeyTaken(s.events, TrimKey(input.key)) then (s, Duplicate)
    else
      var events := s.events + [Event(input.status, input.occurredAt, now, TrimKey(input.key))];
      if input.status.None? then (s.(events := events), Recorded)
      else
        var deliveredAt := if input.status.value == DELIVERED then Some(now) else s.deliveredAt;
        (Shipment(input.status.value, deliveredAt, events), Recorded)
  }

  function Run(s: Shipment, inputs: seq<(Input, int)>): Shipment
    decreases |inputs|
  {
    if inputs == [] then s else Run(Record(s, inputs[0].0, inputs[0].1).0, inputs[1..])
  }

  /** The stored shipment and its event table. */
  class ShipmentRecord {
    var status: Status
    var deliveredAt: Option<int>
    var events: seq<Event>

    function Abs(): Shipment
      reads this
    {
      Shipment(status, deliveredAt, events)
    }

    constructor ()
      ensures Abs() == NEW
    {
      status, deliveredAt, events := CREATED, None, [];
    }

    method CreateTrackingEvent(input: Input, now: int) returns (outcome: Outcome)
      modifies this
      ensures (Abs(), outcome) == Record(old(Abs()), input, now)
    {
      if input.status.Some? && !IsValidTransition(status, input.status.value) {
        return InvalidTransition;
      }
      var key := TrimKey(input.key);
      if KeyTaken(events, key) {
        return Duplicate;
      }
      events := events + [Event(input.status, input.occurredAt, now, key)];
      if input.status.Some? {
        if input.status.value == DELIVERED {
          deliveredAt := Some(now);
        }
        status := input.status.value;
      }
      return Recorded;
    }
  }

  // ---------- The log explains the record ----------

  /** The statuses the log reports, in insertion order, from creation on. */
  function Trail(events: seq<Event>): (t: seq<Status>)
    ensures |t| >= 1 && t[0] == CREATED
  {
    if events == [] then [CREATED]
    else
      var last := events[|events| - 1];
      Trail(events[..|events| - 1]) + if last.status.Some? then [last.status.value] else []
  }

  function LastDelivery(events: seq<Event>): Option<int> {
    if events == [] then None
    else
      var last := events[|events| - 1];
      if last.status == Some(DELIVERED) then Some(last.recordedAt) else LastDelivery(events[..|events| - 1])
  }

  predicate IsPath(trail: seq<Status>) {
    forall i :: 0 < i < |trail| ==> IsValidTransition(trail[i - 1], trail[i])
  }

  predicate KeysDistinct(events: seq<Event>) {
    forall i, j :: 0 <= i < j < |events| && events[i].key.Some? ==> events[i].key != events[j].key
  }

  predicate Inv(s: Shipment) {
    var trail := Trail(s.events);
    && s.status == trail[|trail| - 1]
    && IsPath(trail)
    && s.deliveredAt == LastDelivery(s.events)
    && (s.deliveredAt.Some? <==> s.status == DELIVERED)
    && KeysDistinct(s.events)
    && Embeds(Required(s.status), trail)
  }

  /** `goals` occurs in `trail` in order, perhaps with other statuses between. */
  predicate Embeds(goals: seq<Status>, trail: seq<Status>)
    decreases |trail|
  {
    if goals == [] then true
    else if trail == [] then false
    else
      || (goals[|goals| - 1] == trail[|trail| - 1] && Embeds(goals[..|goals| - 1], trail[..|trail| - 1]))
      || Embeds(goals, trail[..|trail| - 1])
  }

  /** What a shipment in each status must have been through. */
  function Required(s: Status): seq<Status> {
    match s
    case CREATED => [CREATED]
    case CANCELED => [CREATED, CANCELED]
    case PICKUP_SCHEDULED => [CREATED, PICKUP_SCHEDULED]
    case PICKED_UP => [CREATED, PICKUP_SCHEDULED, PICKED_UP]
    case IN_TRANSIT => [CREATED, PICKUP_SCHEDULED, PICKED_UP, IN_TRANSIT]
    case ARRIVED_AT_HUB => [CREATED, PICKUP_SCHEDULED, PICKED_UP, IN_TRANSIT, ARRIVED_AT_HUB]
    case RETURNING => [CREATED, PICKUP_SCHEDULED, PICKED_UP, IN_TRANSIT, RETURNING]
    case RETURNED => [CREATED, PICKUP_SCHEDULED, PICKED_UP, IN_TRANSIT, RETURNING, RETURNED]
    case OUT_FOR_DELIVERY => [CREATED, PICKUP_SCHEDULED, PICKED_UP, IN_TRANSIT, OUT_FOR_DELIVERY]
    case DELIVERY_FAILED => [CREATED, PICKUP_SCHEDULED, PICKED_UP, IN_TRANSIT, OUT_FOR_DELIVERY, DELIVERY_FAILED]
    case DELIVERED => [CREATED, PICKUP_SCHEDULED, PICKED_UP, IN_TRANSIT, OUT_FOR_DELIVERY, DELIVERED]
  }

  lemma EmbedsLonger(goals: seq<Status>, trail: seq<Status>, s: Status)
    ensures Embeds(goals, trail) ==> Embeds(goals, trail + [s])
    ensures Embeds(goals, trail) ==> Embeds(goals + [s], trail + [s])
  {
    assert (trail + [s])[..|trail|] == trail && (goals + [s])[..|goals|] == goals;
  }

  lemma {:induction false} EmbedsShorter(goals: seq<Status>, trail: seq<Status>)
    requires goals != [] && Embeds(goals, trail)
    ensures Embeds(goals[..|goals| - 1], trail)
    decreases |trail|
  {
    var front := trail[..|trail| - 1];
    assert front + [trail[|trail| - 1]] == trail;
    if Embeds(goals, front) {
      EmbedsShorter(goals, front);
    }
    EmbedsLonger(goals[..|goals| - 1], front, trail[|trail| - 1]);
  }

  lemma {:induction false} EmbedsPrefix(goals: seq<Status>, trail: seq<Status>, k: nat)
    requires k <= |goals| && Embeds(goals, trail)
    ensures Embeds(goals[..k], trail)
    decreases |goals|
  {
    if k == |goals| {
      assert goals[..k] == goals;
    } else {
      EmbedsShorter(goals, trail);
      EmbedsPrefix(goals[..|goals| - 1], trail, k);
      assert goals[..|goals| - 1][..k] == goals[..k];
    }
  }

  /** Along an edge the required itinerary keeps a prefix and gains the target. */
  lemma EdgeShape(current: Status, next: Status)
    requires next in Transitions(current)
    ensures var a, b := Required(current), Required(next);
      0 < |b| <= |a| + 1 && b == a[..|b| - 1] + [next]
  {
    match current
    case CREATED =>
    case PICKUP_SCHEDULED =>
    case PICKED_UP =>
    case IN_TRANSIT =>
    case ARRIVED_AT_HUB =>
    case OUT_FOR_DELIVERY =>
    case DELIVERY_FAILED =>
    case RETURNING =>
  }

  lemma ItineraryGrows(current: Status, next: Status, trail: seq<Status>)
    requires IsValidTransition(current, next) && Embeds(Required(current), trail)
    ensures Embeds(Required(next), trail + [next])
  {
    hide Embeds, Required, Transitions;
    var a, b := Required(current), Required(next);
    if current == next {
      EmbedsLonger(a, trail, next);
    } else {
      EdgeShape(current, next);
      EmbedsPrefix(a, trail, |b| - 1);
      EmbedsLonger(a[..|b| - 1], trail, next);
    }
  }

  lemma Appended(events: seq<Event>, e: Event)
    ensures Trail(events + [e]) == Trail(events) + if e.status.Some? then [e.status.value] else []
    ensures LastDelivery(events + [e]) == if e.status == Some(DELIVERED) then Some(e.recordedAt) else LastDelivery(events)
  {
    assert (events + [e])[..|events|] == events;
  }

  lemma RecordKeeps(s: Shipment, input: Input, now: int)
    requires Inv(s)
    ensures Inv(Record(s, input, now).0)
  {
    hide Embeds, Required, TrimKey, Trail, LastDelivery, Transitions;
    var n := Record(s, input, now).0;
    if n != s {
      var trail := Trail(s.events);
      Appended(s.events, n.events[|s.events|]);
      if input.status.Some? {
        var next := input.status.value;
        ItineraryGrows(s.status, next, trail);
        Sinks();
        assert IsPath(trail + [next]);
      } else {
        assert trail + [] == trail;
      }
    }
  }

  lemma Sinks()
    ensures Transitions(DELIVERED) == {} && Transitions(RETURNED) == {} && Transitions(CANCELED) == {}
  {
  }

  /** In every run of every shipment the record agrees with its log: the status
      is the last one logged, the log is a path of the graph that went through
      every required stop, and the delivery time is that of the last delivery. */
  lemma {:induction false} LogExplainsRecord(s: Shipment, inputs: seq<(Input, int)>)
    requires Inv(s)
    ensures Inv(Run(s, inputs)) && s.events <= Run(s, inputs).events
    decreases |inputs|
  {
    if inputs != [] {
      hide Inv;
      RecordKeeps(s, inputs[0].0, inputs[0].1);
      LogExplainsRecord(Record(s, inputs[0].0, inputs[0].1).0, inputs[1..]);
    }
  }

  lemma NewShipmentSound()
    ensures Inv(NEW)
  {
    assert [CREATED][..0] == [];
  }

  /** A delivered shipment was scheduled, picked up, moved and taken out for
      delivery, in that order. */
  lemma DeliveredItinerary(inputs: seq<(Input, int)>)
    requires Run(NEW, inputs).status == DELIVERED
    ensures Embeds([CREATED, PICKUP_SCHEDULED, PICKED_UP, IN_TRANSIT, OUT_FOR_DELIVERY, DELIVERED], Trail(Run(NEW, inputs).events))
    ensures Run(NEW, inputs).deliveredAt.Some?
  {
    NewShipmentSound();
    LogExplainsRecord(NEW, inputs);
  }

  /** Terminal statuses are absorbing, whatever is reported later. */
  lemma {:induction false} TerminalAbsorbs(s: Shipment, inputs: seq<(Input, int)>)
    requires s.status in {DELIVERED, RETURNED, CANCELED}
    ensures Run(s, inputs).status == s.status
    decreases |inputs|
  {
    if inputs != [] {
      TerminalAbsorbs(Record(s, inputs[0].0, inputs[0].1).0, inputs[1..]);
    }
  }

  // ---------- The required stops are enough ----------

  /** Reporting the stops one after the other, with no key. */
  function Visit(stops: seq<Status>): seq<(Input, int)> {
    seq(|stops|, i requires 0 <= i < |stops| => (Input(Some(stops[i]), 0, None), 0))
  }

  lemma {:induction false} RunOneMore(s: Shipment, inputs: seq<(Input, int)>, last: (Input, int))
    ensures Run(s, inputs + [last]) == Record(Run(s, inputs), last.0, last.1).0
    decreases |inputs|
  {
    hide Record;
    if inputs == [] {
      assert inputs + [last] == [last] && [last][1..] == [];
    } else {
      RunOneMore(Record(s, inputs[0].0, inputs[0].1).0, inputs[1..], last);
      assert (inputs + [last])[1..] == inputs[1..] + [last];
    }
  }

  /** From creation, the stops required of a status, and no others, lead to it. */
  lemma {:induction false} ItinerarySuffices(target: Status)
    ensures Run(NEW, Visit(Required(target)[1..])).status == target
    decreases |Required(target)|
  {
    hide Run, Record, Required;
    ItineraryStep(target);
    var stops := Required(target);
    if |stops| == 1 {
      assert Visit(stops[1..]) == [];
      RunNothing();
    } else {
      var before := stops[|stops| - 2];
      ItinerarySuffices(before);
      var visit, last := Visit(Required(before)[1..]), (Input(Some(target), 0, None), 0);
      assert Visit(stops[1..]) == visit + [last];
      RunOneMore(NEW, visit, last);
      RecordStatus(Run(NEW, visit), target);
    }
  }

  lemma RunNothing()
    ensures Run(NEW, []).status == CREATED
  {
  }

  lemma RecordStatus(s: Shipment, next: Status)
    requires IsValidTransition(s.status, next)
    ensures Record(s, Input(Some(next), 0, None), 0).0.status == next
  {
  }

  lemma ItineraryStep(target: Status)
    ensures var stops := Required(target);
      && |stops| >= 1 && stops[|stops| - 1] == target
      && (|stops| == 1 ==> target == CREATED)
      && (|stops| > 1 ==> IsValidTransition(stops[|stops| - 2], target) && stops == Required(stops[|stops| - 2]) + [target])
  {
    match target
    case CREATED =>
    case CANCELED =>
    case PICKUP_SCHEDULED =>
    case PICKED_UP =>
    case IN_TRANSIT =>
    case ARRIVED_AT_HUB =>
    case RETURNING =>
    case RETURNED =>
    case OUT_FOR_DELIVERY =>
    case DELIVERY_FAILED =>
    case DELIVERED =>
  }

  // ---------- How far delivery is ----------

  predicate Lost(s: Status) {
    s in {RETURNING, RETURNED, CANCELED}
  }

  /** The stops still ahead of a shipment that is not lost. */
  function Route(s: Status): seq<Status>
    requires !Lost(s)
  {
    match s
    case CREATED => [PICKUP_SCHEDULED, PICKED_UP, IN_TRANSIT, OUT_FOR_DELIVERY, DELIVERED]
    case PICKUP_SCHEDULED => [PICKED_UP, IN_TRANSIT, OUT_FOR_DELIVERY, DELIVERED]
    case PICKED_UP => [IN_TRANSIT, OUT_FOR_DELIVERY, DELIVERED]
    case IN_TRANSIT => [OUT_FOR_DELIVERY, DELIVERED]
    case ARRIVED_AT_HUB => [OUT_FOR_DELIVERY, DELIVERED]
    case DELIVERY_FAILED => [OUT_FOR_DELIVERY, DELIVERED]
    case OUT_FOR_DELIVERY => [DELIVERED]
    case DELIVERED => []
  }

  lemma RouteStep(s: Status)
    requires !Lost(s)
    ensures Route(s) == [] <==> s == DELIVERED
    ensures Route(s) != [] ==>
      var next := Route(s)[0];
      IsValidTransition(s, next) && !Lost(next) && Route(next) == Route(s)[1..]
  {
  }

  /** One report brings delivery at most one stop nearer, and never back from loss. */
  lemma RouteShrinksByOne(s: Status, next: Status)
    requires IsValidTransition(s, next) && !Lost(next)
    ensures !Lost(s) && |Route(s)| <= |Route(next)| + 1
  {
  }

  lemma DeliveredIsThere()
    ensures !Lost(DELIVERED) && Route(DELIVERED) == []
  {
  }

  /** No run delivers a lost shipment, and none delivers in fewer reports than
      the route has stops. */
  lemma {:induction false} NoShorterDelivery(s: Shipment, inputs: seq<(Input, int)>)
    requires Run(s, inputs).status == DELIVERED
    ensures !Lost(s.status) && |inputs| >= |Route(s.status)|
    decreases |inputs|
  {
    hide Route, Lost, Transitions;
    if inputs == [] {
      DeliveredIsThere();
    } else {
      var n := Record(s, inputs[0].0, inputs[0].1).0;
      NoShorterDelivery(n, inputs[1..]);
      assert IsValidTransition(s.status, n.status);
      RouteShrinksByOne(s.status, n.status);
    }
  }

  /** Reporting the route delivers any shipment that is not lost. */
  lemma {:induction false} RouteDelivers(s: Shipment)
    requires !Lost(s.status)
    ensures Run(s, Visit(Route(s.status))).status == DELIVERED
    decreases |Route(s.status)|
  {
    hide Route, Lost, Record;
    RouteStep(s.status);
    var stops := Route(s.status);
    if stops != [] {
      var n := Record(s, Input(Some(stops[0]), 0, None), 0).0;
      RecordStatus(s, stops[0]);
      RouteDelivers(n);
      assert Visit(stops)[1..] == Visit(stops[1..]);
    }
  }

  /** Delivery is still possible exactly while the shipment has not been
      canceled or sent back, and the route is a shortest way to it. */
  lemma DeliveryDistance(s: Shipment)
    ensures (exists inputs :: Run(s, inputs).status == DELIVERED) <==> !Lost(s.status)
    ensures forall inputs :: Run(s, inputs).status == DELIVERED ==> !Lost(s.status) && |inputs| >= |Route(s.status)|
    ensures !Lost(s.status) ==> Run(s, Visit(Route(s.status))).status == DELIVERED
  {
    hide Route, Lost, Run;
    forall inputs | Run(s, inputs).status == DELIVERED
      ensures !Lost(s.status) && |inputs| >= |Route(s.status)|
    {
      NoShorterDelivery(s, inputs);
    }
    if !Lost(s.status) {
      RouteDelivers(s);
    }
  }

  // ---------- One report ----------

  /** From where each status can be reached by one report that changes it. */
  lemma Predecessors(s: Status)
    ensures PICKUP_SCHEDULED in Transitions(s) <==> s == CREATED
    ensures PICKED_UP in Transitions(s) <==> s == PICKUP_SCHEDULED
    ensures IN_TRANSIT in Transitions(s) <==> s == PICKED_UP || s == ARRIVED_AT_HUB
    ensures ARRIVED_AT_HUB in Transitions(s) <==> s == IN_TRANSIT
    ensures OUT_FOR_DELIVERY in Transitions(s) <==> s == IN_TRANSIT || s == ARRIVED_AT_HUB || s == DELIVERY_FAILED
    ensures DELIVERED in Transitions(s) <==> s == OUT_FOR_DELIVERY
    ensures DELIVERY_FAILED in Transitions(s) <==> s == OUT_FOR_DELIVERY
    ensures RETURNING in Transitions(s) <==> s == IN_TRANSIT || s == ARRIVED_AT_HUB || s == OUT_FOR_DELIVERY || s == DELIVERY_FAILED
    ensures RETURNED in Transitions(s) <==> s == RETURNING
    ensures CANCELED in Transitions(s) <==> s == CREATED || s == PICKUP_SCHEDULED || s == PICKED_UP || s == IN_TRANSIT
    ensures CREATED !in Transitions(s)
  {
    match s
    case CREATED =>
    case PICKUP_SCHEDULED =>
    case PICKED_UP =>
    case IN_TRANSIT =>
    case ARRIVED_AT_HUB =>
    case OUT_FOR_DELIVERY =>
    case DELIVERED =>
    case DELIVERY_FAILED =>
    case RETURNING =>
    case RETURNED =>
    case CANCELED =>
  }

  /** A report is refused for its transition first; a permitted one is recorded exactly
      when no logged event has its trimmed key, and a refused one changes nothing. */
  lemma RecordExact(s: Shipment, input: Input, now: int)
    ensures var (n, outcome) := Record(s, input, now);
      var permitted := input.status.None? || input.status.value == s.status || input.status.value in Transitions(s.status);
      var repeated := input.key.Some? && exists i :: 0 <= i < |s.events| && s.events[i].key == Some(Trim(input.key.value));
      && (outcome == InvalidTransition <==> !permitted)
      && (outcome == Duplicate <==> permitted && repeated)
      && (outcome == Recorded <==> permitted && !repeated)
      && (outcome != Recorded ==> n == s)
      && (outcome == Recorded ==>
            && |n.events| == |s.events| + 1 && n.events[..|s.events|] == s.events
            && n.events[|s.events|].status == input.status
            && n.events[|s.events|].occurredAt == input.occurredAt && n.events[|s.events|].recordedAt == now
            && n.events[|s.events|].key == (if input.key.Some? then Some(Trim(input.key.value)) else None)
            && n.status == (if input.status.Some? then input.status.value else s.status)
            && n.deliveredAt == (if input.status == Some(DELIVERED) then Some(now) else s.deliveredAt))
  {
    hide Trim, Transitions;
  }
}
