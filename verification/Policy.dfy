/** Traversability policy and edge costs. */
module Policy {
  import opened Basics
  import opened Overlay
  import opened RoadGraph

  datatype VehicleType = GeneralEmergency | Ambulance | FireResponse | RescueVehicle

  datatype RoutingMode = Distance | TravelTime

  datatype RoutingPolicy = RoutingPolicy(
    allowBlocked: bool,
    allowRestricted: bool,
    allowUnknown: bool,
    allowEmergencyOnly: bool,
    allowPrivate: bool,
    maxPenalty: real)

  const DEFAULT_POLICY := RoutingPolicy(false, true, true, true, false, 1.0)

  datatype Refusal =
    | StatusBlocked | StatusRestricted | StatusUnknown
    | NotPassable | EmergencyAccessOnly | NeedsHighClearance | PrivateAccess

  /** Why an edge may not be used, or None when it may. */
  function Evaluate(p: RoutingPolicy, e: EdgeData, vehicle: VehicleType): Option<Refusal> {
    if e.status == Blocked && !p.allowBlocked then Some(StatusBlocked)
    else if e.status == Restricted && !p.allowRestricted then Some(StatusRestricted)
    else if e.status == Unknown && !p.allowUnknown then Some(StatusUnknown)
    else if e.accessibility == Impassable then Some(NotPassable)
    else if e.accessibility == EmergencyOnly && !p.allowEmergencyOnly then Some(EmergencyAccessOnly)
    else if e.accessibility == HighClearanceOnly && vehicle == Ambulance then Some(NeedsHighClearance)
    else if e.access in {NoAccess, Private} && !p.allowPrivate && e.emergency == OtherEmergency then Some(PrivateAccess)
    else None
  }

  predicate Traversable(p: RoutingPolicy, e: EdgeData, vehicle: VehicleType) {
    Evaluate(p, e, vehicle).None?
  }

  /** Nothing about the edge speaks against it: a physical bar never, the rest only without a permission. */
  predicate Admits(p: RoutingPolicy, e: EdgeData, vehicle: VehicleType) {
    && e.accessibility != Impassable
    && !(e.accessibility == HighClearanceOnly && vehicle == Ambulance)
    && (e.accessibility == EmergencyOnly ==> p.allowEmergencyOnly)
    && (e.status == Blocked ==> p.allowBlocked)
    && (e.status == Restricted ==> p.allowRestricted)
    && (e.status == Unknown ==> p.allowUnknown)
    && (e.access == NoAccess || e.access == Private ==>
          p.allowPrivate || e.emergency == EmergencyYes || e.emergency == EmergencyDesignated || e.emergency == EmergencyOnlyTag)
  }

  /** An edge is traversable exactly when nothing speaks against it. */
  lemma TraversableIffAdmitted(p: RoutingPolicy, e: EdgeData, vehicle: VehicleType)
    ensures Traversable(p, e, vehicle) <==> Admits(p, e, vehicle)
  {
  }

  /** The refusal given is true of the edge. */
  lemma RefusalIsTrue(p: RoutingPolicy, e: EdgeData, vehicle: VehicleType)
    ensures
      match Evaluate(p, e, vehicle)
      case None => true
      case Some(StatusBlocked) => e.status == Blocked && !p.allowBlocked
      case Some(StatusRestricted) => e.status == Restricted && !p.allowRestricted
      case Some(StatusUnknown) => e.status == Unknown && !p.allowUnknown
      case Some(NotPassable) => e.accessibility == Impassable
      case Some(EmergencyAccessOnly) => e.accessibility == EmergencyOnly && !p.allowEmergencyOnly
      case Some(NeedsHighClearance) => e.accessibility == HighClearanceOnly && vehicle == Ambulance
      case Some(PrivateAccess) => (e.access == NoAccess || e.access == Private) && !p.allowPrivate
  {
  }

  /** Flag by flag, q allows whatever p allows. */
  predicate AtLeastAsPermissive(q: RoutingPolicy, p: RoutingPolicy) {
    && (p.allowBlocked ==> q.allowBlocked)
    && (p.allowRestricted ==> q.allowRestricted)
    && (p.allowUnknown ==> q.allowUnknown)
    && (p.allowEmergencyOnly ==> q.allowEmergencyOnly)
    && (p.allowPrivate ==> q.allowPrivate)
  }

  /** An open, ordinary edge to start witnesses from. */
  const PLAIN_EDGE := EdgeData("E", "R", None, 1.0, Residential, None, Open, AllVehicles, OtherAccess, OtherEmergency,
                               [(0.0, 0.0), (1.0, 0.0)])

  /** An edge that p accepts and q refuses, when q lacks one of p's permissions. */
  function Separator(q: RoutingPolicy, p: RoutingPolicy): EdgeData {
    if p.allowBlocked && !q.allowBlocked then PLAIN_EDGE.(status := Blocked)
    else if p.allowRestricted && !q.allowRestricted then PLAIN_EDGE.(status := Restricted)
    else if p.allowUnknown && !q.allowUnknown then PLAIN_EDGE.(status := Unknown)
    else if p.allowEmergencyOnly && !q.allowEmergencyOnly then PLAIN_EDGE.(accessibility := EmergencyOnly)
    else PLAIN_EDGE.(access := Private)
  }

  /** The flag order is exactly inclusion of accepted edges. */
  lemma PermissiveIffAcceptsMore(q: RoutingPolicy, p: RoutingPolicy)
    ensures AtLeastAsPermissive(q, p) <==>
            forall e, vehicle :: Traversable(p, e, vehicle) ==> Traversable(q, e, vehicle)
  {
    if !AtLeastAsPermissive(q, p) {
      var e := Separator(q, p);
      assert Traversable(p, e, GeneralEmergency) && !Traversable(q, e, GeneralEmergency);
    }
  }

  function DefaultSpeed(t: RoadType): real {
    match t
    case Motorway => 80.0
    case Trunk => 60.0
    case Primary => 50.0
    case Secondary => 40.0
    case Tertiary => 30.0
    case Residential => 25.0
    case Service => 15.0
    case LivingStreet => 15.0
    case Bridge => 40.0
    case Culvert => 30.0
    case Unclassified => 30.0
    case OtherType => 30.0
  }

  /** A positive explicit limit wins over the road type's default. */
  function SpeedKmh(e: EdgeData): (s: real)
    ensures s > 0.0
  {
    if e.speedLimit.Some? && e.speedLimit.value > 0.0 then e.speedLimit.value else DefaultSpeed(e.roadType)
  }

  function SpeedMs(e: EdgeData): (s: real)
    ensures s >= 0.5
  {
    var s := SpeedKmh(e) / 3.6;
    if s > 0.5 then s else 0.5
  }

  function Duration(e: EdgeData, length: real): (d: real)
    ensures length >= 0.0 ==> d >= 0.0
    ensures Hundredths(d)
  {
    Round2(length / SpeedMs(e))
  }

  function EdgeCost(e: EdgeData, mode: RoutingMode, p: RoutingPolicy): (c: real)
    ensures c >= 0.0
  {
    var length := if e.length < 0.0 then 0.0 else e.length;
    var base := if mode == Distance then length else Duration(e, length);
    if e.status == Restricted && p.maxPenalty > 1.0 then base * p.maxPenalty else base
  }

  /** The documented fallback speeds, in km/h. */
  lemma FallbackSpeeds(e: EdgeData)
    requires e.speedLimit.None? || e.speedLimit.value <= 0.0
    ensures e.roadType == Motorway ==> SpeedKmh(e) == 80.0
    ensures e.roadType == Trunk ==> SpeedKmh(e) == 60.0
    ensures e.roadType == Primary ==> SpeedKmh(e) == 50.0
    ensures e.roadType == Secondary || e.roadType == Bridge ==> SpeedKmh(e) == 40.0
    ensures e.roadType in {Tertiary, Culvert, Unclassified, OtherType} ==> SpeedKmh(e) == 30.0
    ensures e.roadType == Residential ==> SpeedKmh(e) == 25.0
    ensures e.roadType == Service || e.roadType == LivingStreet ==> SpeedKmh(e) == 15.0
  {
  }

  /**
    What an edge costs. By distance its length, never below zero; by time the seconds at its limit or
    fallback speed, at half a metre per second at least, to the nearest hundredth. Only a penalty above 1
    on a RESTRICTED edge scales it.
  */
  lemma CostMeans(e: EdgeData, mode: RoutingMode, p: RoutingPolicy)
    ensures e.speedLimit.Some? && e.speedLimit.value > 0.0 ==> SpeedKmh(e) == e.speedLimit.value
    ensures SpeedKmh(e) >= 1.8 ==> SpeedMs(e) == SpeedKmh(e) / 3.6
    ensures SpeedKmh(e) < 1.8 ==> SpeedMs(e) == 0.5
    ensures var length := if e.length > 0.0 then e.length else 0.0;
            var factor := if e.status == Restricted && p.maxPenalty > 1.0 then p.maxPenalty else 1.0;
            && (mode == Distance ==> EdgeCost(e, mode, p) == length * factor)
            && (mode == TravelTime ==> EdgeCost(e, mode, p) == Round2(length / SpeedMs(e)) * factor)
  {
  }
}
