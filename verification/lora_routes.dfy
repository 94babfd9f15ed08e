/** Who may send what to whom over LoRa, by name, and the zone a permitted link belongs to. */
module LoraRoutes {
  import opened Bytes
  import opened Wrappers
  import opened LoraFrame

  datatype Role = SERVER | A1 | A2 | B1 | B2 | C1 | C2

  datatype Kind =
    | SENSOR_DATA | CONTROL_COMMAND | CONTROL_RESULT | HEARTBEAT | ALERT | SERVER_POLICY
    | NODE_REGISTER | NODE_REGISTER_ACK | NODE_STATUS | ACK | PERSISTED_ACK

  const ROLES: seq<Role> := [SERVER, A1, A2, B1, B2, C1, C2]

  const KINDS: seq<Kind> :=
    [SENSOR_DATA, CONTROL_COMMAND, CONTROL_RESULT, HEARTBEAT, ALERT, SERVER_POLICY,
     NODE_REGISTER, NODE_REGISTER_ACK, NODE_STATUS, ACK, PERSISTED_ACK]

  const GATEWAYS: set<Role> := {A1, A2}
  const SENSORS: set<Role> := {B1, B2}
  const CONTROLLERS: set<Role> := {C1, C2}

  /** What a link of the two roles carries. */
  function Carries(source: Role, destination: Role): set<Kind> {
    if source in SENSORS && destination in GATEWAYS then {SENSOR_DATA, ALERT, NODE_REGISTER, NODE_STATUS}
    else if source in GATEWAYS && destination in SENSORS then
      {PERSISTED_ACK, ACK, NODE_REGISTER_ACK, NODE_STATUS, SERVER_POLICY}
    else if source in CONTROLLERS && destination in GATEWAYS then {CONTROL_RESULT, ACK, NODE_REGISTER, NODE_STATUS}
    else if source in GATEWAYS && destination in CONTROLLERS then {CONTROL_COMMAND, NODE_REGISTER_ACK, NODE_STATUS}
    else if source in GATEWAYS && destination in GATEWAYS && source != destination then {HEARTBEAT, NODE_STATUS}
    else {}
  }

  /** The zone of a field node, none for a gateway or the server. */
  function ZoneOf(r: Role): nat {
    match r case B1 => 1 case C1 => 1 case B2 => 2 case C2 => 2 case _ => 0
  }

  /** route: the zone of the field node at either end, 0 between gateways; None when the link is not permitted. */
  function Route(source: Role, destination: Role, kind: Kind): Option<nat> {
    if kind !in Carries(source, destination) then None
    else Some(if ZoneOf(source) != 0 then ZoneOf(source) else ZoneOf(destination))
  }

  lemma RoleNames(i: nat)
    requires i < 7
    ensures ROLES[i] in GATEWAYS <==> i in {1, 2}
    ensures ROLES[i] in SENSORS <==> i in {3, 4}
    ensures ROLES[i] in CONTROLLERS <==> i in {5, 6}
    ensures ZoneOf(ROLES[i]) == if i in {3, 5} then 1 else if i in {4, 6} then 2 else 0
  {
  }

  lemma RolesDiffer(i: nat, j: nat)
    requires i < 7 && j < 7
    ensures ROLES[i] == ROLES[j] <==> i == j
  {
  }

  lemma KindNames(i: nat)
    requires i < 11
    ensures KINDS[i] in {SENSOR_DATA, ALERT, NODE_REGISTER, NODE_STATUS} <==> i in {0, 4, 6, 8}
    ensures KINDS[i] in {PERSISTED_ACK, ACK, NODE_REGISTER_ACK, NODE_STATUS, SERVER_POLICY} <==> i in {10, 9, 7, 8, 5}
    ensures KINDS[i] in {CONTROL_RESULT, ACK, NODE_REGISTER, NODE_STATUS} <==> i in {2, 9, 6, 8}
    ensures KINDS[i] in {CONTROL_COMMAND, NODE_REGISTER_ACK, NODE_STATUS} <==> i in {1, 7, 8}
    ensures KINDS[i] in {HEARTBEAT, NODE_STATUS} <==> i in {3, 8}
  {
  }

  /** The numbers of the C table say what the names of the Python table say, for every pair of roles and kind. */
  lemma ZoneIsRoute(s: byte, d: byte, t: byte)
    requires s < 7 && d < 7 && t < 11
    ensures Zone(s, d, t) == match Route(ROLES[s], ROLES[d], KINDS[t]) case None => -1 case Some(z) => z
  {
    hide ZoneOf;
    RoleNames(s);
    RoleNames(d);
    RolesDiffer(s, d);
    KindNames(t);
  }

  /** A valid frame travels on a permitted link and names its zone. */
  lemma ValidIsRouted(f: Frame)
    requires Valid(f)
    ensures f.source < 7 && f.destination < 7 && f.kind < 11
    ensures Route(ROLES[f.source], ROLES[f.destination], KINDS[f.kind]) == Some(f.zone as nat)
  {
    ZoneIsRoute(f.source, f.destination, f.kind);
  }
}
