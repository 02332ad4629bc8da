/** The box orchestrator: how tunnel ports are picked and kept apart, and how an epoch fences the
    steps of superseded connection attempts. */
module BoxOrchestrator {
  import opened Options

  // ----- ports -----

  const PORT_MIN := 47100
  const PORT_MAX := 47999
  const SPAN := PORT_MAX - PORT_MIN + 1
  const MAX_PORT_ATTEMPTS := 8

  predicate InRange(port: int) { PORT_MIN <= port <= PORT_MAX }

  function Candidate(start: nat, offset: nat): int { PORT_MIN + (start + offset) % SPAN }

  /** The first port outside `exclude`, from `offset` steps after the random start on. */
  function PickFrom(exclude: set<int>, start: nat, offset: nat): Option<int>
    requires offset <= SPAN
    decreases SPAN - offset
  {
    if offset == SPAN then None
    else if Candidate(start, offset) !in exclude then Some(Candidate(start, offset))
    else PickFrom(exclude, start, offset + 1)
  }

  function Pick(exclude: set<int>, start: nat): Option<int> { PickFrom(exclude, start, 0) }

  method PickRemoteTunnelPort(exclude: set<int>, start: nat) returns (port: Option<int>)
    ensures port == Pick(exclude, start)
  {
    for offset := 0 to SPAN
      invariant Pick(exclude, start) == PickFrom(exclude, start, offset)
    {
      var candidate := PORT_MIN + (start + offset) % SPAN;
      if candidate !in exclude {
        return Some(candidate);
      }
    }
    return None;
  }

  lemma {:induction false} PickFromIsFree(exclude: set<int>, start: nat, offset: nat)
    requires offset <= SPAN
    ensures var port := PickFrom(exclude, start, offset);
      && (port.Some? ==> InRange(port.value) && port.value !in exclude)
      && (port.None? ==> forall o :: offset <= o < SPAN ==> Candidate(start, o) in exclude)
    decreases SPAN - offset
  {
    if offset < SPAN && Candidate(start, offset) in exclude {
      PickFromIsFree(exclude, start, offset + 1);
    }
  }

  /** Every port of the range is some candidate, whatever the start. */
  lemma CandidatesCover(start: nat, port: int)
    requires InRange(port)
    ensures exists o: nat :: o < SPAN && Candidate(start, o) == port
  {
    var o := (port - PORT_MIN - start) % SPAN;
    var q := (port - PORT_MIN - start) / SPAN;
    assert start + o == port - PORT_MIN - q * SPAN;
    Modulo(port - PORT_MIN, q, start + o);
    assert Candidate(start, o) == port;
  }

  lemma Modulo(r: nat, q: int, n: int)
    requires r < SPAN && n == r - q * SPAN
    ensures n % SPAN == r
  {
  }

  /** Picking yields a free port of the range for every random start, and none exactly when every port
      of the range is excluded. */
  lemma PickIsExact(exclude: set<int>, start: nat)
    ensures var port := Pick(exclude, start);
      && (port.Some? ==> InRange(port.value) && port.value !in exclude)
      && (port.None? <==> forall p :: InRange(p) ==> p in exclude)
  {
    PickFromIsFree(exclude, start, 0);
    if Pick(exclude, start).None? {
      forall p | InRange(p) ensures p in exclude {
        CandidatesCover(start, p);
      }
    }
  }

  // ----- the ports of all boxes -----

  type BoxId = string

  /** A box's remote port, the ports it found occupied since it last registered, and the quick retries
      since then, a history that no operation reads. */
  datatype Tunnel = Tunnel(port: int, occupied: set<int>, quickRetries: nat)

  type Tunnels = map<BoxId, Tunnel>

  function Held(boxes: Tunnels): set<int> { set b | b in boxes :: boxes[b].port }

  /** The random starts an allocation may draw. */
  datatype Draws = Draws(first: nat, second: nat, third: nat)

  function Allocate(boxes: Tunnels, occupied: set<int>, draws: Draws): int {
    var unheld := Pick(occupied + Held(boxes), draws.first);
    var reused := Pick(occupied, draws.second);
    if unheld.Some? then unheld.value else if reused.Some? then reused.value else Candidate(draws.third, 0)
  }

  datatype PortOp =
    | Create(box: BoxId, draws: Draws)
    | FoundOccupied(box: BoxId, draws: Draws)
    | Registered(box: BoxId)
    | Remove(box: BoxId)

  /** Another port after ssh found this one taken; the box is reported failed, and retried slowly, once
      its attempts are spent. */
  function Recover(boxes: Tunnels, t: Tunnel, draws: Draws): Tunnel {
    var occupied := t.occupied + {t.port};
    Tunnel(Allocate(boxes, occupied, draws), occupied, if |occupied| >= MAX_PORT_ATTEMPTS then t.quickRetries else t.quickRetries + 1)
  }

  function ApplyPort(boxes: Tunnels, op: PortOp): Tunnels {
    match op
    case Create(b, draws) => if b in boxes then boxes else boxes[b := Tunnel(Allocate(boxes, {}, draws), {}, 0)]
    case FoundOccupied(b, draws) => if b in boxes then boxes[b := Recover(boxes, boxes[b], draws)] else boxes
    case Registered(b) => if b in boxes then boxes[b := Tunnel(boxes[b].port, {}, 0)] else boxes
    case Remove(b) => boxes - {b}
  }

  /** What each operation leaves: a box that exists keeps its port; one whose port was taken moves to
      another, remembers all it found taken since it registered, and counts a quick retry while fewer
      than eight are; a registration forgets them; and no operation touches another box. */
  lemma PortOpsLeave(boxes: Tunnels, op: PortOp, c: BoxId)
    ensures var k := ApplyPort(boxes, op);
      match op
      case Create(b, draws) =>
        if c == b && c !in boxes then c in k && k[c] == Tunnel(Allocate(boxes, {}, draws), {}, 0) else SameTunnel(boxes, k, c)
      case FoundOccupied(b, draws) =>
        if c == b && c in boxes then
          var found := boxes[c].occupied + {boxes[c].port};
          c in k && k[c] == Tunnel(Allocate(boxes, found, draws), found, boxes[c].quickRetries + if |found| < 8 then 1 else 0)
        else SameTunnel(boxes, k, c)
      case Registered(b) => if c == b && c in boxes then c in k && k[c] == Tunnel(boxes[c].port, {}, 0) else SameTunnel(boxes, k, c)
      case Remove(b) => if c == b then c !in k else SameTunnel(boxes, k, c)
  {
  }

  predicate SameTunnel(boxes: Tunnels, k: Tunnels, c: BoxId) {
    (c in k <==> c in boxes) && (c in boxes ==> k[c] == boxes[c])
  }

  /** The port that is allocated: one that is neither excluded nor held by any box while there is one,
      then any that is not excluded, and a port of the range in any case. */
  lemma AllocatedPort(boxes: Tunnels, occupied: set<int>, draws: Draws)
    ensures var port := Allocate(boxes, occupied, draws);
      && InRange(port)
      && ((exists p :: InRange(p) && p !in occupied && p !in Held(boxes)) ==> port !in occupied && port !in Held(boxes))
      && ((exists p :: InRange(p) && p !in occupied) ==> port !in occupied)
  {
    PickIsExact(occupied + Held(boxes), draws.first);
    PickIsExact(occupied, draws.second);
  }

  datatype PortRun = PortEnd | PortThen(op: PortOp, rest: PortRun)

  function AfterPorts(boxes: Tunnels, run: PortRun): Tunnels
    decreases run
  {
    match run
    case PortEnd => boxes
    case PortThen(op, rest) => AfterPorts(ApplyPort(boxes, op), rest)
  }

  predicate Upward(from: int, p: int) { from <= p <= PORT_MAX }

  function PortsFrom(from: int): set<int> { set p | from <= p <= PORT_MAX && Upward(from, p) }

  function RangePorts(): set<int> { PortsFrom(PORT_MIN) }

  lemma RangePortsAre(p: int)
    ensures p in RangePorts() <==> InRange(p)
  {
    assert Upward(PORT_MIN, p) <==> InRange(p);
  }

  /** Fewer ports are held or known occupied than there are, where an operation allocates one. */
  predicate Room(boxes: Tunnels, op: PortOp) {
    match op
    case Create(_, _) => |Held(boxes) * RangePorts()| < SPAN
    case FoundOccupied(b, _) => b in boxes ==> |(boxes[b].occupied + Held(boxes)) * RangePorts()| < SPAN
    case _ => true
  }

  predicate AlwaysRoom(boxes: Tunnels, run: PortRun)
    decreases run
  {
    match run
    case PortEnd => true
    case PortThen(op, rest) => Room(boxes, op) && AlwaysRoom(ApplyPort(boxes, op), rest)
  }

  predicate Apart(boxes: Tunnels) {
    && (forall b :: b in boxes ==> InRange(boxes[b].port))
    && (forall b, c :: b in boxes && c in boxes && boxes[b].port == boxes[c].port ==> b == c)
  }

  lemma {:induction false} RangeSize(from: int)
    requires PORT_MIN <= from <= PORT_MAX + 1
    ensures |PortsFrom(from)| == PORT_MAX + 1 - from
    decreases PORT_MAX + 1 - from
  {
    if from <= PORT_MAX {
      RangeSize(from + 1);
      forall p ensures p in PortsFrom(from) <==> p in PortsFrom(from + 1) + {from} {
        assert Upward(from, p) <==> Upward(from + 1, p) || p == from;
      }
      assert PortsFrom(from) == PortsFrom(from + 1) + {from};
    } else {
      forall p ensures p !in PortsFrom(from) {}
      assert PortsFrom(from) == {};
    }
  }

  /** With room, a new port is none that a box holds. */
  lemma RoomGivesFreshPort(boxes: Tunnels, occupied: set<int>, draws: Draws)
    requires |(occupied + Held(boxes)) * RangePorts()| < SPAN
    ensures var port := Allocate(boxes, occupied, draws); InRange(port) && port !in Held(boxes) && port !in occupied
  {
    var exclude := occupied + Held(boxes);
    PickIsExact(exclude, draws.first);
    RangeSize(PORT_MIN);
    forall p ensures p in RangePorts() <==> InRange(p) { RangePortsAre(p); }
    assert Pick(exclude, draws.first).None? ==> exclude * RangePorts() == RangePorts();
  }

  lemma PortOpsKeepApart(boxes: Tunnels, op: PortOp)
    requires Apart(boxes) && Room(boxes, op)
    ensures Apart(ApplyPort(boxes, op))
  {
    match op
    case Create(b, draws) => CreateKeepsApart(boxes, b, draws);
    case FoundOccupied(b, draws) => if b in boxes { RecoverKeepsApart(boxes, b, draws); }
    case _ =>
  }

  lemma CreateKeepsApart(boxes: Tunnels, b: BoxId, draws: Draws)
    requires Apart(boxes) && |Held(boxes) * RangePorts()| < SPAN
    ensures Apart(boxes[b := Tunnel(Allocate(boxes, {}, draws), {}, 0)])
  {
    assert {} + Held(boxes) == Held(boxes);
    RoomGivesFreshPort(boxes, {}, draws);
    NewPortKeepsApart(boxes, b, Tunnel(Allocate(boxes, {}, draws), {}, 0));
  }

  lemma RecoverKeepsApart(boxes: Tunnels, b: BoxId, draws: Draws)
    requires Apart(boxes) && b in boxes && |(boxes[b].occupied + Held(boxes)) * RangePorts()| < SPAN
    ensures Apart(boxes[b := Recover(boxes, boxes[b], draws)])
  {
    assert boxes[b].port in Held(boxes);
    assert boxes[b].occupied + {boxes[b].port} + Held(boxes) == boxes[b].occupied + Held(boxes);
    RoomGivesFreshPort(boxes, boxes[b].occupied + {boxes[b].port}, draws);
    NewPortKeepsApart(boxes, b, Recover(boxes, boxes[b], draws));
  }

  lemma NewPortKeepsApart(boxes: Tunnels, b: BoxId, t: Tunnel)
    requires Apart(boxes) && InRange(t.port) && t.port !in Held(boxes)
    ensures Apart(boxes[b := t])
  {
    forall c | c in boxes ensures boxes[c].port in Held(boxes) {}
  }

  /** While fewer than 900 ports are held or known occupied at each allocation, boxes hold distinct
      ports of the range, in every run of starts, collisions, registrations and removals. */
  lemma {:induction false} PortsStayApart(boxes: Tunnels, run: PortRun)
    requires Apart(boxes) && AlwaysRoom(boxes, run)
    ensures Apart(AfterPorts(boxes, run))
    decreases run
  {
    match run
    case PortEnd =>
    case PortThen(op, rest) =>
      PortOpsKeepApart(boxes, op);
      PortsStayApart(ApplyPort(boxes, op), rest);
  }

  /** A box never holds a port it found occupied, unless it found every port of the range occupied. */
  predicate Retrying(t: Tunnel) {
    && t.quickRetries <= |t.occupied| && t.quickRetries < MAX_PORT_ATTEMPTS
    && (t.port in t.occupied ==> RangePorts() <= t.occupied)
  }

  lemma RecoverKeepsRetrying(boxes: Tunnels, t: Tunnel, draws: Draws)
    requires Retrying(t)
    ensures Retrying(Recover(boxes, t, draws))
  {
    var occupied := t.occupied + {t.port};
    PickIsExact(occupied + Held(boxes), draws.first);
    PickIsExact(occupied, draws.second);
    RangeSize(PORT_MIN);
    forall p ensures p in RangePorts() <==> InRange(p) { RangePortsAre(p); }
    if t.port in t.occupied {
      Larger(RangePorts(), t.occupied);
      assert occupied == t.occupied;
    }
    if RangePorts() <= t.occupied { assert RangePorts() <= occupied; }
  }

  lemma {:induction false} Larger(x: set<int>, y: set<int>)
    requires x <= y
    ensures |x| <= |y|
    decreases x
  {
    if x != {} {
      assert (forall p :: p !in x) ==> x == {};
      var p :| p in x;
      Larger(x - {p}, y - {p});
    }
  }

  /** At most seven quick retries happen between two registrations of a box, in every run and however
      few ports are left. */
  lemma {:induction false} QuickRetriesAreBounded(boxes: Tunnels, run: PortRun)
    requires forall b :: b in boxes ==> Retrying(boxes[b])
    ensures forall b :: b in AfterPorts(boxes, run) ==> AfterPorts(boxes, run)[b].quickRetries <= 7
    ensures forall b :: b in AfterPorts(boxes, run) ==> Retrying(AfterPorts(boxes, run)[b])
    decreases run
  {
    match run
    case PortEnd =>
    case PortThen(op, rest) =>
      if op.FoundOccupied? && op.box in boxes { RecoverKeepsRetrying(boxes, boxes[op.box], op.draws); }
      QuickRetriesAreBounded(ApplyPort(boxes, op), rest);
  }
}
