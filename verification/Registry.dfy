/**
The dfinder registry as a state machine.  One step is one lock region of the server (or the one
clock reading that happens between two of them); a run is any interleaving of such steps by client
connections and by any number of probe loops.

Time is a monotone clock.  SQLite is a table keyed by ip; the order in which it lists its rows is
left open.
*/
module Registry {
  import opened Common

  type Ip = string
  type U16 = n: nat | n < 0x1_0000

  /** What a node told the registry about itself; `extra` is the JSON text of the user's extension. */
  datatype Node = Node(ip: Ip, port: U16, labels: seq<string>, extra: string)

  datatype Health = Health(healthy: bool, lastOk: nat)

  /** Where a probe loop stands inside `run_probe_cycle`. */
  datatype Loop =
    | Idle
    | Listed(nodes: seq<Node>)                               // snapshot taken, `now` not read yet
    | Probing(now: nat, todo: seq<Node>, expired: seq<Ip>)   // `now` fixed for the whole cycle

  datatype State = State(
    table: map<Ip, Node>,
    health: map<Ip, Health>,
    clock: nat,
    loops: map<nat, Loop>)

  datatype Event =
    | Tick(to: nat)                       // time passes
    | Register(node: Node)                // upsert and health insert, one write lock
    | Restart(anew: State)                // a new process on the same database
    | Begin(l: nat, nodes: seq<Node>)     // snapshot of the table, one read lock
    | Stamp(l: nat)                       // `now` is read, outside every lock
    | Probe(l: nat, ip: Ip, ok: bool)     // the answer of one probe is written, one write lock
    | Finish(l: nat, removed: seq<Ip>)    // sweep; a store error leaves only a prefix removed

  predicate OfLoop(e: Event, l: nat) {
    (e.Begin? || e.Stamp? || e.Probe? || e.Finish?) && e.l == l
  }

  /** `nodes` lists every row of `table` once, in some order. */
  predicate IsListing(nodes: seq<Node>, table: map<Ip, Node>) {
    && (forall i :: 0 <= i < |nodes| ==> nodes[i].ip in table && table[nodes[i].ip] == nodes[i])
    && (forall ip :: ip in table ==> Lists(nodes, ip))
    && DistinctIps(nodes)
  }

  predicate Lists(nodes: seq<Node>, ip: Ip) {
    exists i :: 0 <= i < |nodes| && nodes[i].ip == ip
  }

  predicate DistinctIps(nodes: seq<Node>) {
    forall i, j :: 0 <= i < j < |nodes| ==> nodes[i].ip != nodes[j].ip
  }

  /** `Instant::duration_since`, which saturates at zero. */
  function Since(now: nat, then': nat): nat {
    if now >= then' then now - then' else 0
  }

  predicate WellKeyed(table: map<Ip, Node>) {
    forall ip :: ip in table ==> table[ip].ip == ip
  }

  /** As `Server::new` leaves it: every stored row unhealthy, its lease starting now, all loops idle. */
  predicate Booted(s: State) {
    && WellKeyed(s.table)
    && s.health.Keys == s.table.Keys
    && (forall ip :: ip in s.health ==> s.health[ip] == Health(false, s.clock))
    && (forall l :: l in s.loops ==> s.loops[l].Idle?)
  }

  /** The entry that `entry(ip).or_insert(..)` yields to a cycle stamped `now`. */
  function Entry(health: map<Ip, Health>, ip: Ip, now: nat): Health {
    if ip in health then health[ip] else Health(false, now)
  }

  function Verdict(before: Health, now: nat, ok: bool): Health {
    if ok then Health(true, now) else before.(healthy := false)
  }

  /** A negative answer marks the node for the sweep once its last success is `ttl` old. */
  predicate Marks(before: Health, now: nat, ok: bool, ttl: nat) {
    !ok && Since(now, before.lastOk) >= ttl
  }

  function Without<T>(m: map<Ip, T>, gone: seq<Ip>): map<Ip, T> {
    m - (set ip | ip in gone)
  }

  predicate Enabled(s: State, e: Event) {
    match e
    case Tick(to) => s.clock <= to
    case Register(node) => node.labels != []
    case Restart(anew) =>
      Booted(anew) && anew.table == s.table && anew.clock == s.clock && anew.loops.Keys == s.loops.Keys
    case Begin(l, nodes) => l in s.loops && s.loops[l].Idle? && IsListing(nodes, s.table)
    case Stamp(l) => l in s.loops && s.loops[l].Listed?
    case Probe(l, ip, ok) =>
      l in s.loops && s.loops[l].Probing? && s.loops[l].todo != [] && s.loops[l].todo[0].ip == ip
    case Finish(l, removed) =>
      l in s.loops && s.loops[l].Probing? && s.loops[l].todo == [] && removed <= s.loops[l].expired
  }

  function Apply(s: State, e: Event, ttl: nat): State
    requires Enabled(s, e)
  {
    match e
    case Tick(to) => s.(clock := to)
    case Register(node) =>
      s.(table := s.table[node.ip := node], health := s.health[node.ip := Health(true, s.clock)])
    case Restart(anew) => anew
    case Begin(l, nodes) => s.(loops := s.loops[l := Listed(nodes)])
    case Stamp(l) => s.(loops := s.loops[l := Probing(s.clock, s.loops[l].nodes, [])])
    case Probe(l, ip, ok) =>
      var p := s.loops[l];
      var before := Entry(s.health, ip, p.now);
      var expired := if Marks(before, p.now, ok, ttl) then p.expired + [ip] else p.expired;
      s.(health := s.health[ip := Verdict(before, p.now, ok)],
         loops := s.loops[l := Probing(p.now, p.todo[1..], expired)])
    case Finish(l, removed) =>
      s.(table := Without(s.table, removed), health := Without(s.health, removed),
         loops := s.loops[l := Idle])
  }

  /** `es` is a run from `s`: each event is enabled where it happens. */
  ghost predicate Valid(s: State, es: seq<Event>, ttl: nat)
    decreases |es|, 0
  {
    es == [] || (Valid(s, Front(es), ttl) && Enabled(Run(s, Front(es), ttl), Last(es)))
  }

  ghost function Run(s: State, es: seq<Event>, ttl: nat): State
    requires Valid(s, es, ttl)
    decreases |es|, 1
  {
    if es == [] then s else Apply(Run(s, Front(es), ttl), Last(es), ttl)
  }

  /** Every prefix of a run is a run. */
  lemma {:induction false} ValidPrefix(s: State, es: seq<Event>, ttl: nat, k: nat)
    requires Valid(s, es, ttl) && k <= |es|
    ensures Valid(s, es[..k], ttl)
    decreases |es|
  {
    if k == |es| {
      assert es[..k] == es;
    } else {
      ValidPrefix(s, Front(es), ttl, k);
      assert Front(es)[..k] == es[..k];
    }
  }

  /** The health write `e` comes at most `d` after the stamp of its cycle. */
  ghost predicate OnTime(s: State, e: Event, d: nat) {
    e.Probe? && e.l in s.loops && s.loops[e.l].Probing? ==> s.clock <= s.loops[e.l].now + d
  }

  /** No cycle of the run lasts longer than `d` from its stamp to its last health write. */
  ghost predicate Timely(s: State, es: seq<Event>, ttl: nat, d: nat)
    requires Valid(s, es, ttl)
    decreases |es|
  {
    es == [] || (Timely(s, Front(es), ttl, d) && OnTime(Run(s, Front(es), ttl), Last(es), d))
  }

  lemma {:induction false} TimelyPrefix(s: State, es: seq<Event>, ttl: nat, d: nat, k: nat)
    requires Valid(s, es, ttl) && Timely(s, es, ttl, d) && k <= |es|
    ensures Valid(s, es[..k], ttl) && Timely(s, es[..k], ttl, d)
    decreases |es|
  {
    if k == |es| {
      assert es[..k] == es;
    } else {
      TimelyPrefix(s, Front(es), ttl, d, k);
      assert Front(es)[..k] == es[..k];
    }
  }

  ghost predicate Step(s: State, e: Event, s': State, ttl: nat, d: nat) {
    Enabled(s, e) && OnTime(s, e, d) && Apply(s, e, ttl) == s'
  }

  /** `es` is a timely run from `s0` that ends in `s`. */
  ghost predicate Reaches(s0: State, es: seq<Event>, s: State, ttl: nat, d: nat) {
    Valid(s0, es, ttl) && Timely(s0, es, ttl, d) && Run(s0, es, ttl) == s
  }

  lemma Then(s0: State, es: seq<Event>, s: State, e: Event, s': State, ttl: nat, d: nat)
    requires Reaches(s0, es, s, ttl, d) && Step(s, e, s', ttl, d)
    ensures Reaches(s0, es + [e], s', ttl, d)
  {
    assert Front(es + [e]) == es && Last(es + [e]) == e;
  }

  // One event at a time, for building concrete runs.

  lemma ThenTick(s0: State, es: seq<Event>, s: State, to: nat, ttl: nat, d: nat)
    returns (es': seq<Event>, s': State)
    requires Reaches(s0, es, s, ttl, d) && s.clock <= to
    ensures Reaches(s0, es', s', ttl, d) && s' == s.(clock := to)
  {
    es', s' := es + [Tick(to)], s.(clock := to);
    Then(s0, es, s, Tick(to), s', ttl, d);
  }

  lemma ThenRegister(s0: State, es: seq<Event>, s: State, node: Node, ttl: nat, d: nat)
    returns (es': seq<Event>, s': State)
    requires Reaches(s0, es, s, ttl, d) && node.labels != []
    ensures Reaches(s0, es', s', ttl, d) && s'.clock == s.clock && s'.loops == s.loops
    ensures s'.table == s.table[node.ip := node] && s'.health == s.health[node.ip := Health(true, s.clock)]
  {
    es', s' := es + [Register(node)], Apply(s, Register(node), ttl);
    Then(s0, es, s, Register(node), s', ttl, d);
  }

  /** Snapshot and stamp with nothing in between. */
  lemma ThenOpenCycle(s0: State, es: seq<Event>, s: State, l: nat, nodes: seq<Node>, ttl: nat, d: nat)
    returns (es': seq<Event>, s': State)
    requires Reaches(s0, es, s, ttl, d) && l in s.loops && s.loops[l].Idle? && IsListing(nodes, s.table)
    ensures Reaches(s0, es', s', ttl, d) && s' == s.(loops := s.loops[l := Probing(s.clock, nodes, [])])
  {
    var mid := s.(loops := s.loops[l := Listed(nodes)]);
    Then(s0, es, s, Begin(l, nodes), mid, ttl, d);
    s' := s.(loops := s.loops[l := Probing(s.clock, nodes, [])]);
    assert mid.loops[l := Probing(s.clock, nodes, [])] == s'.loops;
    es' := es + [Begin(l, nodes)] + [Stamp(l)];
    Then(s0, es + [Begin(l, nodes)], mid, Stamp(l), s', ttl, d);
  }

  lemma ThenProbe(s0: State, es: seq<Event>, s: State, l: nat, ok: bool, ttl: nat, d: nat)
    returns (es': seq<Event>, s': State)
    requires Reaches(s0, es, s, ttl, d) && l in s.loops && s.loops[l].Probing? && s.loops[l].todo != []
    requires s.clock <= s.loops[l].now + d
    ensures Reaches(s0, es', s', ttl, d) && s' == Apply(s, Probe(l, s.loops[l].todo[0].ip, ok), ttl)
  {
    var e := Probe(l, s.loops[l].todo[0].ip, ok);
    es', s' := es + [e], Apply(s, e, ttl);
    Then(s0, es, s, e, s', ttl, d);
  }

  lemma ThenFinish(s0: State, es: seq<Event>, s: State, l: nat, ttl: nat, d: nat)
    returns (es': seq<Event>, s': State)
    requires Reaches(s0, es, s, ttl, d) && l in s.loops && s.loops[l].Probing? && s.loops[l].todo == []
    ensures Reaches(s0, es', s', ttl, d) && s' == Apply(s, Finish(l, s.loops[l].expired), ttl)
  {
    var e := Finish(l, s.loops[l].expired);
    es', s' := es + [e], Apply(s, e, ttl);
    Then(s0, es, s, e, s', ttl, d);
  }

  /** A loop can always complete its cycle at once; everything it has marked is then gone. */
  lemma {:induction false} CompleteCycle(s0: State, es: seq<Event>, s: State, l: nat, ip: Ip, ttl: nat, d: nat)
    returns (es': seq<Event>, s': State)
    requires Reaches(s0, es, s, ttl, d) && l in s.loops && s.loops[l].Probing? && ip in s.loops[l].expired
    requires s.loops[l].todo != [] ==> s.clock <= s.loops[l].now + d
    ensures Reaches(s0, es', s', ttl, d) && s'.clock == s.clock && ip !in s'.table
    ensures forall m :: m in s.loops && m != l ==> m in s'.loops && s'.loops[m] == s.loops[m]
    decreases |s.loops[l].todo|
  {
    if s.loops[l].todo == [] {
      es', s' := ThenFinish(s0, es, s, l, ttl, d);
    } else {
      var es1, s1 := ThenProbe(s0, es, s, l, true, ttl, d);
      es', s' := CompleteCycle(s0, es1, s1, l, ip, ttl, d);
    }
  }

  // ---------------------------------------------------------------- what every step keeps

  /** No loop has `ip` marked for removal. */
  ghost predicate NoPendingMark(s: State, ip: Ip) {
    forall l :: l in s.loops && s.loops[l].Probing? ==> ip !in s.loops[l].expired
  }

  /** A loop probes each address once, and what it has marked is no longer to be probed. */
  ghost predicate LoopOk(p: Loop, clock: nat) {
    match p
    case Idle => true
    case Listed(nodes) => DistinctIps(nodes)
    case Probing(now, todo, expired) =>
      now <= clock && DistinctIps(todo) && (forall ip :: ip in expired ==> !Lists(todo, ip))
  }

  /** Holds of every reachable state, with any number of loops. */
  ghost predicate Inv(s: State) {
    && (forall ip :: ip in s.table ==> s.table[ip].ip == ip)
    && s.table.Keys <= s.health.Keys
    && (forall ip :: ip in s.health ==> s.health[ip].lastOk <= s.clock)
    && (forall l :: l in s.loops ==> LoopOk(s.loops[l], s.clock))
  }

  lemma ListsTail(nodes: seq<Node>, ip: Ip)
    requires nodes != []
    ensures Lists(nodes, ip) <==> nodes[0].ip == ip || Lists(nodes[1..], ip)
  {
    if Lists(nodes, ip) && nodes[0].ip != ip {
      var i :| 0 <= i < |nodes| && nodes[i].ip == ip;
      assert nodes[1..][i - 1].ip == ip;
    }
    if Lists(nodes[1..], ip) {
      var i :| 0 <= i < |nodes[1..]| && nodes[1..][i].ip == ip;
      assert nodes[i + 1].ip == ip;
    }
  }

  /** The head of a list of distinct addresses does not come again. */
  lemma HeadOnce(nodes: seq<Node>)
    requires nodes != [] && DistinctIps(nodes)
    ensures DistinctIps(nodes[1..]) && !Lists(nodes[1..], nodes[0].ip)
  {
  }

  lemma ProbeKeepsLoopOk(s: State, e: Event, ttl: nat)
    requires Inv(s) && Enabled(s, e) && e.Probe?
    ensures LoopOk(Apply(s, e, ttl).loops[e.l], s.clock)
  {
    var p := s.loops[e.l];
    HeadOnce(p.todo);
    forall ip | ip in p.expired ensures !Lists(p.todo[1..], ip) { ListsTail(p.todo, ip); }
  }

  lemma StepKeepsInv(s: State, e: Event, ttl: nat)
    requires Inv(s) && Enabled(s, e)
    ensures Inv(Apply(s, e, ttl))
    ensures s.clock <= Apply(s, e, ttl).clock
    ensures Apply(s, e, ttl).loops.Keys == s.loops.Keys
  {
    if e.Probe? { ProbeKeepsLoopOk(s, e, ttl); }
  }

  lemma {:induction false} RunKeepsInv(s: State, es: seq<Event>, ttl: nat)
    requires Inv(s) && Valid(s, es, ttl)
    ensures Inv(Run(s, es, ttl))
    ensures s.clock <= Run(s, es, ttl).clock
    ensures Run(s, es, ttl).loops.Keys == s.loops.Keys
    decreases |es|
  {
    if es == [] {
    } else {
      RunKeepsInv(s, Front(es), ttl);
      StepKeepsInv(Run(s, Front(es), ttl), Last(es), ttl);
    }
  }

  /** The clock never runs backwards along a run. */
  lemma {:induction false} ClockMonotone(s: State, es: seq<Event>, ttl: nat, k: nat)
    requires Inv(s) && Valid(s, es, ttl) && k <= |es|
    ensures Valid(s, es[..k], ttl) && Run(s, es[..k], ttl).clock <= Run(s, es, ttl).clock
    decreases |es|
  {
    if k == |es| {
      assert es[..k] == es;
    } else {
      ClockMonotone(s, Front(es), ttl, k);
      assert Front(es)[..k] == es[..k];
      RunKeepsInv(s, Front(es), ttl);
      StepKeepsInv(Run(s, Front(es), ttl), Last(es), ttl);
    }
  }

  lemma BootInv(s: State)
    requires Booted(s)
    ensures Inv(s)
  {
  }

  // ---------------------------------------------------------------- one probe loop: exact agreement

  ghost predicate Within(nodes: seq<Node>, table: map<Ip, Node>) {
    forall i :: 0 <= i < |nodes| ==> nodes[i].ip in table
  }

  /** `spawn_probe` has been called at most once. */
  ghost predicate AtMostOneLoop(s: State) {
    forall a, b :: a in s.loops && b in s.loops ==> a == b
  }

  /** With one loop, store and health hold the same addresses and the loop only knows stored ones. */
  ghost predicate SoleInv(s: State) {
    && Inv(s)
    && AtMostOneLoop(s)
    && s.table.Keys == s.health.Keys
    && (forall l :: l in s.loops ==> KnowsStored(s.loops[l], s.table))
  }

  ghost predicate KnowsStored(p: Loop, table: map<Ip, Node>) {
    match p
    case Idle => true
    case Listed(nodes) => Within(nodes, table)
    case Probing(_, todo, expired) => Within(todo, table) && forall ip :: ip in expired ==> ip in table
  }

  lemma StepKeepsSoleInv(s: State, e: Event, ttl: nat)
    requires SoleInv(s) && Enabled(s, e)
    ensures SoleInv(Apply(s, e, ttl))
  {
    StepKeepsInv(s, e, ttl);
  }

  lemma {:induction false} RunKeepsSoleInv(s: State, es: seq<Event>, ttl: nat)
    requires SoleInv(s) && Valid(s, es, ttl)
    ensures SoleInv(Run(s, es, ttl))
    decreases |es|
  {
    if es == [] {
    } else {
      RunKeepsSoleInv(s, Front(es), ttl);
      StepKeepsSoleInv(Run(s, Front(es), ttl), Last(es), ttl);
    }
  }
}
