/**
Bounded removal: a node that has stopped working leaves the registry after a bounded number of
probe cycles, and does not come back by itself.
*/
module RegistryRemoval {
  import opened Common
  import opened Registry

  /** In `es` the node `ip` neither registers nor answers a probe, and the server does not restart. */
  predicate Silent(es: seq<Event>, ip: Ip) {
    forall k :: 0 <= k < |es| ==> SilentEvent(es[k], ip)
  }

  predicate SilentEvent(e: Event, ip: Ip) {
    match e
    case Register(node) => node.ip != ip
    case Probe(_, probed, ok) => probed != ip || !ok
    case Restart(_) => false
    case _ => true
  }

  /**
  What an observer of one loop notes: how many cycles lie wholly within the run, whether a cycle begun
  within it is open, when the loop last took its stamp, and whether it has been regular: stamps at
  least `gap` apart and no sweep cut short by a store error.
  */
  datatype Ledger = Ledger(cycles: nat, open: bool, stamp: Option<nat>, regular: bool)

  function Note(b: Ledger, s: State, e: Event, l: nat, gap: nat): Ledger {
    if !OfLoop(e, l) then b
    else
      match e
      case Begin(_, _) => b.(open := true)
      case Stamp(_) =>
        b.(stamp := Some(s.clock), regular := b.regular && (b.stamp.None? || b.stamp.value + gap <= s.clock))
      case Finish(_, removed) =>
        Ledger(if b.open then b.cycles + 1 else b.cycles, false, b.stamp,
               b.regular && l in s.loops && s.loops[l].Probing? && removed == s.loops[l].expired)
      case _ => b
  }

  ghost function Observe(s: State, es: seq<Event>, l: nat, ttl: nat, gap: nat): Ledger
    requires Valid(s, es, ttl)
    decreases |es|
  {
    if es == [] then Ledger(0, false, None, true)
    else Note(Observe(s, Front(es), l, ttl, gap), Run(s, Front(es), ttl), Last(es), l, gap)
  }

  /** `c * gap` */
  function Times(c: nat, gap: nat): nat {
    if c == 0 then 0 else Times(c - 1, gap) + gap
  }

  lemma {:induction false} TimesIsProduct(c: nat, gap: nat)
    ensures Times(c, gap) == c * gap
  {
    if c == 0 {
    } else {
      TimesIsProduct(c - 1, gap);
      assert c * gap == (c - 1) * gap + gap;
    }
  }

  /**
  What is known while `ip`, silent since `t0`, is still stored: the whole cycles since then have not
  been enough, and an open one is on its track.
  */
  ghost predicate Pursued(t0: nat, s: State, l: nat, ip: Ip, ttl: nat, gap: nat, b: Ledger)
    requires l in s.loops
  {
    && ip in s.health
    && s.health[ip].lastOk <= t0
    && (b.cycles > 0 ==>
          Times(b.cycles - 1, gap) < ttl && b.stamp.Some? && b.stamp.value >= t0 + Times(b.cycles - 1, gap))
    && (!b.open && !s.loops[l].Idle? ==> b.cycles == 0)
    && (b.open ==>
          match s.loops[l]
          case Idle => false
          case Listed(nodes) => Lists(nodes, ip)
          case Probing(now, todo, expired) =>
            && b.stamp == Some(now)
            && now >= t0 + Times(b.cycles, gap)
            && (Lists(todo, ip) || Since(now, s.health[ip].lastOk) < ttl || ip in expired))
  }

  /** The pursuit goes on: what others do does not disturb it, and the loop's own steps carry it on. */
  lemma StepKeepsPursuit(t0: nat, s: State, e: Event, l: nat, ip: Ip, ttl: nat, gap: nat, b: Ledger)
    requires Inv(s) && Enabled(s, e) && SilentEvent(e, ip) && t0 <= s.clock
    requires l in s.loops && ip in s.table && ip in Apply(s, e, ttl).table
    requires Pursued(t0, s, l, ip, ttl, gap, b) && Note(b, s, e, l, gap).regular
    ensures l in Apply(s, e, ttl).loops && Pursued(t0, Apply(s, e, ttl), l, ip, ttl, gap, Note(b, s, e, l, gap))
  {
    if OfLoop(e, l) && e.Probe? { ListsTail(s.loops[l].todo, ip); }
  }

  /** A row that is still there at the end was there all along, and the pursuit of it with it. */
  lemma {:induction false} RunKeepsPursuit(s: State, es: seq<Event>, l: nat, ip: Ip, ttl: nat, gap: nat)
    requires Inv(s) && l in s.loops
    requires Valid(s, es, ttl) && Silent(es, ip) && Observe(s, es, l, ttl, gap).regular
    requires ip in Run(s, es, ttl).table
    ensures l in Run(s, es, ttl).loops
    ensures Pursued(s.clock, Run(s, es, ttl), l, ip, ttl, gap, Observe(s, es, l, ttl, gap))
    decreases |es|
  {
    if es == [] {
    } else {
      assert SilentEvent(Last(es), ip);
      RunKeepsInv(s, Front(es), ttl);
      RunKeepsPursuit(s, Front(es), l, ip, ttl, gap);
      StepKeepsPursuit(s.clock, Run(s, Front(es), ttl), Last(es), l, ip, ttl, gap, Observe(s, Front(es), l, ttl, gap));
    }
  }

  lemma {:induction false} TimesMonotone(a: nat, c: nat, gap: nat)
    requires a <= c
    ensures Times(a, gap) <= Times(c, gap)
    decreases c
  {
    if a == c {
    } else {
      TimesMonotone(a, c - 1, gap);
    }
  }

  lemma CeilingCovers(ttl: nat, gap: nat, c: nat)
    requires gap > 0 && c >= (ttl + gap - 1) / gap + 1
    ensures Times(c - 1, gap) >= ttl
  {
    var q := (ttl + gap - 1) / gap;
    assert q * gap + (ttl + gap - 1) % gap == ttl + gap - 1;
    TimesIsProduct(q, gap);
    TimesMonotone(q, c - 1, gap);
  }

  /**
  Bounded removal.  If from some state on `ip` is silent, then once any one loop whose cycles are
  error-free and at least `gap > 0` apart has completed `ceil(ttl / gap) + 1` cycles begun after that
  state, the row is gone, however many other loops run beside it.  With a single loop the health
  entry is gone too.
  */
  lemma {:induction false} BoundedRemoval(s: State, es: seq<Event>, l: nat, ip: Ip, ttl: nat, gap: nat)
    requires Inv(s) && l in s.loops && gap > 0
    requires Valid(s, es, ttl) && Silent(es, ip) && Observe(s, es, l, ttl, gap).regular
    requires Observe(s, es, l, ttl, gap).cycles >= (ttl + gap - 1) / gap + 1
    ensures ip !in Run(s, es, ttl).table
    ensures SoleInv(s) ==> ip !in Run(s, es, ttl).health
  {
    if ip in Run(s, es, ttl).table {
      RunKeepsPursuit(s, es, l, ip, ttl, gap);
      CeilingCovers(ttl, gap, Observe(s, es, l, ttl, gap).cycles);
      assert false;
    }
    if SoleInv(s) {
      RunKeepsSoleInv(s, es, ttl);
    }
  }

  /** And it stays gone: only a registration brings a row back, whatever else happens. */
  lemma {:induction false} StaysGone(s: State, es: seq<Event>, ip: Ip, ttl: nat)
    requires Valid(s, es, ttl) && ip !in s.table
    requires forall k :: 0 <= k < |es| ==> !(es[k].Register? && es[k].node.ip == ip)
    ensures ip !in Run(s, es, ttl).table
    ensures SoleInv(s) ==> ip !in Run(s, es, ttl).health
    decreases |es|
  {
    if es == [] {
    } else {
      assert !(Last(es).Register? && Last(es).node.ip == ip);
      StaysGone(s, Front(es), ip, ttl);
    }
    if SoleInv(s) {
      RunKeepsSoleInv(s, es, ttl);
    }
  }

  // ---------------------------------------------------------------- the bound is reached

  /** A run in which `ip` is silent, and what the observer of loop `l` has noted. */
  ghost predicate Watched(s0: State, es: seq<Event>, s: State, l: nat, ip: Ip, ttl: nat, gap: nat, b: Ledger) {
    Valid(s0, es, ttl) && Run(s0, es, ttl) == s && Silent(es, ip) && Observe(s0, es, l, ttl, gap) == b
  }

  lemma WatchStep(s0: State, es: seq<Event>, s: State, l: nat, e: Event, ip: Ip, ttl: nat, gap: nat, b: Ledger)
    returns (es': seq<Event>, s': State)
    requires Watched(s0, es, s, l, ip, ttl, gap, b) && Enabled(s, e) && SilentEvent(e, ip)
    ensures s' == Apply(s, e, ttl) && Watched(s0, es', s', l, ip, ttl, gap, Note(b, s, e, l, gap))
  {
    es', s' := es + [e], Apply(s, e, ttl);
    assert Front(es') == es && Last(es') == e;
  }

  /** The opening of a cycle at time `t` over a single node. */
  lemma OpenIdleCycle(s0: State, es: seq<Event>, s: State, node: Node, t: nat, ttl: nat, gap: nat, b: Ledger)
    returns (es': seq<Event>, s': State)
    requires Watched(s0, es, s, 0, node.ip, ttl, gap, b)
    requires s.table == map[node.ip := node] && s.loops == map[0 := Idle]
    requires s.clock == t && b.regular && (b.stamp.Some? ==> b.stamp.value + gap <= t)
    ensures Watched(s0, es', s', 0, node.ip, ttl, gap, b.(open := true, stamp := Some(t)))
    ensures s' == s.(loops := map[0 := Probing(t, [node], [])])
  {
    assert IsListing([node], s.table) by { assert [node][0].ip == node.ip; }
    var es2, s2 := WatchStep(s0, es, s, 0, Begin(0, [node]), node.ip, ttl, gap, b);
    es', s' := WatchStep(s0, es2, s2, 0, Stamp(0), node.ip, ttl, gap, b.(open := true));
    assert s'.loops == map[0 := Probing(t, [node], [])];
  }

  /** Its close, the node not being overdue: nothing changes. */
  lemma CloseIdleCycle(s0: State, es: seq<Event>, s: State, node: Node, t: nat, ttl: nat, gap: nat, b: Ledger)
    returns (es': seq<Event>, s': State)
    requires Watched(s0, es, s, 0, node.ip, ttl, gap, b) && t < ttl && b.open && b.regular
    requires s.health == map[node.ip := Health(false, 0)] && s.loops == map[0 := Probing(t, [node], [])]
    ensures Watched(s0, es', s', 0, node.ip, ttl, gap, b.(open := false, cycles := b.cycles + 1))
    ensures s' == s.(loops := map[0 := Idle])
  {
    var es2, s2 := WatchStep(s0, es, s, 0, Probe(0, node.ip, false), node.ip, ttl, gap, b);
    assert [node][1..] == [];
    assert s2 == s.(loops := map[0 := Probing(t, [], [])]) by { assert s2.health == s.health; }
    es', s' := WatchStep(s0, es2, s2, 0, Finish(0, []), node.ip, ttl, gap, b);
    assert s'.table == s.table && s'.health == s.health && s'.loops == map[0 := Idle];
  }

  /** One whole cycle at time `t` over a single node that is not yet overdue. */
  lemma IdleCycle(s0: State, es: seq<Event>, s: State, node: Node, t: nat, ttl: nat, gap: nat, b: Ledger)
    returns (es': seq<Event>, s': State)
    requires Watched(s0, es, s, 0, node.ip, ttl, gap, b) && b.regular
    requires s.table == map[node.ip := node] && s.health == map[node.ip := Health(false, 0)]
    requires s.loops == map[0 := Idle]
    requires s.clock <= t < ttl && (b.stamp.Some? ==> b.stamp.value + gap <= t)
    ensures Watched(s0, es', s', 0, node.ip, ttl, gap, Ledger(b.cycles + 1, false, Some(t), true))
    ensures s' == s.(clock := t)
  {
    var es1, s1 := WatchStep(s0, es, s, 0, Tick(t), node.ip, ttl, gap, b);
    var es2, s2 := OpenIdleCycle(s0, es1, s1, node, t, ttl, gap, b);
    es', s' := CloseIdleCycle(s0, es2, s2, node, t, ttl, gap, b.(open := true, stamp := Some(t)));
  }

  /** A server with one loop, started at time zero on a database with one row. */
  function Alone(node: Node): State {
    State(map[node.ip := node], map[node.ip := Health(false, 0)], 0, map[0 := Idle])
  }

  /** The node outlives `n` whole cycles as long as the last of them is stamped before its lease ends. */
  lemma {:induction false} Survives(node: Node, ttl: nat, gap: nat, n: nat) returns (es: seq<Event>, s: State)
    requires n > 0 && Times(n - 1, gap) < ttl
    ensures Watched(Alone(node), es, s, 0, node.ip, ttl, gap,
                    Ledger(n, false, Some(Times(n - 1, gap)), true))
    ensures s == Alone(node).(clock := Times(n - 1, gap))
  {
    var s0 := Alone(node);
    if n == 1 {
      es, s := IdleCycle(s0, [], s0, node, 0, ttl, gap, Ledger(0, false, None, true));
    } else {
      es, s := Survives(node, ttl, gap, n - 1);
      var b := Ledger(n - 1, false, Some(Times(n - 2, gap)), true);
      es, s := IdleCycle(s0, es, s, node, Times(n - 1, gap), ttl, gap, b);
    }
  }

  lemma CeilingReached(ttl: nat, gap: nat)
    requires ttl > 0 && gap > 0
    ensures (ttl + gap - 1) / gap > 0 && Times((ttl + gap - 1) / gap - 1, gap) < ttl
  {
    var n := (ttl + gap - 1) / gap;
    assert n * gap + (ttl + gap - 1) % gap == ttl + gap - 1;
    assert n > 0;
    TimesIsProduct(n, gap);
  }

  /** One cycle fewer than `ceil(ttl / gap) + 1` is not always enough. */
  lemma RemovalBoundIsTight(node: Node, ttl: nat, gap: nat) returns (es: seq<Event>)
    requires ttl > 0 && gap > 0
    ensures
      var s := Alone(node);
      && Booted(s) && Valid(s, es, ttl) && Silent(es, node.ip)
      && Observe(s, es, 0, ttl, gap).regular && Observe(s, es, 0, ttl, gap).cycles == (ttl + gap - 1) / gap
      && node.ip in Run(s, es, ttl).table
  {
    CeilingReached(ttl, gap);
    var s;
    es, s := Survives(node, ttl, gap, (ttl + gap - 1) / gap);
  }
}
