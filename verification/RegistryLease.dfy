/**
How long a registration is good for, and what a sweep proves about the node it removes.
`ttl` is `offline_ttl`; `d` bounds the time from a cycle's stamp to its last health write.
*/
module RegistryLease {
  import opened Common
  import opened Registry

  /** The lease taken at `r` is intact: stored, not marked, and its last success at most `d` before `r`. */
  ghost predicate Leased(s: State, ip: Ip, r: nat, d: nat) {
    && ip in s.table
    && ip in s.health
    && r <= s.health[ip].lastOk + d
    && NoPendingMark(s, ip)
  }

  lemma StepKeepsLease(s: State, e: Event, ttl: nat, d: nat, ip: Ip, r: nat)
    requires Inv(s) && Enabled(s, e) && OnTime(s, e, d)
    requires r <= s.clock && Leased(s, ip, r, d)
    requires ttl > 0
    ensures Leased(Apply(s, e, ttl), ip, r, d) || r + ttl <= s.clock + d
  {
  }

  lemma {:induction false} RunKeepsLease(s: State, es: seq<Event>, ttl: nat, d: nat, ip: Ip, r: nat)
    requires Inv(s) && Valid(s, es, ttl) && Timely(s, es, ttl, d)
    requires r <= s.clock && Leased(s, ip, r, d)
    requires ttl > 0
    ensures Leased(Run(s, es, ttl), ip, r, d) || r + ttl <= Run(s, es, ttl).clock + d
    decreases |es|
  {
    if es == [] {
    } else {
      RunKeepsLease(s, Front(es), ttl, d, ip, r);
      RunKeepsInv(s, Front(es), ttl);
      StepKeepsInv(Run(s, Front(es), ttl), Last(es), ttl);
      if Leased(Run(s, Front(es), ttl), ip, r, d) {
        StepKeepsLease(Run(s, Front(es), ttl), Last(es), ttl, d, ip, r);
      }
    }
  }

  /** `e` starts a lease on `ip`: it registers, answers a probe, or is loaded by a new process. */
  predicate Grants(s: State, e: Event, ip: Ip) {
    match e
    case Register(node) => node.ip == ip
    case Probe(_, probed, ok) => probed == ip && ok && ip in s.table
    case Restart(_) => ip in s.table
    case _ => false
  }

  /**
  Lease bound.  Whatever the interleaving and however many probe loops there are, a registration at
  time `r` made while no loop holds a mark for that address keeps the node in the store until at
  least `r + ttl - d`, although a positive probe may move the recorded success back to an older
  cycle stamp and although restarts may happen in between.  The same lease starts with a positive
  probe written at `r`, and with a restart at `r`, which drops all marks.
  */
  lemma {:induction false} LeaseBound(s: State, e: Event, ip: Ip, es: seq<Event>, ttl: nat, d: nat)
    requires Inv(s) && Enabled(s, e) && OnTime(s, e, d) && Grants(s, e, ip) && ttl > 0
    requires e.Restart? || NoPendingMark(s, ip)
    requires Valid(Apply(s, e, ttl), es, ttl) && Timely(Apply(s, e, ttl), es, ttl, d)
    ensures
      var end := Run(Apply(s, e, ttl), es, ttl);
      end.clock + d < s.clock + ttl ==> ip in end.table
  {
    StepKeepsInv(s, e, ttl);
    RunKeepsLease(Apply(s, e, ttl), es, ttl, d, ip, s.clock);
  }

  // ---------------------------------------------------------------- the hypothesis is exact

  /** Every loop that still has nodes to probe is within `d` of its stamp. */
  ghost predicate AllOnTime(s: State, d: nat) {
    forall l :: l in s.loops && s.loops[l].Probing? && s.loops[l].todo != [] ==> s.clock <= s.loops[l].now + d
  }

  /** Whatever happens next on time, `ip` stays in the store until `r + ttl - d`. */
  ghost predicate Guaranteed(s: State, ip: Ip, r: nat, ttl: nat, d: nat) {
    forall es :: Valid(s, es, ttl) && Timely(s, es, ttl, d) && Run(s, es, ttl).clock + d < r + ttl ==>
      ip in Run(s, es, ttl).table
  }

  /**
  The lease bound holds for exactly those registrations and positive probes that find no pending mark:
  with one pending, the sweep that follows removes the node at the very time its lease started.
  */
  lemma LeaseIffNoPendingMark(s: State, e: Event, ip: Ip, ttl: nat, d: nat)
    requires Inv(s) && Enabled(s, e) && OnTime(s, e, d) && Grants(s, e, ip) && AllOnTime(s, d)
    requires d < ttl
    ensures Guaranteed(Apply(s, e, ttl), ip, s.clock, ttl, d) <==> e.Restart? || NoPendingMark(s, ip)
  {
    var s1 := Apply(s, e, ttl);
    if e.Restart? || NoPendingMark(s, ip) {
      forall es | Valid(s1, es, ttl) && Timely(s1, es, ttl, d) && Run(s1, es, ttl).clock + d < s.clock + ttl
        ensures ip in Run(s1, es, ttl).table
      {
        LeaseBound(s, e, ip, es, ttl, d);
      }
    } else {
      var l :| l in s.loops && s.loops[l].Probing? && ip in s.loops[l].expired;
      assert e.Probe? ==> Lists(s.loops[e.l].todo, ip);
      var es, s2 := CompleteCycle(s1, [], s1, l, ip, ttl, d);
      assert Valid(s1, es, ttl) && Timely(s1, es, ttl, d);
    }
  }

  /** A server with one loop, started at time zero on an empty database. */
  const EMPTY := State(map[], map[], 0, map[0 := Idle])

  /**
  The bound cannot be improved: for every `ttl`, `d <= ttl` and `r >= d` there is a timely run of one
  loop in which a node registers at `r`, unmarked, and is gone at `r + ttl - d` exactly.
  */
  lemma LeaseBoundIsTight(node: Node, r: nat, ttl: nat, d: nat)
    returns (es: seq<Event>, s: State, fs: seq<Event>, end: State)
    requires node.labels != [] && d <= ttl && d <= r
    ensures Booted(EMPTY) && Reaches(EMPTY, es, s, ttl, d) && s.clock == r && NoPendingMark(s, node.ip)
    ensures Reaches(Apply(s, Register(node), ttl), fs, end, ttl, d)
    ensures end.clock == r + ttl - d && node.ip !in end.table
  {
    es, s := OpenStaleCycle(node, r, ttl, d);
    var s0 := Apply(s, Register(node), ttl);
    var fs1, s1 := ThenProbe(s0, [], s0, 0, true, ttl, d);
    var fs2, s2 := ThenFinish(s0, fs1, s1, 0, ttl, d);
    assert s2.table == map[node.ip := node] && s2.loops == map[0 := Idle];
    var fs3, s3 := ThenTick(s0, fs2, s2, r + ttl - d, ttl, d);
    var fs4, s4 := MarkOverdue(s0, fs3, s3, node, ttl, d);
    fs, end := ThenFinish(s0, fs4, s4, 0, ttl, d);
  }

  /** The only node, overdue, is marked by a cycle that is then about to sweep. */
  lemma MarkOverdue(s0: State, es: seq<Event>, s: State, node: Node, ttl: nat, d: nat)
    returns (es': seq<Event>, s': State)
    requires Reaches(s0, es, s, ttl, d) && s.table == map[node.ip := node] && s.loops == map[0 := Idle]
    requires node.ip in s.health && s.health[node.ip].lastOk + ttl <= s.clock
    ensures Reaches(s0, es', s', ttl, d) && s'.clock == s.clock && s'.table == s.table
    ensures s'.loops == map[0 := Probing(s.clock, [], [node.ip])]
  {
    assert IsListing([node], s.table) by { assert [node][0].ip == node.ip; }
    var es1, s1 := ThenOpenCycle(s0, es, s, 0, [node], ttl, d);
    es', s' := ThenProbe(s0, es1, s1, 0, false, ttl, d);
    assert [node][1..] == [] && [] + [node.ip] == [node.ip];
    assert s'.loops == map[0 := Probing(s.clock, [], [node.ip])];
  }

  /**
  A pending mark does arise, and no registration stops its sweep: for every `ttl` and `d`, a booted
  server with one loop has a timely run that ends with the node marked; it registers, and is gone at
  the same clock reading.
  */
  lemma RegisteredYetSwept(node: Node, ttl: nat, d: nat)
    returns (es: seq<Event>, s: State, fs: seq<Event>, end: State)
    requires node.labels != []
    ensures Booted(EMPTY) && Reaches(EMPTY, es, s, ttl, d) && !NoPendingMark(s, node.ip)
    ensures Reaches(Apply(s, Register(node), ttl), fs, end, ttl, d)
    ensures end.clock == s.clock && node.ip !in end.table
  {
    var es1, s1 := ThenRegister(EMPTY, [], EMPTY, node, ttl, d);
    var es2, s2 := ThenTick(EMPTY, es1, s1, ttl, ttl, d);
    es, s := MarkOverdue(EMPTY, es2, s2, node, ttl, d);
    assert node.ip in s.loops[0].expired;
    var s3 := Apply(s, Register(node), ttl);
    fs, end := CompleteCycle(s3, [], s3, 0, node.ip, ttl, d);
  }

  /** A cycle stamped at `r - d` that has not yet probed its only node at `r`. */
  lemma OpenStaleCycle(node: Node, r: nat, ttl: nat, d: nat) returns (es: seq<Event>, s: State)
    requires node.labels != [] && d <= r
    ensures Reaches(EMPTY, es, s, ttl, d)
    ensures s.clock == r && s.table == map[node.ip := node]
    ensures s.loops == map[0 := Probing(r - d, [node], [])]
  {
    var s0 := EMPTY;
    var es1, s1 := ThenTick(s0, [], s0, r - d, ttl, d);
    var es2, s2 := ThenRegister(s0, es1, s1, node, ttl, d);
    assert IsListing([node], s2.table) by { assert [node][0].ip == node.ip; }
    var es3, s3 := ThenOpenCycle(s0, es2, s2, 0, [node], ttl, d);
    es, s := ThenTick(s0, es3, s3, r, ttl, d);
    assert s.loops == map[0 := Probing(r - d, [node], [])];
  }

  // ---------------------------------------------------------------- sweep soundness

  /** `e` is evidence that `ip` works: a registration or a positive probe. */
  predicate Success(e: Event, ip: Ip) {
    (e.Register? && e.node.ip == ip) || (e.Probe? && e.ip == ip && e.ok)
  }

  /** The time at which the k-th event of the run happens. */
  ghost function TimeOf(s: State, es: seq<Event>, k: nat, ttl: nat): nat
    requires Valid(s, es, ttl) && k < |es|
  {
    ValidPrefix(s, es, ttl, k);
    Run(s, es[..k], ttl).clock
  }

  /** One step keeps the recorded success within `d` of a success at time `t`, or makes it so. */
  lemma StepKeepsSuccess(s: State, e: Event, ttl: nat, d: nat, ip: Ip, t: nat)
    requires Inv(s) && Enabled(s, e) && OnTime(s, e, d) && t <= s.clock
    requires Success(e, ip) || (ip in s.health ==> t <= s.health[ip].lastOk + d)
    requires ip in Apply(s, e, ttl).health
    ensures t <= Apply(s, e, ttl).health[ip].lastOk + d
  {
  }

  /** The recorded success trails no real success by more than `d`, over whole runs. */
  lemma {:induction false} SuccessBound(s: State, es: seq<Event>, ttl: nat, d: nat, ip: Ip, k: nat)
    requires Inv(s) && Valid(s, es, ttl) && Timely(s, es, ttl, d)
    requires k < |es| && Success(es[k], ip)
    requires ip in Run(s, es, ttl).health
    ensures TimeOf(s, es, k, ttl) <= Run(s, es, ttl).health[ip].lastOk + d
    decreases |es|
  {
    var front := Front(es);
    ClockMonotone(s, front, ttl, k);
    assert front[..k] == es[..k];
    RunKeepsInv(s, front, ttl);
    if k < |front| && ip in Run(s, front, ttl).health {
      SuccessBound(s, front, ttl, d, ip, k);
    }
    StepKeepsSuccess(Run(s, front, ttl), Last(es), ttl, d, ip, TimeOf(s, es, k, ttl));
  }

  /** `ip` is marked by loop `l` in the cycle stamped `now` at every point from `from` on. */
  ghost predicate MarkedSince(s: State, es: seq<Event>, ttl: nat, l: nat, ip: Ip, now: nat, from: nat) {
    forall k :: from <= k <= |es| ==> MarkedAt(s, es[..k], ttl, l, ip, now)
  }

  ghost predicate MarkedAt(s: State, es: seq<Event>, ttl: nat, l: nat, ip: Ip, now: nat) {
    && Valid(s, es, ttl)
    && l in Run(s, es, ttl).loops
    && var p := Run(s, es, ttl).loops[l]; p.Probing? && p.now == now && ip in p.expired
  }

  /** Every mark was made by a negative answer in the same cycle, when the last success was `ttl` old. */
  lemma {:induction false} MarkHasCause(s: State, es: seq<Event>, ttl: nat, l: nat, ip: Ip, now: nat) returns (j: nat)
    requires Inv(s) && MarkedAt(s, es, ttl, l, ip, now)
    requires !MarkedAt(s, [], ttl, l, ip, now)
    ensures j < |es| && es[j] == Probe(l, ip, false)
    ensures MarkedSince(s, es, ttl, l, ip, now, j + 1)
    ensures Valid(s, es[..j], ttl)
    ensures
      var before := Run(s, es[..j], ttl);
      Since(now, Entry(before.health, ip, now).lastOk) >= ttl
    decreases |es|
  {
    var front := Front(es);
    assert es[..|es|] == es;
    if MarkedAt(s, front, ttl, l, ip, now) {
      j := MarkHasCause(s, front, ttl, l, ip, now);
      assert front[..j] == es[..j];
      forall k | j + 1 <= k <= |es| ensures MarkedAt(s, es[..k], ttl, l, ip, now) {
        if k < |es| { assert front[..k] == es[..k]; }
      }
    } else {
      j := |front|;
      assert es[..j] == front;
      assert Last(es).Probe?;
    }
  }

  /**
  Sweep soundness.  Whatever a sweep removes had answered its probe negatively in that same cycle
  (the answer at `j`), and every success of the node before that answer, registration or positive
  probe, lies at or before `now - ttl + d`, `now` being the stamp of the cycle.  This holds for any
  number of loops.
  */
  lemma SweepSoundness(s: State, es: seq<Event>, ttl: nat, d: nat, l: nat, removed: seq<Ip>, ip: Ip)
    returns (j: nat)
    requires Booted(s) && Valid(s, es, ttl) && Timely(s, es, ttl, d)
    requires Enabled(Run(s, es, ttl), Finish(l, removed)) && ip in removed
    requires ttl > 0
    ensures
      var now := Run(s, es, ttl).loops[l].now;
      && j < |es|
      && es[j] == Probe(l, ip, false)
      && MarkedSince(s, es, ttl, l, ip, now, j + 1)
      && forall k :: 0 <= k < j && Success(es[k], ip) ==> TimeOf(s, es, k, ttl) + ttl <= now + d
  {
    BootInv(s);
    var now := Run(s, es, ttl).loops[l].now;
    j := MarkHasCause(s, es, ttl, l, ip, now);
    TimelyPrefix(s, es, ttl, d, j);
    forall k | 0 <= k < j && Success(es[k], ip) ensures TimeOf(s, es, k, ttl) + ttl <= now + d {
      assert es[..j][k] == es[k] && es[..j][..k] == es[..k];
      if ip in Run(s, es[..j], ttl).health {
        SuccessBound(s, es[..j], ttl, d, ip, k);
      }
    }
  }

  /**
  With a single loop nothing but a registration can intervene between mark and sweep, so a node that
  did not register again in that window had its last success at or before `now - ttl + d`.
  */
  lemma SweepSoundnessOneLoop(s: State, es: seq<Event>, ttl: nat, d: nat, l: nat, removed: seq<Ip>, ip: Ip)
    returns (j: nat)
    requires Booted(s) && AtMostOneLoop(s) && Valid(s, es, ttl) && Timely(s, es, ttl, d)
    requires Enabled(Run(s, es, ttl), Finish(l, removed)) && ip in removed
    requires ttl > 0
    ensures j < |es| && es[j] == Probe(l, ip, false)
    ensures MarkedSince(s, es, ttl, l, ip, Run(s, es, ttl).loops[l].now, j + 1)
    ensures (forall k :: j < k < |es| ==> !(es[k].Register? && es[k].node.ip == ip)) ==>
      forall k :: 0 <= k < |es| && Success(es[k], ip) ==>
        TimeOf(s, es, k, ttl) + ttl <= Run(s, es, ttl).loops[l].now + d
  {
    BootInv(s);
    j := SweepSoundness(s, es, ttl, d, l, removed, ip);
    var now := Run(s, es, ttl).loops[l].now;
    forall k | j < k < |es| ensures !(es[k].Probe? && es[k].ip == ip) {
      NoSecondProbe(s, es, ttl, l, ip, now, k);
    }
  }

  /** What a cycle has marked it does not probe again. */
  lemma {:induction false} NoSecondProbe(s: State, es: seq<Event>, ttl: nat, l: nat, ip: Ip, now: nat, k: nat)
    requires Inv(s) && AtMostOneLoop(s) && Valid(s, es, ttl) && k < |es|
    requires MarkedAt(s, es[..k], ttl, l, ip, now)
    ensures !(es[k].Probe? && es[k].ip == ip)
  {
    RunKeepsInv(s, es[..k], ttl);
    ValidPrefix(s, es, ttl, k + 1);
    assert Front(es[..k + 1]) == es[..k] && Last(es[..k + 1]) == es[k];
    var p := Run(s, es[..k], ttl).loops[l];
    assert !Lists(p.todo, ip);
  }
}
