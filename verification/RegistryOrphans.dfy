/**
What remains of a silent node beside its row: with at most one probe loop nothing, with two possibly a
health entry that stays for good.
*/
module RegistryOrphans {
  import opened Common
  import opened Registry
  import opened RegistryAgreement
  import opened RegistryRemoval

  /** All loops but `m` stand where they stood. */
  ghost predicate OthersStand(s: State, s': State, m: nat) {
    s'.loops.Keys == s.loops.Keys && forall k :: k in s.loops && k != m ==> s'.loops[k] == s.loops[k]
  }

  // ---------------------------------------------------------------- cycles in which nobody answers

  /** Loop `m` gets a negative answer from every node left; an address not among them is not touched. */
  lemma {:induction false} NobodyAnswers(s0: State, es: seq<Event>, s: State, l: nat, m: nat, ip: Ip, ttl: nat,
                                         gap: nat, b: Ledger)
    returns (es': seq<Event>, s': State)
    requires Watched(s0, es, s, l, ip, ttl, gap, b) && Inv(s)
    requires m in s.loops && s.loops[m].Probing?
    ensures Watched(s0, es', s', l, ip, ttl, gap, b) && Inv(s') && s'.clock == s.clock && OthersStand(s, s', m)
    ensures s'.loops[m].Probing? && s'.loops[m].todo == []
    ensures !Lists(s.loops[m].todo, ip) ==>
      && (ip in s'.health <==> ip in s.health) && s'.table == s.table
      && (ip in s'.loops[m].expired <==> ip in s.loops[m].expired)
    decreases |s.loops[m].todo|
  {
    var p := s.loops[m];
    if p.todo == [] {
      es', s' := es, s;
    } else {
      var e := Probe(m, p.todo[0].ip, false);
      var es1, s1 := WatchStep(s0, es, s, l, e, ip, ttl, gap, b);
      StepKeepsInv(s, e, ttl);
      ListsTail(p.todo, ip);
      es', s' := NobodyAnswers(s0, es1, s1, l, m, ip, ttl, gap, b);
    }
  }

  /** One whole cycle of the observed loop, stamped at `t`. */
  lemma WholeCycle(s0: State, es: seq<Event>, s: State, l: nat, ip: Ip, t: nat, ttl: nat, gap: nat, b: Ledger)
    returns (es': seq<Event>, s': State)
    requires Watched(s0, es, s, l, ip, ttl, gap, b) && Inv(s) && l in s.loops && s.loops[l].Idle?
    requires s.clock <= t && b.regular && (b.stamp.Some? ==> b.stamp.value + gap <= t)
    ensures Watched(s0, es', s', l, ip, ttl, gap, Ledger(b.cycles + 1, false, Some(t), true)) && Inv(s')
    ensures OthersStand(s, s', l) && s'.loops[l].Idle? && s'.clock == t
  {
    var es1, s1 := WatchStep(s0, es, s, l, Tick(t), ip, ttl, gap, b);
    var es2, s2 := OpenWatched(s0, es1, s1, l, ip, ttl, gap, b);
    var es3, s3 := NobodyAnswers(s0, es2, s2, l, l, ip, ttl, gap, b.(open := true, stamp := Some(t)));
    var e := Finish(l, s3.loops[l].expired);
    es', s' := WatchStep(s0, es3, s3, l, e, ip, ttl, gap, b.(open := true, stamp := Some(t)));
    StepKeepsInv(s3, e, ttl);
  }

  lemma OpenWatched(s0: State, es: seq<Event>, s: State, l: nat, ip: Ip, ttl: nat, gap: nat, b: Ledger)
    returns (es': seq<Event>, s': State)
    requires Watched(s0, es, s, l, ip, ttl, gap, b) && Inv(s) && l in s.loops && s.loops[l].Idle?
    requires b.regular && (b.stamp.Some? ==> b.stamp.value + gap <= s.clock)
    ensures Watched(s0, es', s', l, ip, ttl, gap, b.(open := true, stamp := Some(s.clock))) && Inv(s')
    ensures OthersStand(s, s', l) && s'.loops[l].Probing? && s'.clock == s.clock
  {
    var nodes := ListingExists(s.table);
    var es1, s1 := WatchStep(s0, es, s, l, Begin(l, nodes), ip, ttl, gap, b);
    StepKeepsInv(s, Begin(l, nodes), ttl);
    es', s' := WatchStep(s0, es1, s1, l, Stamp(l), ip, ttl, gap, b.(open := true));
    StepKeepsInv(s1, Stamp(l), ttl);
  }

  /** As many cycles as one likes, `gap` apart. */
  lemma {:induction false} ManyCycles(s0: State, es: seq<Event>, s: State, l: nat, ip: Ip, n: nat, ttl: nat, gap: nat,
                                      b: Ledger)
    returns (es': seq<Event>, s': State, b': Ledger)
    requires Watched(s0, es, s, l, ip, ttl, gap, b) && Inv(s) && l in s.loops && s.loops[l].Idle?
    requires b.regular && (b.stamp.Some? ==> b.stamp.value <= s.clock)
    ensures Watched(s0, es', s', l, ip, ttl, gap, b') && Inv(s') && b'.regular && b'.cycles == b.cycles + n
    ensures OthersStand(s, s', l) && s'.loops[l].Idle?
    decreases n
  {
    if n == 0 {
      es', s', b' := es, s, b;
    } else {
      var es1, s1 := WholeCycle(s0, es, s, l, ip, s.clock + gap, ttl, gap, b);
      es', s', b' := ManyCycles(s0, es1, s1, l, ip, n - 1, ttl, gap,
                                Ledger(b.cycles + 1, false, Some(s.clock + gap), true));
    }
  }

  // ---------------------------------------------------------------- nothing here is older than the boot

  /** The recorded success of `ip` and every stamp are no older than `c`. */
  ghost predicate NotBefore(s: State, ip: Ip, c: nat) {
    && c <= s.clock
    && (ip in s.health ==> c <= s.health[ip].lastOk)
    && (forall l :: l in s.loops && s.loops[l].Probing? ==> c <= s.loops[l].now)
  }

  lemma {:induction false} RunKeepsNotBefore(s: State, es: seq<Event>, ttl: nat, ip: Ip, c: nat)
    requires NotBefore(s, ip, c) && Valid(s, es, ttl)
    ensures NotBefore(Run(s, es, ttl), ip, c)
    decreases |es|
  {
    if es == [] {
    } else {
      RunKeepsNotBefore(s, Front(es), ttl, ip, c);
    }
  }

  // ---------------------------------------------------------------- two loops leave an orphan

  ghost predicate IdleBut(s: State, m: nat) {
    forall k :: k in s.loops && k != m ==> s.loops[k].Idle?
  }

  /** Loop `m` is about to probe the silent node `ip`, which loop `l` has long removed. */
  lemma RemovedBehindItsBack(s0: State, l: nat, m: nat, ip: Ip, ttl: nat, gap: nat)
    returns (es: seq<Event>, s: State, b: Ledger)
    requires Booted(s0) && l in s0.loops && m in s0.loops && l != m && ip in s0.table && gap > 0
    ensures Watched(s0, es, s, l, ip, ttl, gap, b) && Inv(s) && b.regular
    ensures b.cycles == (ttl + gap - 1) / gap + 1 && ip !in s.table
    ensures m in s.loops && IdleBut(s, m)
    ensures s.loops[m].Probing? && s.loops[m].now == s0.clock && s.loops[m].expired == []
    ensures s.loops[m].todo != [] && s.loops[m].todo[0].ip == ip
  {
    BootInv(s0);
    var nodes := ListingFrom(s0.table, ip);
    var b0 := Ledger(0, false, None, true);
    var es1, s1 := WatchStep(s0, [], s0, l, Begin(m, nodes), ip, ttl, gap, b0);
    StepKeepsInv(s0, Begin(m, nodes), ttl);
    var es2, s2 := WatchStep(s0, es1, s1, l, Stamp(m), ip, ttl, gap, b0);
    StepKeepsInv(s1, Stamp(m), ttl);
    es, s, b := ManyCycles(s0, es2, s2, l, ip, (ttl + gap - 1) / gap + 1, ttl, gap, b0);
    BoundedRemoval(s0, es, l, ip, ttl, gap);
  }

  /** Once the cycles that remove the row of a silent node are done, its health entry is gone as well. */
  ghost predicate HealthFollows(s0: State, l: nat, ip: Ip, ttl: nat, gap: nat)
    requires gap > 0
  {
    forall es :: Valid(s0, es, ttl) && Silent(es, ip) && Observe(s0, es, l, ttl, gap).regular &&
                 Observe(s0, es, l, ttl, gap).cycles >= (ttl + gap - 1) / gap + 1 ==>
      ip !in Run(s0, es, ttl).health
  }

  lemma FollowsAt(s0: State, es: seq<Event>, s: State, l: nat, ip: Ip, ttl: nat, gap: nat, b: Ledger)
    requires gap > 0 && HealthFollows(s0, l, ip, ttl, gap) && Watched(s0, es, s, l, ip, ttl, gap, b)
    requires b.regular && b.cycles >= (ttl + gap - 1) / gap + 1
    ensures ip !in s.health
  {
  }

  /**
  The exact condition.  For a stored node that falls silent, the health entry goes with the row, in every
  run with enough regular cycles of a loop, if and only if that loop is the only one.
  */
  lemma HealthFollowsIffOneLoop(s0: State, l: nat, ip: Ip, ttl: nat, gap: nat)
    requires Booted(s0) && l in s0.loops && ip in s0.table && gap > 0
    ensures HealthFollows(s0, l, ip, ttl, gap) <==> AtMostOneLoop(s0)
  {
    BootInv(s0);
    if AtMostOneLoop(s0) {
      forall es | Valid(s0, es, ttl) && Silent(es, ip) && Observe(s0, es, l, ttl, gap).regular &&
                  Observe(s0, es, l, ttl, gap).cycles >= (ttl + gap - 1) / gap + 1
        ensures ip !in Run(s0, es, ttl).health
      {
        BoundedRemoval(s0, es, l, ip, ttl, gap);
      }
    } else {
      var m :| m in s0.loops && m != l;
      var es, s, b := RemovedBehindItsBack(s0, l, m, ip, ttl, gap);
      var es1, s1 := WatchStep(s0, es, s, l, Probe(m, ip, false), ip, ttl, gap, b);
      assert ip in s1.health;
      if HealthFollows(s0, l, ip, ttl, gap) {
        FollowsAt(s0, es1, s1, l, ip, ttl, gap, b);
      }
    }
  }

  // ---------------------------------------------------------------- and it stays

  ghost predicate Knows(p: Loop, ip: Ip) {
    match p
    case Idle => false
    case Listed(nodes) => Lists(nodes, ip)
    case Probing(_, todo, expired) => Lists(todo, ip) || ip in expired
  }

  /** A health entry without a row that no loop is going to probe or sweep. */
  ghost predicate Stranded(s: State, ip: Ip) {
    ip in s.health && ip !in s.table && forall l :: l in s.loops ==> !Knows(s.loops[l], ip)
  }

  lemma StepKeepsStranded(s: State, e: Event, ttl: nat, ip: Ip)
    requires Stranded(s, ip) && Enabled(s, e) && !e.Restart? && !(e.Register? && e.node.ip == ip)
    ensures Stranded(Apply(s, e, ttl), ip)
  {
    if e.Probe? {
      assert !Knows(s.loops[e.l], ip);
      ListsTail(s.loops[e.l].todo, ip);
    } else if e.Finish? {
      assert !Knows(s.loops[e.l], ip);
    }
  }

  /** Only a registration or a restart ends this. */
  lemma {:induction false} StrandedForGood(s: State, es: seq<Event>, ttl: nat, ip: Ip)
    requires Stranded(s, ip) && Valid(s, es, ttl)
    requires forall k :: 0 <= k < |es| ==> !es[k].Restart? && !(es[k].Register? && es[k].node.ip == ip)
    ensures Stranded(Run(s, es, ttl), ip)
    decreases |es|
  {
    if es == [] {
    } else {
      StrandedForGood(s, Front(es), ttl, ip);
      StepKeepsStranded(Run(s, Front(es), ttl), Last(es), ttl, ip);
    }
  }

  /** With two loops a silent node can leave such an entry, for every `ttl > 0` and every table. */
  lemma SilentNodeStranded(s0: State, l: nat, m: nat, ip: Ip, ttl: nat, gap: nat) returns (es: seq<Event>, s: State)
    requires Booted(s0) && l in s0.loops && m in s0.loops && l != m && ip in s0.table && gap > 0 && ttl > 0
    ensures Valid(s0, es, ttl) && Run(s0, es, ttl) == s && Silent(es, ip) && Stranded(s, ip)
  {
    var es1, s1, b := RemovedBehindItsBack(s0, l, m, ip, ttl, gap);
    RunKeepsNotBefore(s0, es1, ttl, ip, s0.clock);
    var todo := s1.loops[m].todo;
    HeadOnce(todo);
    var e := Probe(m, ip, false);
    var es2, s2 := WatchStep(s0, es1, s1, l, e, ip, ttl, gap, b);
    StepKeepsInv(s1, e, ttl);
    assert s2.loops[m] == Probing(s0.clock, todo[1..], []);
    var es3, s3 := NobodyAnswers(s0, es2, s2, l, m, ip, ttl, gap, b);
    es, s := WatchStep(s0, es3, s3, l, Finish(m, s3.loops[m].expired), ip, ttl, gap, b);
  }
}
