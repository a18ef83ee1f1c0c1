/**
What the steps of the fleet bring about: a reply that is stored is there to be served, and
a bad entry is gone once its eviction has landed.
*/
module Progress {
  import opened Wrappers
  import opened Dns
  import opened Payload
  import opened Decisions
  import opened Redis
  import opened Protocol
  import opened Counting
  import opened Invariants
  import opened Theorems

  // ---- storing ----

  /** The plan of a reply to request `q`. */
  ghost function PlanAt(f: Fleet, w: World, q: nat, reply: Msg, t: ResponseType): Option<Plan>
    requires q < |w.requests| && w.requests[q].inst < |f.instances|
  {
    PlanFor(SettingsOf(f, w.requests[q].inst), w.requests[q].msg, reply, t)
  }

  /** A reply through the caching writer that is to be stored, with no write of its key under way. */
  ghost predicate ReadyToStore(f: Fleet, w: World, q: nat, reply: Msg, t: ResponseType) {
    && q < |w.requests| && w.requests[q].inst < |f.instances| && w.requests[q].stage == Passed(true)
    && PlanAt(f, w, q, reply, t).Some?
    && (w.requests[q].inst, PlanAt(f, w, q, reply, t).value.key) !in w.setFlights
  }

  /** The reply comes in; its detached write enters single-flight; its SET reaches Redis. */
  ghost function StoreSteps(w: World, q: nat, reply: Msg, t: ResponseType): seq<Event> {
    [Upstream(q, reply, t), LeadSet(|w.sets|), LandSet(|w.sets|)]
  }

  /** `w'` has the reply and, as the last write and visible, the entry that holds it. */
  ghost predicate Stored(f: Fleet, w: World, q: nat, reply: Msg, t: ResponseType, w': World)
    requires ReadyToStore(f, w, q, reply, t)
  {
    && w'.requests == w.requests
    && w'.replies == w.replies + [Reply(w.requests[q].inst, w.requests[q].msg, reply, t, w.now)]
    && |w'.log| == |w.log| + 1 && |w'.sets| == |w.sets| + 1
    && IsPluginSet(w'.log[|w.log|]) && w'.log[|w.log|].origin.job == |w.sets| && w'.sets[|w.sets|].reply == |w.replies|
    && Visible(w'.log, PlanAt(f, w, q, reply, t).value.key, w'.now) == Some(|w.log|)
  }

  lemma RunThree(f: Fleet, w: World, c: Event, d: Event, e: Event)
    requires Enabled(f, w, c) && Enabled(f, Apply(f, w, c), d) && Enabled(f, Apply(f, Apply(f, w, c), d), e)
    ensures Run(f, w, [c, d, e]) == Some(Apply(f, Apply(f, Apply(f, w, c), d), e))
  {
    RunTwo(f, w, c, d);
    RunOne(f, Apply(f, Apply(f, w, c), d), e);
    RunConcat(f, w, [c, d], [e]);
    assert [c, d] + [e] == [c, d, e];
  }

  lemma UpstreamStep(f: Fleet, w: World, q: nat, reply: Msg, t: ResponseType)
    requires ReadyToStore(f, w, q, reply, t) && |w.setPhase| == |w.sets|
    ensures Enabled(f, w, Upstream(q, reply, t))
    ensures var plan := PlanAt(f, w, q, reply, t).value;
            var r := w.requests[q];
            Apply(f, w, Upstream(q, reply, t)) ==
            w.(replies := w.replies + [Reply(r.inst, r.msg, reply, t, w.now)],
               sets := w.sets + [SetJob(r.inst, plan, WholeSeconds(plan.duration), |w.replies|)],
               setPhase := w.setPhase + [Queued])
  {
  }

  lemma LastVisible(log: seq<Op>, op: Op, now: nat)
    requires op.Set? && Live(op, now)
    ensures Visible(log + [op], op.key, now) == Some(|log|)
  {
  }

  /** From any state of any run, the three steps store the reply under its slot's key. */
  lemma StoreLands(f: Fleet, es: seq<Event>, w: World, q: nat, reply: Msg, t: ResponseType) returns (w': World)
    requires Reaches(f, es, w) && ReadyToStore(f, w, q, reply, t)
    ensures Run(f, w, StoreSteps(w, q, reply, t)) == Some(w')
    ensures Stored(f, w, q, reply, t, w')
  {
    PhasePerJob(f, es, w);
    UpstreamStep(f, w, q, reply, t);
    var j := |w.sets|;
    var w1 := Apply(f, w, Upstream(q, reply, t));
    var w2 := Apply(f, w1, LeadSet(j));
    w' := Apply(f, w2, LandSet(j));
    RunThree(f, w, Upstream(q, reply, t), LeadSet(j), LandSet(j));
    PlanDuration(SettingsOf(f, w.requests[q].inst), w.requests[q].msg, reply, t);
    LastVisible(w.log, SetOp(w2, j), w.now);
  }

  // ---- serving what was stored ----

  lemma ArriveStep(f: Fleet, w: World, i: nat, m: Msg)
    requires i < |f.instances| && f.instances[i].inZone(QName(m))
    ensures Run(f, w, [Arrive(i, m)]) == Some(w.(requests := w.requests + [Request(i, m, Looking, [], 0)]))
  {
    RunOne(f, w, Arrive(i, m));
  }

  /**
  What one client's request brought in, every later request for the slot is served. From
  any state of any run: store a reply, then let a request for the reply's slot arrive at
  any instance with the same prefix and seed; reading the primary serves that reply.
  */
  lemma CachedIsServed(f: Fleet, es: seq<Event>, w: World, q: nat, reply: Msg, t: ResponseType, i: nat, m: Msg)
    requires Faithful(f.codec) && Reaches(f, es, w) && ReadyToStore(f, w, q, reply, t)
    requires i < |f.instances| && f.instances[i].inZone(QName(m))
    requires f.instances[i].keyer == f.instances[w.requests[q].inst].keyer
    requires RequestSlot(m) == ReplySlot(w.requests[q].msg, reply)
    ensures var p := |w.requests|;
            var run := Run(f, w, StoreSteps(w, q, reply, t) + [Arrive(i, m)] +
                                 [DoGet(p, Primary, false), DoTtl(p, Primary, false)]);
            && run.Some? && p < |run.value.requests| && run.value.requests[p].stage.Served?
            && |run.value.requests[p].sent| == 1 && AnswersWith(run.value.requests[p].sent[0], m, reply)
  {
    var p := |w.requests|;
    var w1 := StoreLands(f, es, w, q, reply, t);
    var store := StoreSteps(w, q, reply, t);
    ReachesOn(f, es, w, store, w1);
    ArriveStep(f, w1, i, m);
    var w2 := w1.(requests := w1.requests + [Request(i, m, Looking, [], 0)]);
    ReachesOn(f, es + store, w1, [Arrive(i, m)], w2);
    RunConcat(f, w, store, [Arrive(i, m)]);
    PlanKey(SettingsOf(f, w.requests[q].inst), w.requests[q].msg, reply, t);
    LiveEntryServed(f, es + store + [Arrive(i, m)], w2, p, |w.log|);
    RunConcat(f, w, store + [Arrive(i, m)], [DoGet(p, Primary, false), DoTtl(p, Primary, false)]);
  }

  // ---- evicting ----

  /** The lookup ends badly; its eviction enters single-flight; its EXPIRE reaches Redis. */
  ghost function HealSteps(w: World, q: nat, node: Node, fails: bool): seq<Event> {
    [DoTtl(q, node, fails), LeadEvict(|w.evicts|), LandEvict(|w.evicts|)]
  }

  lemma BadTtlStep(f: Fleet, w: World, q: nat, node: Node, fails: bool)
    requires Enabled(f, w, DoTtl(q, node, fails)) && Bad(ReadAt(f, w, q, node, fails).outcome)
    ensures var w', l := Apply(f, w, DoTtl(q, node, fails)), ReadAt(f, w, q, node, fails);
            && w'.evicts == w.evicts + [EvictJob(l.inst, l.key, |w.lookups|)] && w'.evictPhase == w.evictPhase + [Queued]
            && w'.evictFlights == w.evictFlights && w'.log == w.log && w'.now == w.now
  {
  }

  /**
  The cache heals itself. From any state of any run, a lookup that ends with an empty, an
  undecodable or a colliding value leaves its key absent once its eviction has landed.
  */
  lemma BadEntryGoes(f: Fleet, es: seq<Event>, w: World, q: nat, node: Node, fails: bool)
    requires Reaches(f, es, w) && Enabled(f, w, DoTtl(q, node, fails))
    requires Bad(ReadAt(f, w, q, node, fails).outcome)
    requires (w.requests[q].inst, ReadAt(f, w, q, node, fails).key) !in w.evictFlights
    ensures var run := Run(f, w, HealSteps(w, q, node, fails));
            run.Some? && Visible(run.value.log, ReadAt(f, w, q, node, fails).key, run.value.now) == None
  {
    PhasePerJob(f, es, w);
    BadTtlStep(f, w, q, node, fails);
    var j := |w.evicts|;
    RunThree(f, w, DoTtl(q, node, fails), LeadEvict(j), LandEvict(j));
  }
}
