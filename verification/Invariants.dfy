/** What every step of the fleet keeps. */
module Invariants {
  import opened Wrappers
  import opened Dns
  import opened Decisions
  import opened Redis
  import opened Protocol
  import opened SingleFlight

  // ---- what is said of each part of the state ----

  /**
  Write `i` of the log. A SET of the plugin is its job's plan, with the plan's expiry; an
  eviction comes after the end of the lookup that caused it.
  */
  ghost predicate OpOk(sets: seq<SetJob>, evicts: seq<EvictJob>, lookups: seq<Lookup>, i: nat, op: Op, now: nat) {
    && op.at <= now
    && match op
       case Set(key, value, deadline, at, origin) =>
         origin.FromJob? ==>
           && origin.job < |sets|
           && var job := sets[origin.job];
           key == job.plan.key && value == job.plan.payload && deadline == Some(at + 1000 * job.ex)
       case Expire(key, at, job) =>
         && job < |evicts| && key == evicts[job].key
         && evicts[job].cause < |lookups|
         && lookups[evicts[job].cause].written <= i && lookups[evicts[job].cause].ttlAt <= at
  }

  ghost predicate LogOk(sets: seq<SetJob>, evicts: seq<EvictJob>, lookups: seq<Lookup>, log: seq<Op>, now: nat) {
    forall i | 0 <= i < |log| :: OpOk(sets, evicts, lookups, i, log[i], now)
  }

  /** A job stores what its reply's plan says. */
  ghost predicate JobOk(f: Fleet, replies: seq<Reply>, job: SetJob) {
    && job.ex == WholeSeconds(job.plan.duration)
    && job.reply < |replies|
    && var r := replies[job.reply];
    r.inst == job.inst < |f.instances| && PlanFor(SettingsOf(f, r.inst), r.request, r.msg, r.rtype) == Some(job.plan)
  }

  ghost predicate JobsOk(f: Fleet, replies: seq<Reply>, sets: seq<SetJob>) {
    forall j | 0 <= j < |sets| :: JobOk(f, replies, sets[j])
  }

  /** An eviction was caused by a bad read of its key. */
  ghost predicate EvictOk(lookups: seq<Lookup>, e: EvictJob) {
    && e.cause < |lookups|
    && lookups[e.cause].outcome.Evicts() && lookups[e.cause].key == e.key && lookups[e.cause].inst == e.inst
  }

  ghost predicate EvictsOk(lookups: seq<Lookup>, evicts: seq<EvictJob>) {
    forall j | 0 <= j < |evicts| :: EvictOk(lookups, evicts[j])
  }

  /** `i` is an entry of the key, live at `at`. */
  ghost predicate EntryOk(log: seq<Op>, key: string, i: nat, at: nat) {
    i < |log| && log[i].Set? && log[i].key == key && log[i].at <= at && Live(log[i], at)
  }

  ghost predicate GotOk(log: seq<Op>, key: string, got: Got, now: nat) {
    && got.at <= now
    && got.pos <= |log| && (got.reply.GetFailed? || got.entry == Visible(log[..got.pos], key, got.at))
    && match got.entry
       case None => !got.reply.Value?
       case Some(i) => EntryOk(log, key, i, got.at) && got.reply == Value(log[i].value)
  }

  ghost predicate TtlOk(log: seq<Op>, l: Lookup) {
    && l.ttlPos <= |log| && (l.ttl.TtlFailed? || l.ttlEntry == Visible(log[..l.ttlPos], l.key, l.ttlAt))
    && match l.ttlEntry
    case None => l.ttl == TtlFailed || l.ttl == Seconds(-2)
    case Some(i) => EntryOk(log, l.key, i, l.ttlAt) && l.ttl == Seconds(TtlOf(log[i], l.ttlAt))
  }

  /** A lookup saw entries of its key, and one of the plugin's only after the reply that it holds. */
  ghost predicate LookupOk(f: Fleet, log: seq<Op>, sets: seq<SetJob>, l: Lookup, now: nat) {
    && l.inst < |f.instances| && l.key == LookupKey(f, l.inst, l.msg)
    && GotOk(log, l.key, l.got, l.ttlAt) && TtlOk(log, l) && l.ttlAt <= now
    && l.got.pos <= l.written && l.ttlPos <= l.written <= |log|
    && l.outcome == Judge(f.codec, l.msg, l.got.reply, l.ttl)
    && (l.got.entry.Some? ==>
          var o := log[l.got.entry.value].origin;
          o.FromJob? ==> o.job < |sets| && sets[o.job].reply < l.seen)
  }

  ghost predicate LookupsOk(f: Fleet, log: seq<Op>, sets: seq<SetJob>, lookups: seq<Lookup>, now: nat) {
    forall i | 0 <= i < |lookups| :: LookupOk(f, log, sets, lookups[i], now)
  }

  /** A request has been answered from the cache once, or passed on once, or is still looked up. */
  ghost predicate RequestOk(f: Fleet, log: seq<Op>, lookups: seq<Lookup>, r: Request, now: nat) {
    && r.inst < |f.instances|
    && var zoned := f.instances[r.inst].inZone(QName(r.msg));
    match r.stage
    case Looking => zoned && r.sent == [] && r.nexts == 0
    case Reading(got) => zoned && r.sent == [] && r.nexts == 0 && GotOk(log, LookupKey(f, r.inst, r.msg), got, now)
    case Served(k) =>
      && zoned && r.nexts == 0 && k < |lookups|
      && lookups[k].inst == r.inst && lookups[k].msg == r.msg && lookups[k].outcome.Hit?
      && r.sent == [FromCache(r.msg, lookups[k].outcome.msg)]
    case Passed(caching) => caching == zoned && r.sent == [] && r.nexts == 1
    case Down => zoned && r.sent == [] && r.nexts == 0
  }

  ghost predicate RequestsOk(f: Fleet, log: seq<Op>, lookups: seq<Lookup>, requests: seq<Request>, now: nat) {
    forall i | 0 <= i < |requests| :: RequestOk(f, log, lookups, requests[i], now)
  }

  predicate IsPluginSet(op: Op) {
    op.Set? && op.origin.FromJob?
  }

  function SetKeys(sets: seq<SetJob>): (r: seq<(nat, string)>)
    ensures |r| == |sets|
    ensures forall j | 0 <= j < |sets| :: r[j] == (sets[j].inst, sets[j].plan.key)
  {
    seq(|sets|, j requires 0 <= j < |sets| => (sets[j].inst, sets[j].plan.key))
  }

  function EvictKeys(evicts: seq<EvictJob>): (r: seq<(nat, string)>)
    ensures |r| == |evicts|
    ensures forall j | 0 <= j < |evicts| :: r[j] == (evicts[j].inst, evicts[j].key)
  {
    seq(|evicts|, j requires 0 <= j < |evicts| => (evicts[j].inst, evicts[j].key))
  }

  /** The ways a lookup ends, as far as the counters tell them apart. */
  datatype Kind = AHit | AnError | ACollision | AMiss | ACrash

  function KindOf(o: Outcome): Kind {
    match o
    case Hit(_) => AHit
    case ReadFailed => AnError
    case BadPayload => AnError
    case Collision => ACollision
    case Crash => ACrash
    case Miss => AMiss
    case EmptyValue => AMiss
  }

  /** How many of an instance's lookups ended that way. */
  ghost function Count(lookups: seq<Lookup>, inst: nat, kind: Kind): nat {
    if lookups == [] then 0
    else
      var l := lookups[|lookups| - 1];
      Count(lookups[..|lookups| - 1], inst, kind) + (if l.inst == inst && KindOf(l.outcome) == kind then 1 else 0)
  }

  ghost function Total(lookups: seq<Lookup>, inst: nat): nat {
    if lookups == [] then 0
    else Total(lookups[..|lookups| - 1], inst) + (if lookups[|lookups| - 1].inst == inst then 1 else 0)
  }

  ghost predicate MetricsOk(f: Fleet, lookups: seq<Lookup>, metrics: seq<Metrics>) {
    && |metrics| == |f.instances|
    && forall i | 0 <= i < |metrics| ::
         metrics[i] ==
         Metrics(Total(lookups, i), Count(lookups, i, AHit), Count(lookups, i, AnError), Count(lookups, i, ACollision))
  }

  ghost predicate ReplicasOk(replicas: seq<nat>, log: seq<Op>) {
    forall r | 0 <= r < |replicas| :: replicas[r] <= |log|
  }

  ghost predicate Inv(f: Fleet, w: World) {
    && LogOk(w.sets, w.evicts, w.lookups, w.log, w.now)
    && JobsOk(f, w.replies, w.sets)
    && EvictsOk(w.lookups, w.evicts)
    && LookupsOk(f, w.log, w.sets, w.lookups, w.now)
    && RequestsOk(f, w.log, w.lookups, w.requests, w.now)
    && FlightsOk(SetKeys(w.sets), w.setPhase, w.setFlights)
    && FlightsOk(EvictKeys(w.evicts), w.evictPhase, w.evictFlights)
    && MetricsOk(f, w.lookups, w.metrics)
    && ReplicasOk(w.replicas, w.log)
  }

  // ---- growth ----

  lemma OpOkGrows(sets: seq<SetJob>, evicts: seq<EvictJob>, lookups: seq<Lookup>, i: nat, op: Op, now: nat,
                  sets': seq<SetJob>, evicts': seq<EvictJob>, lookups': seq<Lookup>, now': nat)
    requires OpOk(sets, evicts, lookups, i, op, now)
    requires sets <= sets' && evicts <= evicts' && lookups <= lookups' && now <= now'
    ensures OpOk(sets', evicts', lookups', i, op, now')
  {
  }

  lemma LookupOkGrows(f: Fleet, log: seq<Op>, sets: seq<SetJob>, l: Lookup, now: nat,
                      log': seq<Op>, sets': seq<SetJob>, now': nat)
    requires LookupOk(f, log, sets, l, now)
    requires log <= log' && sets <= sets' && now <= now'
    ensures LookupOk(f, log', sets', l, now')
  {
    assert log'[..l.got.pos] == log[..l.got.pos] && log'[..l.ttlPos] == log[..l.ttlPos];
  }

  lemma RequestOkGrows(f: Fleet, log: seq<Op>, lookups: seq<Lookup>, r: Request, now: nat,
                       log': seq<Op>, lookups': seq<Lookup>, now': nat)
    requires RequestOk(f, log, lookups, r, now)
    requires log <= log' && lookups <= lookups' && now <= now'
    ensures RequestOk(f, log', lookups', r, now')
  {
    if r.stage.Reading? {
      assert log'[..r.stage.got.pos] == log[..r.stage.got.pos];
    }
  }

  lemma LogGrows(sets: seq<SetJob>, evicts: seq<EvictJob>, lookups: seq<Lookup>, log: seq<Op>, now: nat,
                 sets': seq<SetJob>, evicts': seq<EvictJob>, lookups': seq<Lookup>, now': nat)
    requires LogOk(sets, evicts, lookups, log, now)
    requires sets <= sets' && evicts <= evicts' && lookups <= lookups' && now <= now'
    ensures LogOk(sets', evicts', lookups', log, now')
  {
    forall i | 0 <= i < |log| ensures OpOk(sets', evicts', lookups', i, log[i], now') {
      OpOkGrows(sets, evicts, lookups, i, log[i], now, sets', evicts', lookups', now');
    }
  }

  lemma LookupsGrow(f: Fleet, log: seq<Op>, sets: seq<SetJob>, lookups: seq<Lookup>, now: nat,
                    log': seq<Op>, sets': seq<SetJob>, now': nat)
    requires LookupsOk(f, log, sets, lookups, now)
    requires log <= log' && sets <= sets' && now <= now'
    ensures LookupsOk(f, log', sets', lookups, now')
  {
    forall i | 0 <= i < |lookups| ensures LookupOk(f, log', sets', lookups[i], now') {
      LookupOkGrows(f, log, sets, lookups[i], now, log', sets', now');
    }
  }

  lemma RequestsGrow(f: Fleet, log: seq<Op>, lookups: seq<Lookup>, requests: seq<Request>, now: nat,
                     log': seq<Op>, lookups': seq<Lookup>, now': nat)
    requires RequestsOk(f, log, lookups, requests, now)
    requires log <= log' && lookups <= lookups' && now <= now'
    ensures RequestsOk(f, log', lookups', requests, now')
  {
    forall i | 0 <= i < |requests| ensures RequestOk(f, log', lookups', requests[i], now') {
      RequestOkGrows(f, log, lookups, requests[i], now, log', lookups', now');
    }
  }

  lemma JobsGrow(f: Fleet, replies: seq<Reply>, sets: seq<SetJob>, lookups: seq<Lookup>, evicts: seq<EvictJob>,
                 replies': seq<Reply>, lookups': seq<Lookup>)
    requires JobsOk(f, replies, sets) && EvictsOk(lookups, evicts)
    requires replies <= replies' && lookups <= lookups'
    ensures JobsOk(f, replies', sets) && EvictsOk(lookups', evicts)
  {
    assert forall j | 0 <= j < |sets| :: JobOk(f, replies, sets[j]);
    assert forall j | 0 <= j < |evicts| :: EvictOk(lookups, evicts[j]);
  }

  /** The histories only grow, and what held of their parts still holds. */
  lemma HistoriesGrow(f: Fleet, w: World, w': World)
    requires Inv(f, w)
    requires w.log <= w'.log && w.sets <= w'.sets && w.evicts <= w'.evicts
    requires w.lookups <= w'.lookups && w.replies <= w'.replies && w.now <= w'.now
    ensures LogOk(w'.sets, w'.evicts, w'.lookups, w.log, w'.now)
    ensures JobsOk(f, w'.replies, w.sets)
    ensures EvictsOk(w'.lookups, w.evicts)
    ensures LookupsOk(f, w'.log, w'.sets, w.lookups, w'.now)
    ensures RequestsOk(f, w'.log, w'.lookups, w.requests, w'.now)
    ensures ReplicasOk(w.replicas, w'.log)
  {
    LogGrows(w.sets, w.evicts, w.lookups, w.log, w.now, w'.sets, w'.evicts, w'.lookups, w'.now);
    LookupsGrow(f, w.log, w.sets, w.lookups, w.now, w'.log, w'.sets, w'.now);
    RequestsGrow(f, w.log, w.lookups, w.requests, w.now, w'.log, w'.lookups, w'.now);
    JobsGrow(f, w.replies, w.sets, w.lookups, w.evicts, w'.replies, w'.lookups);
  }

  // ---- the steps of a request ----

  lemma ArriveKeeps(f: Fleet, w: World, i: nat, m: Msg)
    requires Inv(f, w) && i < |f.instances|
    ensures Inv(f, ApplyArrive(f, w, i, m))
  {
  }

  lemma GetKeeps(f: Fleet, w: World, q: nat, node: Node, fails: bool)
    requires Inv(f, w) && Enabled(f, w, DoGet(q, node, fails))
    ensures Inv(f, ApplyGet(f, w, q, node, fails))
  {
    var w', r := ApplyGet(f, w, q, node, fails), w.requests[q];
    var key := LookupKey(f, r.inst, r.msg);
    assert RequestOk(f, w.log, w.lookups, r, w.now);
    VisibleOk(w, node, key);
    assert RequestOk(f, w.log, w.lookups, w'.requests[q], w.now);
  }

  /** What a node shows is an entry of the log. */
  lemma VisibleOk(w: World, node: Node, key: string)
    requires LogOk(w.sets, w.evicts, w.lookups, w.log, w.now) && NodeExists(w, node)
    ensures var v := Visible(LogAt(w, node), key, w.now);
            && (v.Some? ==> EntryOk(w.log, key, v.value, w.now) && LogAt(w, node)[v.value] == w.log[v.value])
  {
    var v := Visible(LogAt(w, node), key, w.now);
    if v.Some? {
      assert OpOk(w.sets, w.evicts, w.lookups, v.value, w.log[v.value], w.now);
    }
  }

  lemma LookupEnds(f: Fleet, w: World, q: nat, node: Node, fails: bool)
    requires Inv(f, w) && Enabled(f, w, DoTtl(q, node, fails))
    ensures LookupOk(f, w.log, w.sets, ReadAt(f, w, q, node, fails), w.now)
  {
    var r, l := w.requests[q], ReadAt(f, w, q, node, fails);
    assert RequestOk(f, w.log, w.lookups, r, w.now);
    VisibleOk(w, node, l.key);
    if l.got.entry.Some? {
      var op := w.log[l.got.entry.value];
      assert OpOk(w.sets, w.evicts, w.lookups, l.got.entry.value, op, w.now);
      if op.origin.FromJob? {
        assert JobOk(f, w.replies, w.sets[op.origin.job]);
      }
    }
  }

  lemma MetricsStep(f: Fleet, lookups: seq<Lookup>, metrics: seq<Metrics>, l: Lookup)
    requires MetricsOk(f, lookups, metrics) && l.inst < |metrics|
    ensures MetricsOk(f, lookups + [l], metrics[l.inst := Observe(metrics[l.inst], l.outcome)])
  {
    var all := lookups + [l];
    assert all[..|all| - 1] == lookups;
  }

  lemma TtlKeepsRequests(f: Fleet, w: World, q: nat, node: Node, fails: bool)
    requires Inv(f, w) && Enabled(f, w, DoTtl(q, node, fails))
    ensures var w' := ApplyTtl(f, w, q, node, fails); RequestsOk(f, w'.log, w'.lookups, w'.requests, w'.now)
  {
    var w' := ApplyTtl(f, w, q, node, fails);
    HistoriesGrow(f, w, w');
    RequestEnds(f, w, q, node, fails);
  }

  lemma RequestEnds(f: Fleet, w: World, q: nat, node: Node, fails: bool)
    requires Enabled(f, w, DoTtl(q, node, fails)) && RequestOk(f, w.log, w.lookups, w.requests[q], w.now)
    ensures var w' := ApplyTtl(f, w, q, node, fails); RequestOk(f, w'.log, w'.lookups, w'.requests[q], w'.now)
  {
    assert ApplyTtl(f, w, q, node, fails).lookups[|w.lookups|] == ReadAt(f, w, q, node, fails);
  }

  lemma LookupsAppend(f: Fleet, w: World, l: Lookup)
    requires LookupsOk(f, w.log, w.sets, w.lookups, w.now) && LookupOk(f, w.log, w.sets, l, w.now)
    ensures LookupsOk(f, w.log, w.sets, w.lookups + [l], w.now)
  {
  }

  lemma EvictSpawned(w: World, l: Lookup)
    requires EvictsOk(w.lookups, w.evicts) && l.outcome.Evicts()
    requires FlightsOk(EvictKeys(w.evicts), w.evictPhase, w.evictFlights)
    ensures var evicts := w.evicts + [EvictJob(l.inst, l.key, |w.lookups|)];
            EvictsOk(w.lookups + [l], evicts) && FlightsOk(EvictKeys(evicts), w.evictPhase + [Queued], w.evictFlights)
  {
    var evicts := w.evicts + [EvictJob(l.inst, l.key, |w.lookups|)];
    SpawnKeeps(EvictKeys(w.evicts), w.evictPhase, w.evictFlights, (l.inst, l.key));
    assert EvictKeys(evicts) == EvictKeys(w.evicts) + [(l.inst, l.key)];
    forall j | 0 <= j < |w.evicts| ensures EvictOk(w.lookups + [l], w.evicts[j]) {
      assert EvictOk(w.lookups, w.evicts[j]);
    }
  }

  lemma TtlKeeps(f: Fleet, w: World, q: nat, node: Node, fails: bool)
    requires Inv(f, w) && Enabled(f, w, DoTtl(q, node, fails))
    ensures Inv(f, ApplyTtl(f, w, q, node, fails))
  {
    var w', l := ApplyTtl(f, w, q, node, fails), ReadAt(f, w, q, node, fails);
    HistoriesGrow(f, w, w');
    LookupEnds(f, w, q, node, fails);
    LookupsAppend(f, w, l);
    MetricsStep(f, w.lookups, w.metrics, l);
    TtlKeepsRequests(f, w, q, node, fails);
    if l.outcome.Evicts() {
      EvictSpawned(w, l);
    }
  }

  /** A reply that is not stored. */
  lemma ReplyKeeps(f: Fleet, w: World, r: Reply)
    requires Inv(f, w)
    ensures Inv(f, w.(replies := w.replies + [r]))
  {
    HistoriesGrow(f, w, w.(replies := w.replies + [r]));
  }

  /** A reply that is stored, with the job that will store it. */
  lemma StoredReplyKeeps(f: Fleet, w: World, r: Reply, job: SetJob)
    requires Inv(f, w) && job.reply == |w.replies| && JobOk(f, w.replies + [r], job)
    ensures Inv(f, w.(replies := w.replies + [r], sets := w.sets + [job], setPhase := w.setPhase + [Queued]))
  {
    var w' := w.(replies := w.replies + [r], sets := w.sets + [job], setPhase := w.setPhase + [Queued]);
    HistoriesGrow(f, w, w');
    SpawnKeeps(SetKeys(w.sets), w.setPhase, w.setFlights, (job.inst, job.plan.key));
    assert SetKeys(w'.sets) == SetKeys(w.sets) + [(job.inst, job.plan.key)];
  }

  lemma UpstreamKeeps(f: Fleet, w: World, q: nat, reply: Msg, t: ResponseType)
    requires Inv(f, w) && Enabled(f, w, Upstream(q, reply, t))
    ensures Inv(f, ApplyUpstream(f, w, q, reply, t))
  {
    var r := w.requests[q];
    var rep := Reply(r.inst, r.msg, reply, t, w.now);
    if r.stage.caching {
      match PlanFor(SettingsOf(f, r.inst), r.msg, reply, t)
      case None => ReplyKeeps(f, w, rep);
      case Some(plan) => StoredReplyKeeps(f, w, rep, SetJob(r.inst, plan, WholeSeconds(plan.duration), |w.replies|));
    }
  }

  // ---- the steps of the detached jobs ----

  /** Only the phases and the table change. */
  lemma PhasesKeep(f: Fleet, w: World, w': World)
    requires Inv(f, w)
    requires w' == w.(setPhase := w'.setPhase, setFlights := w'.setFlights,
                      evictPhase := w'.evictPhase, evictFlights := w'.evictFlights)
    requires FlightsOk(SetKeys(w.sets), w'.setPhase, w'.setFlights)
    requires FlightsOk(EvictKeys(w.evicts), w'.evictPhase, w'.evictFlights)
    ensures Inv(f, w')
  {
  }

  lemma SetStepKeeps(f: Fleet, w: World, e: Event)
    requires Inv(f, w) && Enabled(f, w, e) && (e.LeadSet? || e.JoinSet? || e.EndSet?)
    ensures Inv(f, Apply(f, w, e))
  {
    var keys := SetKeys(w.sets);
    assert keys[e.job] == SetFlight(w, e.job);
    match e {
      case LeadSet(j) => LeadKeeps(keys, w.setPhase, w.setFlights, j);
      case JoinSet(j) => JoinKeeps(keys, w.setPhase, w.setFlights, j);
      case EndSet(j) => EndKeeps(keys, w.setPhase, w.setFlights, j);
    }
    PhasesKeep(f, w, Apply(f, w, e));
  }

  lemma EvictStepKeeps(f: Fleet, w: World, e: Event)
    requires Inv(f, w) && Enabled(f, w, e) && (e.LeadEvict? || e.JoinEvict? || e.EndEvict?)
    ensures Inv(f, Apply(f, w, e))
  {
    var keys := EvictKeys(w.evicts);
    assert keys[e.job] == EvictFlight(w, e.job);
    match e {
      case LeadEvict(j) => LeadKeeps(keys, w.evictPhase, w.evictFlights, j);
      case JoinEvict(j) => JoinKeeps(keys, w.evictPhase, w.evictFlights, j);
      case EndEvict(j) => EndKeeps(keys, w.evictPhase, w.evictFlights, j);
    }
    PhasesKeep(f, w, Apply(f, w, e));
  }

  lemma LogOkAppend(sets: seq<SetJob>, evicts: seq<EvictJob>, lookups: seq<Lookup>, log: seq<Op>, now: nat, op: Op)
    requires LogOk(sets, evicts, lookups, log, now) && OpOk(sets, evicts, lookups, |log|, op, now)
    ensures LogOk(sets, evicts, lookups, log + [op], now)
  {
  }

  /** Redis takes one more write. */
  lemma WriteKeeps(f: Fleet, w: World, op: Op)
    requires Inv(f, w) && OpOk(w.sets, w.evicts, w.lookups, |w.log|, op, w.now)
    ensures Inv(f, w.(log := w.log + [op]))
  {
    HistoriesGrow(f, w, w.(log := w.log + [op]));
    LogOkAppend(w.sets, w.evicts, w.lookups, w.log, w.now, op);
  }

  lemma JobPositive(f: Fleet, replies: seq<Reply>, job: SetJob)
    requires JobOk(f, replies, job)
    ensures job.plan.duration > 0
  {
  }

  lemma SetOpOk(f: Fleet, w: World, j: nat)
    requires JobsOk(f, w.replies, w.sets) && j < |w.sets|
    ensures OpOk(w.sets, w.evicts, w.lookups, |w.log|, SetOp(w, j), w.now)
  {
    JobPositive(f, w.replies, w.sets[j]);
  }

  lemma LandedKeeps(f: Fleet, w: World, j: nat)
    requires Inv(f, w) && Enabled(f, w, LandSet(j))
    ensures Inv(f, w.(setPhase := w.setPhase[j := Landed]))
  {
    LandKeeps(SetKeys(w.sets), w.setPhase, w.setFlights, j);
    PhasesKeep(f, w, w.(setPhase := w.setPhase[j := Landed]));
  }

  lemma LandSetKeeps(f: Fleet, w: World, j: nat)
    requires Inv(f, w) && Enabled(f, w, LandSet(j))
    ensures Inv(f, Apply(f, w, LandSet(j)))
  {
    LandedKeeps(f, w, j);
    SetOpOk(f, w, j);
    WriteKeeps(f, w.(setPhase := w.setPhase[j := Landed]), SetOp(w, j));
  }

  lemma EvictOpOk(f: Fleet, w: World, j: nat)
    requires EvictsOk(w.lookups, w.evicts) && LookupsOk(f, w.log, w.sets, w.lookups, w.now) && j < |w.evicts|
    ensures OpOk(w.sets, w.evicts, w.lookups, |w.log|, Expire(w.evicts[j].key, w.now, j), w.now)
  {
    assert EvictOk(w.lookups, w.evicts[j]);
    assert LookupOk(f, w.log, w.sets, w.lookups[w.evicts[j].cause], w.now);
  }

  lemma LandEvictKeeps(f: Fleet, w: World, j: nat)
    requires Inv(f, w) && Enabled(f, w, LandEvict(j))
    ensures Inv(f, Apply(f, w, LandEvict(j)))
  {
    var op := Expire(w.evicts[j].key, w.now, j);
    var w1 := w.(evictPhase := w.evictPhase[j := Landed]);
    LandKeeps(EvictKeys(w.evicts), w.evictPhase, w.evictFlights, j);
    PhasesKeep(f, w, w1);
    EvictOpOk(f, w, j);
    WriteKeeps(f, w1, op);
  }

  lemma TimeKeeps(f: Fleet, w: World, ms: nat)
    requires Inv(f, w)
    ensures Inv(f, w.(now := w.now + ms))
  {
    HistoriesGrow(f, w, w.(now := w.now + ms));
  }

  lemma ForeignKeeps(f: Fleet, w: World, op: Op)
    requires Inv(f, w) && op.Set? && op.at == w.now && op.origin == Foreign
    ensures Inv(f, w.(log := w.log + [op]))
  {
    WriteKeeps(f, w, op);
  }

  lemma ReplicateKeeps(f: Fleet, w: World, r: nat)
    requires Inv(f, w) && r < |w.replicas| && w.replicas[r] < |w.log|
    ensures Inv(f, w.(replicas := w.replicas[r := w.replicas[r] + 1]))
  {
  }

  // ---- every run ----

  lemma InitOk(f: Fleet, w: World)
    requires Init(f, w)
    ensures Inv(f, w)
  {
    assert forall i | 0 <= i < |w.metrics| :: w.metrics[i] in w.metrics;
    assert forall r | 0 <= r < |w.replicas| :: w.replicas[r] in w.replicas;
  }

  lemma StepKeeps(f: Fleet, w: World, e: Event)
    requires Inv(f, w) && Enabled(f, w, e)
    ensures Inv(f, Apply(f, w, e))
  {
    match e
    case Arrive(i, m) => ArriveKeeps(f, w, i, m);
    case DoGet(q, node, fails) => GetKeeps(f, w, q, node, fails);
    case DoTtl(q, node, fails) => TtlKeeps(f, w, q, node, fails);
    case Upstream(q, reply, t) => UpstreamKeeps(f, w, q, reply, t);
    case LeadSet(_) => SetStepKeeps(f, w, e);
    case JoinSet(_) => SetStepKeeps(f, w, e);
    case LandSet(j) => LandSetKeeps(f, w, j);
    case EndSet(_) => SetStepKeeps(f, w, e);
    case LeadEvict(_) => EvictStepKeeps(f, w, e);
    case JoinEvict(_) => EvictStepKeeps(f, w, e);
    case LandEvict(j) => LandEvictKeeps(f, w, j);
    case EndEvict(_) => EvictStepKeeps(f, w, e);
    case Replicate(r) => ReplicateKeeps(f, w, r);
    case Tick(ms) => TimeKeeps(f, w, ms);
    case ForeignSet(key, value, deadline) => ForeignKeeps(f, w, Set(key, value, deadline, w.now, Foreign));
  }

  lemma {:induction false} RunKeeps(f: Fleet, w0: World, es: seq<Event>)
    requires Init(f, w0) && Run(f, w0, es).Some?
    ensures Inv(f, Run(f, w0, es).value)
  {
    if es == [] {
      InitOk(f, w0);
    } else {
      RunKeeps(f, w0, es[..|es| - 1]);
      StepKeeps(f, Run(f, w0, es[..|es| - 1]).value, es[|es| - 1]);
    }
  }

  /** The invariant holds in every state of every run. */
  lemma Always(f: Fleet, es: seq<Event>, w: World)
    requires Reaches(f, es, w)
    ensures Inv(f, w)
  {
    var w0 :| Init(f, w0) && Run(f, w0, es) == Some(w);
    RunKeeps(f, w0, es);
  }
}
