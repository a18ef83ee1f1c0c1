/**
Any number of plugin instances that share one Redis, as a state machine. One step is one
command at Redis, one call into or out of an instance, one move of a detached goroutine,
one write applied by a replica, or the passing of time; steps of all instances interleave
freely.
*/
module Protocol {
  import opened Wrappers
  import opened Dns
  import opened Ttl
  import opened Keys
  import opened Payload
  import opened Decisions
  import opened Redis

  // ---- the fleet ----

  datatype Instance = Instance(keyer: Keyer, ttl: TtlConfig, inZone: Name -> bool)

  datatype Fleet = Fleet(codec: Codec, hash: Hash, instances: seq<Instance>)

  /** Faithful packing, and bounds as accepted configurations have them. */
  ghost predicate ValidFleet(f: Fleet) {
    Faithful(f.codec) && forall i | 0 <= i < |f.instances| :: WellReadConfig(f.instances[i].ttl)
  }

  function SettingsOf(f: Fleet, i: nat): Settings
    requires i < |f.instances|
  {
    Settings(f.codec, f.hash, f.instances[i].keyer, f.instances[i].ttl)
  }

  function LookupKey(f: Fleet, i: nat, r: Msg): string
    requires i < |f.instances|
  {
    KeyOf(f.hash, f.instances[i].keyer, RequestSlot(r))
  }

  // ---- the state ----

  datatype Node = Primary | Replica(index: nat)

  /** What GET answered, the entry it saw, and how far the node had applied the log. */
  datatype Got = Got(reply: GetReply, entry: Option<nat>, at: nat, pos: nat)

  /** A request is looked up, and then either served from the cache or passed to the next plugin. */
  datatype Stage =
    | Looking
    | Reading(got: Got)
    | Served(read: nat)
    | Passed(caching: bool)
    | Down

  /** `sent` are the cached messages written to the client, `nexts` counts the calls of the next plugin. */
  datatype Request = Request(inst: nat, msg: Msg, stage: Stage, sent: seq<Msg>, nexts: nat)

  /** A completed lookup. `seen` is the number of upstream replies, `written` of writes at Redis, before its end. */
  datatype Lookup = Lookup(
    inst: nat,
    msg: Msg,
    key: string,
    got: Got,
    ttl: TtlReply,
    ttlEntry: Option<nat>,
    ttlAt: nat,
    ttlPos: nat,
    seen: nat,
    written: nat,
    outcome: Outcome)

  /** A reply the next plugin wrote through the caching writer. */
  datatype Reply = Reply(inst: nat, request: Msg, msg: Msg, rtype: ResponseType, at: nat)

  /**
  A detached write or eviction; its phase is kept apart. A write sends SET with EX, the
  duration in whole seconds.
  */
  datatype SetJob = SetJob(inst: nat, plan: Plan, ex: nat, reply: nat)
  datatype EvictJob = EvictJob(inst: nat, key: string, cause: nat)

  /** Queued before single-flight; leading or joined in it; `Landed` once Redis has the command; then over. */
  datatype Phase = Queued | Leading | Landed | Over

  /** The single-flight group's table: who leads for an instance and key. */
  type Flights = map<(nat, string), nat>

  datatype Metrics = Metrics(requests: nat, hits: nat, errors: nat, collisions: nat)

  datatype World = World(
    now: nat,
    log: seq<Op>,
    replicas: seq<nat>,
    requests: seq<Request>,
    lookups: seq<Lookup>,
    replies: seq<Reply>,
    sets: seq<SetJob>,
    setPhase: seq<Phase>,
    setFlights: Flights,
    evicts: seq<EvictJob>,
    evictPhase: seq<Phase>,
    evictFlights: Flights,
    metrics: seq<Metrics>)

  ghost predicate Init(f: Fleet, w: World) {
    && w.now == 0 && w.log == [] && w.requests == [] && w.lookups == [] && w.replies == []
    && w.sets == [] && w.setPhase == [] && w.setFlights == map[]
    && w.evicts == [] && w.evictPhase == [] && w.evictFlights == map[]
    && (forall r | r in w.replicas :: r == 0)
    && |w.metrics| == |f.instances| && forall m | m in w.metrics :: m == Metrics(0, 0, 0, 0)
  }

  // ---- the steps ----

  datatype Event =
    | Arrive(inst: nat, msg: Msg)
    | DoGet(q: nat, node: Node, fails: bool)
    | DoTtl(q: nat, node: Node, fails: bool)
    | Upstream(q: nat, reply: Msg, rtype: ResponseType)
    | LeadSet(job: nat) | JoinSet(job: nat) | LandSet(job: nat) | EndSet(job: nat)
    | LeadEvict(job: nat) | JoinEvict(job: nat) | LandEvict(job: nat) | EndEvict(job: nat)
    | Replicate(replica: nat)
    | Tick(ms: nat)
    | ForeignSet(key: string, value: seq<byte>, deadline: Option<nat>)

  ghost predicate NodeExists(w: World, n: Node) {
    n.Replica? ==> n.index < |w.replicas| && w.replicas[n.index] <= |w.log|
  }

  /** How much of the log the primary or a replica has applied. */
  ghost function PosAt(w: World, n: Node): (p: nat)
    requires NodeExists(w, n)
    ensures p <= |w.log|
  {
    if n.Primary? then |w.log| else w.replicas[n.index]
  }

  ghost function LogAt(w: World, n: Node): seq<Op>
    requires NodeExists(w, n)
  {
    w.log[..PosAt(w, n)]
  }

  ghost predicate Enabled(f: Fleet, w: World, e: Event) {
    match e
    case Arrive(i, _) => i < |f.instances|
    case DoGet(q, node, _) =>
      && q < |w.requests| && w.requests[q].inst < |f.instances|
      && w.requests[q].stage.Looking? && NodeExists(w, node)
    case DoTtl(q, node, _) =>
      && q < |w.requests| && w.requests[q].inst < |f.instances| && w.requests[q].inst < |w.metrics|
      && w.requests[q].stage.Reading? && NodeExists(w, node)
    case Upstream(q, _, _) => q < |w.requests| && w.requests[q].inst < |f.instances| && w.requests[q].stage.Passed?
    case LeadSet(j) => CanLead(w.setPhase, j) && j < |w.sets| && SetFlight(w, j) !in w.setFlights
    case JoinSet(j) => CanLead(w.setPhase, j) && j < |w.sets| && SetFlight(w, j) in w.setFlights
    case LandSet(j) => j < |w.sets| && j < |w.setPhase| && w.setPhase[j] == Leading
    case EndSet(j) => j < |w.sets| && j < |w.setPhase| && w.setPhase[j] in {Leading, Landed}
    case LeadEvict(j) => CanLead(w.evictPhase, j) && j < |w.evicts| && EvictFlight(w, j) !in w.evictFlights
    case JoinEvict(j) => CanLead(w.evictPhase, j) && j < |w.evicts| && EvictFlight(w, j) in w.evictFlights
    case LandEvict(j) => j < |w.evicts| && j < |w.evictPhase| && w.evictPhase[j] == Leading
    case EndEvict(j) => j < |w.evicts| && j < |w.evictPhase| && w.evictPhase[j] in {Leading, Landed}
    case Replicate(r) => r < |w.replicas| && w.replicas[r] < |w.log|
    case Tick(_) => true
    case ForeignSet(_, _, _) => true
  }

  predicate CanLead(phase: seq<Phase>, j: nat) {
    j < |phase| && phase[j] == Queued
  }

  function SetFlight(w: World, j: nat): (nat, string)
    requires j < |w.sets|
  {
    (w.sets[j].inst, w.sets[j].plan.key)
  }

  function EvictFlight(w: World, j: nat): (nat, string)
    requires j < |w.evicts|
  {
    (w.evicts[j].inst, w.evicts[j].key)
  }

  ghost function Apply(f: Fleet, w: World, e: Event): World
    requires Enabled(f, w, e)
  {
    match e
    case Arrive(i, m) => ApplyArrive(f, w, i, m)
    case DoGet(q, node, fails) => ApplyGet(f, w, q, node, fails)
    case DoTtl(q, node, fails) => ApplyTtl(f, w, q, node, fails)
    case Upstream(q, reply, t) => ApplyUpstream(f, w, q, reply, t)
    case LeadSet(j) => w.(setPhase := w.setPhase[j := Leading], setFlights := w.setFlights[SetFlight(w, j) := j])
    case JoinSet(j) => w.(setPhase := w.setPhase[j := Over])
    case LandSet(j) => w.(setPhase := w.setPhase[j := Landed], log := w.log + [SetOp(w, j)])
    case EndSet(j) => w.(setPhase := w.setPhase[j := Over], setFlights := w.setFlights - {SetFlight(w, j)})
    case LeadEvict(j) => w.(evictPhase := w.evictPhase[j := Leading], evictFlights := w.evictFlights[EvictFlight(w, j) := j])
    case JoinEvict(j) => w.(evictPhase := w.evictPhase[j := Over])
    case LandEvict(j) => w.(evictPhase := w.evictPhase[j := Landed], log := w.log + [Expire(w.evicts[j].key, w.now, j)])
    case EndEvict(j) => w.(evictPhase := w.evictPhase[j := Over], evictFlights := w.evictFlights - {EvictFlight(w, j)})
    case Replicate(r) => w.(replicas := w.replicas[r := w.replicas[r] + 1])
    case Tick(ms) => w.(now := w.now + ms)
    case ForeignSet(key, value, deadline) => w.(log := w.log + [Set(key, value, deadline, w.now, Foreign)])
  }

  /** A request out of zone goes to the next plugin with the plain writer. */
  ghost function ApplyArrive(f: Fleet, w: World, i: nat, m: Msg): World
    requires i < |f.instances|
  {
    var r := if f.instances[i].inZone(QName(m)) then Request(i, m, Looking, [], 0) else Request(i, m, Passed(false), [], 1);
    w.(requests := w.requests + [r])
  }

  ghost function ApplyGet(f: Fleet, w: World, q: nat, node: Node, fails: bool): World
    requires Enabled(f, w, DoGet(q, node, fails))
  {
    var r := w.requests[q];
    var key, log := LookupKey(f, r.inst, r.msg), LogAt(w, node);
    var got :=
      if fails then Got(GetFailed, None, w.now, PosAt(w, node))
      else Got(GetFrom(log, key, w.now), Visible(log, key, w.now), w.now, PosAt(w, node));
    w.(requests := w.requests[q := r.(stage := Reading(got))])
  }

  /** TTL is answered, perhaps by another node, the lookup ends, and the request is served or passed on. */
  ghost function ApplyTtl(f: Fleet, w: World, q: nat, node: Node, fails: bool): World
    requires Enabled(f, w, DoTtl(q, node, fails))
  {
    var r := w.requests[q];
    var read := ReadAt(f, w, q, node, fails);
    var r' :=
      match read.outcome
      case Hit(m) => r.(stage := Served(|w.lookups|), sent := r.sent + [FromCache(r.msg, m)])
      case Crash => r.(stage := Down)
      case _ => r.(stage := Passed(true), nexts := r.nexts + 1);
    var w' := w.(
      requests := w.requests[q := r'],
      lookups := w.lookups + [read],
      metrics := w.metrics[r.inst := Observe(w.metrics[r.inst], read.outcome)]);
    if read.outcome.Evicts() then
      w'.(evicts := w.evicts + [EvictJob(r.inst, read.key, |w.lookups|)], evictPhase := w.evictPhase + [Queued])
    else w'
  }

  ghost function ReadAt(f: Fleet, w: World, q: nat, node: Node, fails: bool): Lookup
    requires Enabled(f, w, DoTtl(q, node, fails))
  {
    var r := w.requests[q];
    var key, log, got := LookupKey(f, r.inst, r.msg), LogAt(w, node), r.stage.got;
    var ttl := if fails then TtlFailed else Seconds(TtlFrom(log, key, w.now));
    var entry := if fails then None else Visible(log, key, w.now);
    var outcome := Judge(f.codec, r.msg, got.reply, ttl);
    Lookup(r.inst, r.msg, key, got, ttl, entry, w.now, PosAt(w, node), |w.replies|, |w.log|, outcome)
  }

  /** The counters of metrics.go; the request histogram also counts a lookup that comes down. */
  function Observe(m: Metrics, o: Outcome): Metrics {
    var m := m.(requests := m.requests + 1);
    match o
    case Hit(_) => m.(hits := m.hits + 1)
    case ReadFailed => m.(errors := m.errors + 1)
    case BadPayload => m.(errors := m.errors + 1)
    case Collision => m.(collisions := m.collisions + 1)
    case _ => m
  }

  /** The next plugin writes a reply; the caching writer may start a detached SET. */
  ghost function ApplyUpstream(f: Fleet, w: World, q: nat, reply: Msg, t: ResponseType): World
    requires Enabled(f, w, Upstream(q, reply, t))
  {
    var r := w.requests[q];
    if !r.stage.caching then w
    else
      var w' := w.(replies := w.replies + [Reply(r.inst, r.msg, reply, t, w.now)]);
      match PlanFor(SettingsOf(f, r.inst), r.msg, reply, t)
      case None => w'
      case Some(plan) =>
        var job := SetJob(r.inst, plan, WholeSeconds(plan.duration), |w.replies|);
        w'.(sets := w.sets + [job], setPhase := w.setPhase + [Queued])
  }

  function WholeSeconds(d: Duration): nat {
    if d < 0 then 0 else d / SECOND
  }

  /** SET with an expiry; the client library sends none for a duration that is not positive. */
  ghost function SetOp(w: World, j: nat): Op
    requires j < |w.sets|
  {
    var job := w.sets[j];
    var deadline := if job.plan.duration > 0 then Some(w.now + 1000 * job.ex) else None;
    Set(job.plan.key, job.plan.payload, deadline, w.now, FromJob(j))
  }

  // ---- runs ----

  /** The world after some steps from an initial world, if they can be taken. */
  ghost function Run(f: Fleet, w: World, es: seq<Event>): Option<World> {
    if es == [] then Some(w)
    else
      match Run(f, w, es[..|es| - 1])
      case None => None
      case Some(w') => if Enabled(f, w', es[|es| - 1]) then Some(Apply(f, w', es[|es| - 1])) else None
  }

  lemma RunOne(f: Fleet, w: World, e: Event)
    requires Enabled(f, w, e)
    ensures Run(f, w, [e]) == Some(Apply(f, w, e))
  {
    assert [e][..0] == [];
  }

  lemma {:induction false} RunConcat(f: Fleet, w: World, a: seq<Event>, b: seq<Event>)
    requires Run(f, w, a).Some?
    ensures Run(f, w, a + b) == Run(f, Run(f, w, a).value, b)
    decreases |b|
  {
    if b == [] {
      assert a + b == a;
    } else {
      var n := |b| - 1;
      RunConcat(f, w, a, b[..n]);
      assert (a + b)[..|a + b| - 1] == a + b[..n];
    }
  }

  ghost predicate Reaches(f: Fleet, es: seq<Event>, w: World) {
    exists w0 :: Init(f, w0) && Run(f, w0, es) == Some(w)
  }

  /** What can be run from a state that is reached, reaches. */
  lemma ReachesOn(f: Fleet, es: seq<Event>, w: World, more: seq<Event>, w': World)
    requires Reaches(f, es, w) && Run(f, w, more) == Some(w')
    ensures Reaches(f, es + more, w')
  {
    var w0 :| Init(f, w0) && Run(f, w0, es) == Some(w);
    RunConcat(f, w0, es, more);
  }
}
