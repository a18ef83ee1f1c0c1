/**
The detached jobs of a run: exactly one for every reply to store and for every bad read,
and at most one command for every job.
*/
module Counting {
  import opened Wrappers
  import opened Dns
  import opened Decisions
  import opened Redis
  import opened Protocol

  // ---- what is counted ----

  /** The two kinds of detached jobs. */
  datatype JobKind = Storing | Evicting

  /** The job of that kind that sent a write. */
  function JobOf(op: Op, kind: JobKind): Option<nat> {
    match op
    case Set(_, _, _, _, FromJob(j)) => if kind.Storing? then Some(j) else None
    case Set(_, _, _, _, Foreign) => None
    case Expire(_, _, j) => if kind.Evicting? then Some(j) else None
  }

  /** How many commands of detached jobs of that kind Redis got. */
  ghost function Commands(log: seq<Op>, kind: JobKind): nat {
    if log == [] then 0
    else Commands(log[..|log| - 1], kind) + if JobOf(log[|log| - 1], kind).Some? then 1 else 0
  }

  /** The reply is to be stored. */
  ghost predicate ToStore(f: Fleet, r: Reply) {
    r.inst < |f.instances| && PlanFor(SettingsOf(f, r.inst), r.request, r.msg, r.rtype).Some?
  }

  /** The number of upstream replies that are to be stored. */
  ghost function Storable(f: Fleet, replies: seq<Reply>): nat {
    if replies == [] then 0
    else Storable(f, replies[..|replies| - 1]) + if ToStore(f, replies[|replies| - 1]) then 1 else 0
  }

  /** The lookup found an empty value, one that does not decode, or one of another slot. */
  predicate Bad(o: Outcome) {
    o.EmptyValue? || o.BadPayload? || o.Collision?
  }

  /** The number of bad reads. */
  ghost function BadReads(lookups: seq<Lookup>): nat {
    if lookups == [] then 0
    else BadReads(lookups[..|lookups| - 1]) + if Bad(lookups[|lookups| - 1].outcome) then 1 else 0
  }

  // ---- what every step keeps ----

  /** No job's command is in the log twice, and none before it landed. */
  ghost predicate Once(log: seq<Op>, phase: seq<Phase>, kind: JobKind) {
    && (forall i | 0 <= i < |log| && JobOf(log[i], kind).Some? ::
          JobOf(log[i], kind).value < |phase| && phase[JobOf(log[i], kind).value] in {Landed, Over})
    && (forall i, j | 0 <= i < j < |log| && JobOf(log[i], kind).Some? :: JobOf(log[i], kind) != JobOf(log[j], kind))
  }

  ghost predicate Counted(f: Fleet, w: World) {
    && |w.setPhase| == |w.sets| == Storable(f, w.replies)
    && |w.evictPhase| == |w.evicts| == BadReads(w.lookups)
    && Once(w.log, w.setPhase, Storing)
    && Once(w.log, w.evictPhase, Evicting)
  }

  lemma OncePhase(log: seq<Op>, phase: seq<Phase>, kind: JobKind, j: nat, p: Phase)
    requires Once(log, phase, kind) && j < |phase|
    requires phase[j] == Queued || p == Over
    ensures Once(log, phase[j := p], kind)
  {
  }

  lemma LandOnce(log: seq<Op>, phase: seq<Phase>, kind: JobKind, j: nat, op: Op)
    requires Once(log, phase, kind) && j < |phase| && phase[j] == Leading && JobOf(op, kind) == Some(j)
    ensures Once(log + [op], phase[j := Landed], kind)
  {
  }

  lemma OtherWriteOnce(log: seq<Op>, phase: seq<Phase>, kind: JobKind, op: Op)
    requires Once(log, phase, kind) && JobOf(op, kind).None?
    ensures Once(log + [op], phase, kind)
  {
  }

  lemma StorableAppend(f: Fleet, replies: seq<Reply>, r: Reply)
    ensures Storable(f, replies + [r]) == Storable(f, replies) + if ToStore(f, r) then 1 else 0
  {
    assert (replies + [r])[..|replies|] == replies;
  }

  lemma BadReadsAppend(lookups: seq<Lookup>, l: Lookup)
    ensures BadReads(lookups + [l]) == BadReads(lookups) + if Bad(l.outcome) then 1 else 0
  {
    assert (lookups + [l])[..|lookups|] == lookups;
  }

  lemma WriteCounted(f: Fleet, w: World, e: Event)
    requires Counted(f, w) && Enabled(f, w, e) && (e.LandSet? || e.LandEvict? || e.ForeignSet?)
    ensures Counted(f, Apply(f, w, e))
  {
    match e
    case LandSet(j) =>
      LandOnce(w.log, w.setPhase, Storing, j, SetOp(w, j));
      OtherWriteOnce(w.log, w.evictPhase, Evicting, SetOp(w, j));
    case LandEvict(j) =>
      LandOnce(w.log, w.evictPhase, Evicting, j, Expire(w.evicts[j].key, w.now, j));
      OtherWriteOnce(w.log, w.setPhase, Storing, Expire(w.evicts[j].key, w.now, j));
    case ForeignSet(key, value, deadline) =>
      OtherWriteOnce(w.log, w.setPhase, Storing, Set(key, value, deadline, w.now, Foreign));
      OtherWriteOnce(w.log, w.evictPhase, Evicting, Set(key, value, deadline, w.now, Foreign));
  }

  lemma TtlCounted(f: Fleet, w: World, q: nat, node: Node, fails: bool)
    requires Counted(f, w) && Enabled(f, w, DoTtl(q, node, fails))
    ensures Counted(f, ApplyTtl(f, w, q, node, fails))
  {
    var w' := ApplyTtl(f, w, q, node, fails);
    BadReadsAppend(w.lookups, ReadAt(f, w, q, node, fails));
    OnceGrows(w.log, w.evictPhase, w'.evictPhase, Evicting);
  }

  lemma UpstreamCounted(f: Fleet, w: World, q: nat, reply: Msg, t: ResponseType)
    requires Counted(f, w) && Enabled(f, w, Upstream(q, reply, t))
    ensures Counted(f, ApplyUpstream(f, w, q, reply, t))
  {
    var w' := ApplyUpstream(f, w, q, reply, t);
    StorableAppend(f, w.replies, Reply(w.requests[q].inst, w.requests[q].msg, reply, t, w.now));
    OnceGrows(w.log, w.setPhase, w'.setPhase, Storing);
  }

  lemma OnceGrows(log: seq<Op>, phase: seq<Phase>, phase': seq<Phase>, kind: JobKind)
    requires Once(log, phase, kind) && phase <= phase'
    ensures Once(log, phase', kind)
  {
  }

  lemma StepCounted(f: Fleet, w: World, e: Event)
    requires Counted(f, w) && Enabled(f, w, e)
    ensures Counted(f, Apply(f, w, e))
  {
    match e
    case DoTtl(q, node, fails) => TtlCounted(f, w, q, node, fails);
    case Upstream(q, reply, t) => UpstreamCounted(f, w, q, reply, t);
    case LandSet(_) => WriteCounted(f, w, e);
    case LandEvict(_) => WriteCounted(f, w, e);
    case ForeignSet(_, _, _) => WriteCounted(f, w, e);
    case LeadSet(j) => OncePhase(w.log, w.setPhase, Storing, j, Leading);
    case JoinSet(j) => OncePhase(w.log, w.setPhase, Storing, j, Over);
    case EndSet(j) => OncePhase(w.log, w.setPhase, Storing, j, Over);
    case LeadEvict(j) => OncePhase(w.log, w.evictPhase, Evicting, j, Leading);
    case JoinEvict(j) => OncePhase(w.log, w.evictPhase, Evicting, j, Over);
    case EndEvict(j) => OncePhase(w.log, w.evictPhase, Evicting, j, Over);
    case _ =>
  }

  lemma {:induction false} RunCounted(f: Fleet, w0: World, es: seq<Event>)
    requires Init(f, w0) && Run(f, w0, es).Some?
    ensures Counted(f, Run(f, w0, es).value)
  {
    if es != [] {
      RunCounted(f, w0, es[..|es| - 1]);
      StepCounted(f, Run(f, w0, es[..|es| - 1]).value, es[|es| - 1]);
    }
  }

  // ---- the bounds ----

  /** The jobs whose commands Redis got. */
  ghost function JobsIn(log: seq<Op>, kind: JobKind): set<nat> {
    if log == [] then {}
    else
      var last := JobOf(log[|log| - 1], kind);
      JobsIn(log[..|log| - 1], kind) + if last.Some? then {last.value} else {}
  }

  lemma {:induction false} JobSent(log: seq<Op>, kind: JobKind, x: nat) returns (i: nat)
    requires x in JobsIn(log, kind)
    ensures i < |log| && JobOf(log[i], kind) == Some(x)
  {
    i := |log| - 1;
    if JobOf(log[i], kind) != Some(x) {
      i := JobSent(log[..i], kind, x);
    }
  }

  lemma {:induction false} CommandsAreJobs(log: seq<Op>, phase: seq<Phase>, kind: JobKind)
    requires Once(log, phase, kind)
    ensures Commands(log, kind) == |JobsIn(log, kind)|
  {
    if log != [] {
      var init, last := log[..|log| - 1], JobOf(log[|log| - 1], kind);
      assert Once(init, phase, kind);
      CommandsAreJobs(init, phase, kind);
      if last.Some? && last.value in JobsIn(init, kind) {
        var i := JobSent(init, kind, last.value);
        assert false;
      }
    }
  }

  lemma {:induction false} BoundedCard(s: set<nat>, n: nat)
    requires forall x | x in s :: x < n
    ensures |s| <= n
  {
    if n == 0 {
      assert s == {};
    } else {
      BoundedCard(s - {n - 1}, n - 1);
      assert s - {n - 1} == if n - 1 in s then s - {n - 1} else s;
    }
  }

  lemma CommandsAtMost(log: seq<Op>, phase: seq<Phase>, kind: JobKind)
    requires Once(log, phase, kind)
    ensures Commands(log, kind) <= |phase|
  {
    CommandsAreJobs(log, phase, kind);
    forall x | x in JobsIn(log, kind) ensures x < |phase| {
      var i := JobSent(log, kind, x);
    }
    BoundedCard(JobsIn(log, kind), |phase|);
  }

  /** Redis never gets more SETs of the plugin than there were replies to store, nor more evictions than bad reads. */
  lemma CommandsBounded(f: Fleet, es: seq<Event>, w: World)
    requires Reaches(f, es, w)
    ensures Commands(w.log, Storing) <= Storable(f, w.replies)
    ensures Commands(w.log, Evicting) <= BadReads(w.lookups)
  {
    var w0 :| Init(f, w0) && Run(f, w0, es) == Some(w);
    RunCounted(f, w0, es);
    CommandsAtMost(w.log, w.setPhase, Storing);
    CommandsAtMost(w.log, w.evictPhase, Evicting);
  }

  /** A job's command reaches Redis at most once. */
  lemma SentOnce(f: Fleet, es: seq<Event>, w: World, kind: JobKind, i: nat, j: nat)
    requires Reaches(f, es, w) && i < j < |w.log| && JobOf(w.log[i], kind).Some?
    ensures JobOf(w.log[i], kind) != JobOf(w.log[j], kind)
  {
    var w0 :| Init(f, w0) && Run(f, w0, es) == Some(w);
    RunCounted(f, w0, es);
  }

  // ---- the jobs of lookups and replies ----

  /** Job `j` evicts the key of lookup `n`, for its instance. */
  ghost predicate EvictJobOf(lookups: seq<Lookup>, evicts: seq<EvictJob>, n: nat, j: nat) {
    && n < |lookups| && j < |evicts| && evicts[j].cause == n
    && evicts[j].inst == lookups[n].inst && evicts[j].key == lookups[n].key
  }

  /** Job `j` stores reply `k`, for its instance and by its plan. */
  ghost predicate SetJobOf(f: Fleet, replies: seq<Reply>, sets: seq<SetJob>, k: nat, j: nat) {
    && k < |replies| && j < |sets| && sets[j].reply == k
    && sets[j].inst == replies[k].inst < |f.instances|
    && var r := replies[k];
    PlanFor(SettingsOf(f, r.inst), r.request, r.msg, r.rtype) == Some(sets[j].plan)
  }

  /** Evictions stand in the order of the bad reads that caused them, one for each. */
  ghost predicate EvictsMatched(lookups: seq<Lookup>, evicts: seq<EvictJob>) {
    && (forall j | 0 <= j < |evicts| ::
          EvictJobOf(lookups, evicts, evicts[j].cause, j) && Bad(lookups[evicts[j].cause].outcome))
    && (forall i, j | 0 <= i < j < |evicts| :: evicts[i].cause < evicts[j].cause)
    && (forall n | 0 <= n < |lookups| && Bad(lookups[n].outcome) :: exists j: nat :: EvictJobOf(lookups, evicts, n, j))
  }

  /** The order of the jobs is that of their replies. */
  ghost predicate InOrder(sets: seq<SetJob>) {
    forall i, j | 0 <= i < j < |sets| :: sets[i].reply < sets[j].reply
  }

  /** Writes stand in the order of the replies they store, one for each that is to be stored. */
  ghost predicate SetsMatched(f: Fleet, replies: seq<Reply>, sets: seq<SetJob>) {
    && (forall j | 0 <= j < |sets| :: SetJobOf(f, replies, sets, sets[j].reply, j))
    && InOrder(sets)
    && (forall k | 0 <= k < |replies| && ToStore(f, replies[k]) :: exists j: nat :: SetJobOf(f, replies, sets, k, j))
  }

  lemma LookupMatched(lookups: seq<Lookup>, evicts: seq<EvictJob>, l: Lookup)
    requires EvictsMatched(lookups, evicts)
    ensures EvictsMatched(lookups + [l], evicts + if Bad(l.outcome) then [EvictJob(l.inst, l.key, |lookups|)] else [])
  {
    var lookups', evicts' := lookups + [l], evicts + if Bad(l.outcome) then [EvictJob(l.inst, l.key, |lookups|)] else [];
    forall j | 0 <= j < |evicts| ensures EvictJobOf(lookups', evicts', evicts'[j].cause, j) {
      assert EvictJobOf(lookups, evicts, evicts[j].cause, j);
    }
    forall n | 0 <= n < |lookups'| && Bad(lookups'[n].outcome)
      ensures exists j: nat :: EvictJobOf(lookups', evicts', n, j)
    {
      if n < |lookups| {
        var j: nat :| EvictJobOf(lookups, evicts, n, j);
        assert EvictJobOf(lookups', evicts', n, j);
      } else {
        assert EvictJobOf(lookups', evicts', n, |evicts|);
      }
    }
  }

  lemma SetJobGrows(f: Fleet, replies: seq<Reply>, sets: seq<SetJob>, k: nat, j: nat, r: Reply, more: seq<SetJob>)
    requires SetJobOf(f, replies, sets, k, j)
    ensures SetJobOf(f, replies + [r], sets + more, k, j)
  {
    assert (replies + [r])[k] == replies[k] && (sets + more)[j] == sets[j];
  }

  lemma WriteFound(f: Fleet, replies: seq<Reply>, sets: seq<SetJob>, r: Reply, more: seq<SetJob>, k: nat)
    requires SetsMatched(f, replies, sets) && k < |replies| && ToStore(f, replies[k])
    ensures exists j: nat :: SetJobOf(f, replies + [r], sets + more, k, j)
  {
    var j: nat :| SetJobOf(f, replies, sets, k, j);
    SetJobGrows(f, replies, sets, k, j, r, more);
  }

  lemma WriteKept(f: Fleet, replies: seq<Reply>, sets: seq<SetJob>, r: Reply, more: seq<SetJob>, j: nat)
    requires SetsMatched(f, replies, sets) && j < |sets|
    ensures SetJobOf(f, replies + [r], sets + more, (sets + more)[j].reply, j) && sets[j].reply < |replies|
  {
    assert SetJobOf(f, replies, sets, sets[j].reply, j);
    SetJobGrows(f, replies, sets, sets[j].reply, j, r, more);
  }

  lemma ReplyMatched(f: Fleet, replies: seq<Reply>, sets: seq<SetJob>, r: Reply)
    requires SetsMatched(f, replies, sets) && !ToStore(f, r)
    ensures SetsMatched(f, replies + [r], sets)
  {
    assert sets + [] == sets;
    forall j | 0 <= j < |sets| ensures SetJobOf(f, replies + [r], sets, sets[j].reply, j) {
      WriteKept(f, replies, sets, r, [], j);
    }
    forall k | 0 <= k < |replies + [r]| && ToStore(f, (replies + [r])[k])
      ensures exists j: nat :: SetJobOf(f, replies + [r], sets, k, j)
    {
      WriteFound(f, replies, sets, r, [], k);
    }
  }

  lemma WritesKept(f: Fleet, replies: seq<Reply>, sets: seq<SetJob>, r: Reply, job: SetJob)
    requires SetsMatched(f, replies, sets) && SetJobOf(f, replies + [r], sets + [job], |replies|, |sets|)
    ensures forall j | 0 <= j < |sets + [job]| :: SetJobOf(f, replies + [r], sets + [job], (sets + [job])[j].reply, j)
    ensures forall j | 0 <= j < |sets| :: sets[j].reply < |replies|
  {
    forall j | 0 <= j < |sets|
      ensures SetJobOf(f, replies + [r], sets + [job], (sets + [job])[j].reply, j) && sets[j].reply < |replies|
    {
      WriteKept(f, replies, sets, r, [job], j);
    }
  }

  lemma WritesFound(f: Fleet, replies: seq<Reply>, sets: seq<SetJob>, r: Reply, job: SetJob, k: nat)
    requires SetsMatched(f, replies, sets) && SetJobOf(f, replies + [r], sets + [job], |replies|, |sets|)
    requires k < |replies + [r]| && ToStore(f, (replies + [r])[k])
    ensures exists j: nat :: SetJobOf(f, replies + [r], sets + [job], k, j)
  {
    if k < |replies| {
      WriteFound(f, replies, sets, r, [job], k);
    }
  }

  lemma InOrderAppend(sets: seq<SetJob>, job: SetJob)
    requires InOrder(sets) && forall j | 0 <= j < |sets| :: sets[j].reply < job.reply
    ensures InOrder(sets + [job])
  {
  }

  lemma StoredReplyMatched(f: Fleet, replies: seq<Reply>, sets: seq<SetJob>, r: Reply, job: SetJob)
    requires SetsMatched(f, replies, sets) && SetJobOf(f, replies + [r], sets + [job], |replies|, |sets|)
    ensures SetsMatched(f, replies + [r], sets + [job])
  {
    WritesKept(f, replies, sets, r, job);
    InOrderAppend(sets, job);
    forall k | 0 <= k < |replies + [r]| && ToStore(f, (replies + [r])[k])
      ensures exists j: nat :: SetJobOf(f, replies + [r], sets + [job], k, j)
    {
      WritesFound(f, replies, sets, r, job, k);
    }
  }

  lemma TtlMatched(f: Fleet, w: World, q: nat, node: Node, fails: bool)
    requires EvictsMatched(w.lookups, w.evicts) && Enabled(f, w, DoTtl(q, node, fails))
    ensures var w' := ApplyTtl(f, w, q, node, fails); EvictsMatched(w'.lookups, w'.evicts)
  {
    LookupMatched(w.lookups, w.evicts, ReadAt(f, w, q, node, fails));
    assert w.evicts + [] == w.evicts;
  }

  lemma UpstreamMatched(f: Fleet, w: World, q: nat, reply: Msg, t: ResponseType)
    requires SetsMatched(f, w.replies, w.sets) && Enabled(f, w, Upstream(q, reply, t))
    ensures var w' := ApplyUpstream(f, w, q, reply, t); SetsMatched(f, w'.replies, w'.sets)
  {
    var r := w.requests[q];
    if r.stage.caching {
      match PlanFor(SettingsOf(f, r.inst), r.msg, reply, t)
      case None =>
        ReplyMatched(f, w.replies, w.sets, Reply(r.inst, r.msg, reply, t, w.now));
      case Some(plan) =>
        var job := SetJob(r.inst, plan, WholeSeconds(plan.duration), |w.replies|);
        StoredReplyMatched(f, w.replies, w.sets, Reply(r.inst, r.msg, reply, t, w.now), job);
    }
  }

  /** Every step keeps the match of evictions with bad reads and of writes with replies to store. */
  lemma StepMatched(f: Fleet, w: World, e: Event)
    requires EvictsMatched(w.lookups, w.evicts) && SetsMatched(f, w.replies, w.sets) && Enabled(f, w, e)
    ensures var w' := Apply(f, w, e); EvictsMatched(w'.lookups, w'.evicts) && SetsMatched(f, w'.replies, w'.sets)
  {
    match e
    case DoTtl(q, node, fails) => TtlMatched(f, w, q, node, fails);
    case Upstream(q, reply, t) => UpstreamMatched(f, w, q, reply, t);
    case _ =>
  }

  lemma {:induction false} RunMatched(f: Fleet, w0: World, es: seq<Event>)
    requires Init(f, w0) && Run(f, w0, es).Some?
    ensures var w := Run(f, w0, es).value; EvictsMatched(w.lookups, w.evicts) && SetsMatched(f, w.replies, w.sets)
  {
    if es != [] {
      RunMatched(f, w0, es[..|es| - 1]);
      StepMatched(f, Run(f, w0, es[..|es| - 1]).value, es[|es| - 1]);
    }
  }

  /** A bad read starts exactly one eviction, of its key and by its instance; no other lookup starts any. */
  lemma BadReadEvicts(f: Fleet, es: seq<Event>, w: World, n: nat)
    requires Reaches(f, es, w) && n < |w.lookups|
    ensures Bad(w.lookups[n].outcome) <==> exists j: nat :: EvictJobOf(w.lookups, w.evicts, n, j)
    ensures forall i: nat, j: nat | EvictJobOf(w.lookups, w.evicts, n, i) && EvictJobOf(w.lookups, w.evicts, n, j) :: i == j
  {
    var w0 :| Init(f, w0) && Run(f, w0, es) == Some(w);
    RunMatched(f, w0, es);
  }

  /** A reply to store starts exactly one write, by its plan and instance; no other reply starts any. */
  lemma ReplyStored(f: Fleet, es: seq<Event>, w: World, k: nat)
    requires Reaches(f, es, w) && k < |w.replies|
    ensures ToStore(f, w.replies[k]) <==> exists j: nat :: SetJobOf(f, w.replies, w.sets, k, j)
    ensures forall i: nat, j: nat | SetJobOf(f, w.replies, w.sets, k, i) && SetJobOf(f, w.replies, w.sets, k, j) :: i == j
  {
    var w0 :| Init(f, w0) && Run(f, w0, es) == Some(w);
    RunMatched(f, w0, es);
  }

  lemma PhasePerJob(f: Fleet, es: seq<Event>, w: World)
    requires Reaches(f, es, w)
    ensures |w.setPhase| == |w.sets| && |w.evictPhase| == |w.evicts|
  {
    var w0 :| Init(f, w0) && Run(f, w0, es) == Some(w);
    RunCounted(f, w0, es);
  }
}
