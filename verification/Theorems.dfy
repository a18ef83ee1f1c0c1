/** What holds in every state of every run of a fleet. */
module Theorems {
  import opened Wrappers
  import opened Dns
  import opened Ttl
  import opened Keys
  import opened Payload
  import opened Cacheability
  import opened Decisions
  import opened Redis
  import opened Protocol
  import opened SingleFlight
  import opened Invariants

  ghost predicate NoForeign(es: seq<Event>) {
    forall e | e in es :: !e.ForeignSet?
  }

  ghost predicate PluginOnly(log: seq<Op>) {
    forall i | 0 <= i < |log| && log[i].Set? :: IsPluginSet(log[i])
  }

  lemma {:induction false} RunPluginOnly(f: Fleet, w0: World, es: seq<Event>)
    requires Init(f, w0) && Run(f, w0, es).Some? && NoForeign(es)
    ensures PluginOnly(Run(f, w0, es).value.log)
  {
    if es != [] {
      var e := es[|es| - 1];
      assert e in es;
      RunPluginOnly(f, w0, es[..|es| - 1]);
      StepPluginOnly(f, Run(f, w0, es[..|es| - 1]).value, e);
    }
  }

  lemma StepPluginOnly(f: Fleet, w: World, e: Event)
    requires Enabled(f, w, e) && !e.ForeignSet? && PluginOnly(w.log)
    ensures PluginOnly(Apply(f, w, e).log)
  {
  }

  /** Without foreign writes the store holds only what the plugin wrote. */
  lemma AlwaysPluginOnly(f: Fleet, es: seq<Event>, w: World)
    requires Reaches(f, es, w) && NoForeign(es)
    ensures PluginOnly(w.log)
  {
    var w0 :| Init(f, w0) && Run(f, w0, es) == Some(w);
    RunPluginOnly(f, w0, es);
  }

  // ---- the parts of the invariant, one at a time ----

  lemma LookupFact(f: Fleet, es: seq<Event>, w: World, n: nat)
    requires Reaches(f, es, w) && n < |w.lookups|
    ensures LookupOk(f, w.log, w.sets, w.lookups[n], w.now)
  {
    Always(f, es, w);
  }

  lemma GotFact(f: Fleet, es: seq<Event>, w: World, n: nat)
    requires Reaches(f, es, w) && n < |w.lookups|
    ensures GotOk(w.log, w.lookups[n].key, w.lookups[n].got, w.lookups[n].ttlAt)
  {
    LookupFact(f, es, w, n);
  }

  lemma TtlFact(f: Fleet, es: seq<Event>, w: World, n: nat)
    requires Reaches(f, es, w) && n < |w.lookups|
    ensures TtlOk(w.log, w.lookups[n])
  {
    LookupFact(f, es, w, n);
  }

  lemma RequestFact(f: Fleet, es: seq<Event>, w: World, q: nat)
    requires Reaches(f, es, w) && q < |w.requests|
    ensures RequestOk(f, w.log, w.lookups, w.requests[q], w.now)
  {
    Always(f, es, w);
  }

  lemma MetricsFact(f: Fleet, es: seq<Event>, w: World)
    requires Reaches(f, es, w)
    ensures |w.metrics| == |f.instances|
  {
    Always(f, es, w);
  }

  lemma OpFact(f: Fleet, es: seq<Event>, w: World, i: nat)
    requires Reaches(f, es, w) && i < |w.log|
    ensures OpOk(w.sets, w.evicts, w.lookups, i, w.log[i], w.now)
  {
    Always(f, es, w);
  }

  lemma JobFact(f: Fleet, es: seq<Event>, w: World, j: nat)
    requires Reaches(f, es, w) && j < |w.sets|
    ensures JobOk(f, w.replies, w.sets[j])
  {
    Always(f, es, w);
  }

  // ---- what a stored entry is ----

  /** Entry `i` holds reply `k`, stored by the reply's own instance under the reply's own slot. */
  ghost predicate Holds(f: Fleet, w: World, i: nat, k: nat) {
    && i < |w.log| && w.log[i].Set? && k < |w.replies| && w.replies[k].inst < |f.instances|
    && var r := w.replies[k];
    var plan := PlanFor(SettingsOf(f, r.inst), r.request, r.msg, r.rtype);
    plan.Some? && w.log[i].key == plan.value.key && w.log[i].value == plan.value.payload
  }

  /** The reply behind an entry the plugin wrote. */
  ghost function ReplyOf(w: World, i: nat): nat
    requires i < |w.log| && IsPluginSet(w.log[i]) && w.log[i].origin.job < |w.sets|
  {
    w.sets[w.log[i].origin.job].reply
  }

  lemma EntryHoldsReply(f: Fleet, es: seq<Event>, w: World, i: nat)
    requires Reaches(f, es, w) && i < |w.log| && IsPluginSet(w.log[i])
    ensures w.log[i].origin.job < |w.sets| && Holds(f, w, i, ReplyOf(w, i))
    ensures w.sets[w.log[i].origin.job].inst == w.replies[ReplyOf(w, i)].inst
  {
    OpFact(f, es, w, i);
    JobFact(f, es, w, w.log[i].origin.job);
  }

  /** The slot a decoded value claims to be for. */
  function DecodedSlot(m: Msg, storedDO: bool): Slot
    requires |m.question| == 1
  {
    Slot(Fold(m.question[0].name), m.question[0].qclass, m.question[0].qtype, storedDO, m.checkingDisabled)
  }

  /**
  Every entry the plugin ever wrote decodes to a message with exactly one question, and
  question, DO and CD bit hash to the entry's own key.
  */
  lemma StoredEntryConsistent(f: Fleet, es: seq<Event>, w: World, i: nat, ttl: uint32)
    requires Faithful(f.codec) && Reaches(f, es, w) && i < |w.log| && IsPluginSet(w.log[i])
    ensures var d := Decode(f.codec, w.log[i].value, ttl);
            && w.log[i].origin.job < |w.sets| && w.sets[w.log[i].origin.job].inst < |f.instances|
            && d.Some? && |d.value.0.question| == 1
            && w.log[i].key ==
               KeyOf(f.hash, f.instances[w.sets[w.log[i].origin.job].inst].keyer, DecodedSlot(d.value.0, d.value.1))
  {
    EntryHoldsReply(f, es, w, i);
    var r := w.replies[ReplyOf(w, i)];
    RoundTrip(f.codec, r.msg, ttl);
    FoldIdempotentName(r.request);
    assert DecodedSlot(WithTTL(StripOPT(r.msg), ttl), MsgDo(r.msg)) == ReplySlot(r.request, r.msg);
  }

  // ---- what is served ----

  /** The lookup read an entry the plugin wrote. */
  ghost predicate ReadsPlugin(w: World, l: Lookup) {
    l.got.entry.Some? && l.got.entry.value < |w.log| && IsPluginSet(w.log[l.got.entry.value])
  }

  /**
  `sent` answers the lookup's request, as `AnswersWith` says, with reply `k`: a
  cacheable reply that came before the lookup's end, with the same result and records but
  for OPT records and TTLs, to a request with the same name up to
  letter case, type, class and CD bit, and its DO bit is the lookup's.
  */
  ghost predicate ServesReply(w: World, l: Lookup, sent: Msg, k: nat) {
    && k < l.seen && k < |w.replies|
    && var r := w.replies[k];
    && Accepts(r.msg, r.rtype)
    && AnswersWith(sent, l.msg, r.msg)
    && ReplySlot(r.request, r.msg) == RequestSlot(l.msg)
    && Answers(l.msg, r.msg) && MsgDo(r.msg) == MsgDo(l.msg)
  }

  lemma HitServesReply(f: Fleet, es: seq<Event>, w: World, n: nat)
    requires Faithful(f.codec) && Reaches(f, es, w) && n < |w.lookups|
    requires w.lookups[n].outcome.Hit? && ReadsPlugin(w, w.lookups[n])
    ensures exists k :: ServesReply(w, w.lookups[n], FromCache(w.lookups[n].msg, w.lookups[n].outcome.msg), k)
  {
    var l := w.lookups[n];
    LookupFact(f, es, w, n);
    var i := l.got.entry.value;
    EntryHoldsReply(f, es, w, i);
    var k := ReplyOf(w, i);
    var r := w.replies[k];
    HitIsStoredReply(SettingsOf(f, r.inst), r.request, r.msg, r.rtype, l.msg, l.ttl);
    HitExactly(f.codec, l.msg, l.got.reply.bytes, l.ttl);
    assert ServesReply(w, l, FromCache(l.msg, l.outcome.msg), k);
  }

  /** Serve safety: whatever a request is served from an entry of the plugin is such a reply. */
  lemma ServeSafety(f: Fleet, es: seq<Event>, w: World, q: nat)
    requires Faithful(f.codec) && Reaches(f, es, w) && q < |w.requests| && w.requests[q].stage.Served?
    requires w.requests[q].stage.read < |w.lookups| ==> ReadsPlugin(w, w.lookups[w.requests[q].stage.read])
    ensures w.requests[q].stage.read < |w.lookups| && |w.requests[q].sent| == 1
    ensures exists k :: ServesReply(w, w.lookups[w.requests[q].stage.read], w.requests[q].sent[0], k)
  {
    RequestFact(f, es, w, q);
    var n := w.requests[q].stage.read;
    HitServesReply(f, es, w, n);
    var k :| ServesReply(w, w.lookups[n], FromCache(w.lookups[n].msg, w.lookups[n].outcome.msg), k);
    assert w.requests[q].sent[0] == FromCache(w.lookups[n].msg, w.lookups[n].outcome.msg);
  }

  /** Without foreign writes, everything ever served from the cache is such a reply. */
  lemma ServeSafetyPluginOnly(f: Fleet, es: seq<Event>, w: World, q: nat)
    requires Faithful(f.codec) && Reaches(f, es, w) && NoForeign(es)
    requires q < |w.requests| && w.requests[q].sent != []
    ensures w.requests[q].stage.Served? && w.requests[q].stage.read < |w.lookups| && |w.requests[q].sent| == 1
    ensures exists k :: ServesReply(w, w.lookups[w.requests[q].stage.read], w.requests[q].sent[0], k)
  {
    AlwaysPluginOnly(f, es, w);
    RequestFact(f, es, w, q);
    LookupFact(f, es, w, w.requests[q].stage.read);
    ServeSafety(f, es, w, q);
  }

  lemma RunTwo(f: Fleet, w: World, d: Event, e: Event)
    requires Enabled(f, w, d) && Enabled(f, Apply(f, w, d), e)
    ensures Run(f, w, [d, e]) == Some(Apply(f, Apply(f, w, d), e))
  {
    RunOne(f, w, d);
    RunOne(f, Apply(f, w, d), e);
    RunConcat(f, w, [d], [e]);
    assert [d] + [e] == [d, e];
  }

  lemma GetSees(f: Fleet, w: World, q: nat, i: nat)
    requires Enabled(f, w, DoGet(q, Primary, false))
    requires Visible(w.log, LookupKey(f, w.requests[q].inst, w.requests[q].msg), w.now) == Some(i)
    ensures var w1 := ApplyGet(f, w, q, Primary, false);
            && w1 == w.(requests := w1.requests) && |w1.requests| == |w.requests|
            && w1.requests[q] == w.requests[q].(stage := Reading(Got(Value(w.log[i].value), Some(i), w.now, |w.log|)))
  {
    assert w.log[..|w.log|] == w.log;
  }

  lemma HitIsServed(f: Fleet, w: World, q: nat)
    requires Enabled(f, w, DoTtl(q, Primary, false)) && ReadAt(f, w, q, Primary, false).outcome.Hit?
    ensures var w' := ApplyTtl(f, w, q, Primary, false);
            && q < |w'.requests| && w'.requests[q].stage.Served?
            && w'.requests[q].sent ==
               w.requests[q].sent + [FromCache(w.requests[q].msg, ReadAt(f, w, q, Primary, false).outcome.msg)]
  {
  }

  /**
  The cache is of use: a request in zone whose slot's live entry holds a reply for that
  very slot is served that reply by two reads of the primary.
  */
  lemma LiveEntryServed(f: Fleet, es: seq<Event>, w: World, q: nat, i: nat)
    requires Faithful(f.codec) && Reaches(f, es, w) && q < |w.requests| && w.requests[q].stage.Looking?
    requires w.requests[q].inst < |f.instances|
    requires Visible(w.log, LookupKey(f, w.requests[q].inst, w.requests[q].msg), w.now) == Some(i) && IsPluginSet(w.log[i])
    requires w.log[i].origin.job < |w.sets| && ReplyOf(w, i) < |w.replies|
    requires var r := w.replies[ReplyOf(w, i)]; ReplySlot(r.request, r.msg) == RequestSlot(w.requests[q].msg)
    ensures var w' := Run(f, w, [DoGet(q, Primary, false), DoTtl(q, Primary, false)]);
            && w'.Some? && q < |w'.value.requests| && w'.value.requests[q].stage.Served?
            && |w'.value.requests[q].sent| == 1
            && AnswersWith(w'.value.requests[q].sent[0], w.requests[q].msg, w.replies[ReplyOf(w, i)].msg)
  {
    MetricsFact(f, es, w);
    RequestFact(f, es, w, q);
    GetSees(f, w, q, i);
    var w1 := ApplyGet(f, w, q, Primary, false);
    RunTwo(f, w, DoGet(q, Primary, false), DoTtl(q, Primary, false));
    var l := ReadAt(f, w1, q, Primary, false);
    assert l.outcome.Hit? && AnswersWith(FromCache(l.msg, l.outcome.msg), l.msg, w.replies[ReplyOf(w, i)].msg) by {
      EntryHoldsReply(f, es, w, i);
      var r := w.replies[ReplyOf(w, i)];
      StoredReplyJudged(SettingsOf(f, r.inst), r.request, r.msg, r.rtype, w.requests[q].msg, l.ttl);
      HitIsStoredReply(SettingsOf(f, r.inst), r.request, r.msg, r.rtype, w.requests[q].msg, l.ttl);
    }
    HitIsServed(f, w1, q);
  }

  // ---- the check after the read ----

  /** The writer's slot and the reader's slot differ and yet have one key: one prefix and one hash sum. */
  ghost predicate KeyCollision(f: Fleet, a: nat, s: Slot, b: nat, t: Slot) {
    && a < |f.instances| && b < |f.instances|
    && s != t
    && f.instances[a].keyer.prefix == f.instances[b].keyer.prefix
    && f.hash(f.instances[a].keyer.seed, Preimage(s)) == f.hash(f.instances[b].keyer.seed, Preimage(t))
  }

  /** The lookup read the entry that holds reply `k`. */
  ghost predicate ReadsReply(f: Fleet, w: World, n: nat, k: nat) {
    && n < |w.lookups| && ReadsPlugin(w, w.lookups[n]) && w.lookups[n].inst < |f.instances|
    && var i := w.lookups[n].got.entry.value;
    w.log[i].origin.job < |w.sets| && k == ReplyOf(w, i) && Holds(f, w, i, k)
  }

  /** Reply `k` and the lookup's request are for different slots with one key. */
  ghost predicate CollidesWith(f: Fleet, w: World, n: nat, k: nat)
    requires n < |w.lookups| && k < |w.replies|
  {
    KeyCollision(f, w.replies[k].inst, ReplySlot(w.replies[k].request, w.replies[k].msg),
                 w.lookups[n].inst, RequestSlot(w.lookups[n].msg))
  }

  /**
  On an entry of the plugin the check after the read is a pure collision check. The lookup
  hits exactly if the reply in the entry is for the request's slot, and collides exactly
  if the two are different slots with one key. It ends in no other way.
  */
  lemma PureCollisionCheck(f: Fleet, es: seq<Event>, w: World, n: nat) returns (k: nat)
    requires Faithful(f.codec) && Reaches(f, es, w) && n < |w.lookups| && ReadsPlugin(w, w.lookups[n])
    ensures ReadsReply(f, w, n, k)
    ensures w.lookups[n].outcome.Hit? <==>
            ReplySlot(w.replies[k].request, w.replies[k].msg) == RequestSlot(w.lookups[n].msg)
    ensures w.lookups[n].outcome.Collision? <==> CollidesWith(f, w, n, k)
    ensures w.lookups[n].outcome.Hit? || w.lookups[n].outcome.Collision?
  {
    LookupFact(f, es, w, n);
    var l := w.lookups[n];
    var i := l.got.entry.value;
    EntryHoldsReply(f, es, w, i);
    k := ReplyOf(w, i);
    var r := w.replies[k];
    StoredReplyJudged(SettingsOf(f, r.inst), r.request, r.msg, r.rtype, l.msg, l.ttl);
    SharedKey(f.hash, f.instances[r.inst].keyer, ReplySlot(r.request, r.msg),
              f.instances[l.inst].keyer, RequestSlot(l.msg));
  }

  /** If no reply so far collides with the request, a lookup that reads an entry of the plugin hits. */
  lemma NoCollisionNoMismatch(f: Fleet, es: seq<Event>, w: World, n: nat)
    requires Faithful(f.codec) && Reaches(f, es, w) && n < |w.lookups| && ReadsPlugin(w, w.lookups[n])
    requires forall k | 0 <= k < |w.replies| :: !CollidesWith(f, w, n, k)
    ensures w.lookups[n].outcome.Hit?
  {
    var k := PureCollisionCheck(f, es, w, n);
  }

  // ---- expiry ----

  /** The time left is rounded down to whole seconds. */
  predicate RoundsDown(deadline: nat, now: nat)
    requires now <= deadline
  {
    (deadline - now) % 1000 < 500
  }

  /** The rounded TTL reply overstates the time left by half a second at most, and exactly when the fraction rounds up. */
  lemma TtlRounding(op: Op, now: nat)
    requires op.Set? && Live(op, now) && op.deadline.Some?
    ensures var d, t := op.deadline.value, TtlOf(op, now);
            && d - 500 < now + 1000 * t <= d + 500
            && (now + 1000 * t <= d <==> RoundsDown(d, now))
  {
    var rest := op.deadline.value - now;
    assert rest == 1000 * (rest / 1000) + rest % 1000;
    assert TtlOf(op, now) == rest / 1000 + if rest % 1000 < 500 then 0 else 1;
  }

  /** An entry of one second, read halfway, is served with a TTL that outlives it by half a second. */
  lemma TtlRoundingExample(key: string, value: seq<byte>, origin: Origin)
    ensures var op := Set(key, value, Some(1000), 0, origin);
            && Live(op, 500) && ServedTTL(Seconds(TtlOf(op, 500))) == 1
            && 500 + 1000 * ServedTTL(Seconds(TtlOf(op, 500))) == op.deadline.value + 500
  {
    assert TtlOf(Set(key, value, Some(1000), 0, origin), 500) == 1000 / 1000;
  }

  /** The EX seconds of a job are its reply's lifetime, exactly, and more than none. */
  lemma ExpiryIsLifetime(f: Fleet, es: seq<Event>, w: World, j: nat)
    requires ValidFleet(f) && Reaches(f, es, w) && j < |w.sets|
    ensures w.sets[j].reply < |w.replies| && w.replies[w.sets[j].reply].inst < |f.instances|
    ensures var r := w.replies[w.sets[j].reply];
            w.sets[j].ex * SECOND == Lifetime(f.instances[r.inst].ttl, r.msg, r.rtype) > 0
  {
    JobFact(f, es, w, j);
    var r := w.replies[w.sets[j].reply];
    PlanDuration(SettingsOf(f, r.inst), r.request, r.msg, r.rtype);
    LifetimeBounds(f.instances[r.inst].ttl, r.msg, r.rtype);
  }

  /**
  A stored reply goes to its first client with the seconds given to Redis as TTL, exactly
  if the floor fits in 32 bits; then every record the client gets carries them.
  */
  lemma FirstClientSeesExpiry(f: Fleet, es: seq<Event>, w: World, j: nat)
    requires ValidFleet(f) && Reaches(f, es, w) && j < |w.sets|
    ensures w.sets[j].reply < |w.replies| && w.replies[w.sets[j].reply].inst < |f.instances|
    ensures var r := w.replies[w.sets[j].reply];
            var cfg := f.instances[r.inst].ttl;
            && Lifetime(cfg, r.msg, r.rtype) > 0
            && (ToUint32(Lifetime(cfg, r.msg, r.rtype)) == w.sets[j].ex <==> BoundsFor(cfg, r.rtype).floor < TWO_32 * SECOND)
            && (BoundsFor(cfg, r.rtype).floor < TWO_32 * SECOND ==>
                  w.sets[j].ex < TWO_32 &&
                  RecordsHaveTTL(WithTTL(r.msg, ToUint32(Lifetime(cfg, r.msg, r.rtype))), w.sets[j].ex))
  {
    ExpiryIsLifetime(f, es, w, j);
    var r := w.replies[w.sets[j].reply];
    FirstClientTTLExact(f.instances[r.inst].ttl, r.msg, r.rtype);
    WithTTLSets(r.msg, ToUint32(Lifetime(f.instances[r.inst].ttl, r.msg, r.rtype)));
  }

  /** With a deadline `ex` seconds after `at`, no TTL read later exceeds `ex`. */
  lemma ServedWithin(op: Op, now: nat, ex: nat, ttl: TtlReply)
    requires op.Set? && op.at <= now && Live(op, now) && op.deadline == Some(op.at + 1000 * ex)
    requires ttl == Seconds(TtlOf(op, now))
    ensures ServedTTL(ttl) <= ex && now + 1000 * ServedTTL(ttl) <= op.at + 1000 * ex + 500
    ensures ex < TWO_32 ==>
              && op.at + 1000 * ex - 500 < now + 1000 * ServedTTL(ttl)
              && (now + 1000 * ServedTTL(ttl) <= op.at + 1000 * ex <==> RoundsDown(op.at + 1000 * ex, now))
  {
    TtlRounding(op, now);
    assert TtlOf(op, now) <= (1000 * ex + 500) / 1000 == ex;
  }

  /** The EX seconds behind an entry of the plugin. */
  ghost function EntryEx(w: World, i: nat): nat
    requires i < |w.log| && IsPluginSet(w.log[i]) && w.log[i].origin.job < |w.sets|
  {
    w.sets[w.log[i].origin.job].ex
  }

  lemma PluginDeadline(f: Fleet, es: seq<Event>, w: World, i: nat)
    requires Reaches(f, es, w) && i < |w.log| && IsPluginSet(w.log[i])
    ensures w.log[i].origin.job < |w.sets| && w.log[i].deadline == Some(w.log[i].at + 1000 * EntryEx(w, i))
  {
    OpFact(f, es, w, i);
  }

  /**
  The TTL served is at most the whole duration of the entry that TTL saw. It ends when
  that entry ends, up to half a second of rounding either way, and not after it exactly
  when the time left was rounded down.
  */
  ghost predicate EndsWithEntry(w: World, l: Lookup, i: nat) {
    && i < |w.log| && w.log[i].Set? && w.log[i].key == l.key
    && (IsPluginSet(w.log[i]) ==>
          && w.log[i].origin.job < |w.sets|
          && ServedTTL(l.ttl) <= EntryEx(w, i)
          && l.ttlAt + 1000 * ServedTTL(l.ttl) <= w.log[i].at + 1000 * EntryEx(w, i) + 500
          && var end := w.log[i].at + 1000 * EntryEx(w, i);
          && l.ttlAt <= end
          && (EntryEx(w, i) < TWO_32 ==>
                && end - 500 < l.ttlAt + 1000 * ServedTTL(l.ttl)
                && (l.ttlAt + 1000 * ServedTTL(l.ttl) <= end <==> RoundsDown(end, l.ttlAt))))
  }

  lemma TtlEnds(w: World, l: Lookup)
    requires TtlOk(w.log, l)
    requires l.ttlEntry.Some? && IsPluginSet(w.log[l.ttlEntry.value]) ==>
               && w.log[l.ttlEntry.value].origin.job < |w.sets|
               && w.log[l.ttlEntry.value].deadline == Some(w.log[l.ttlEntry.value].at + 1000 * EntryEx(w, l.ttlEntry.value))
    ensures l.ttlEntry.None? ==> ServedTTL(l.ttl) == 0
    ensures l.ttlEntry.Some? ==> EndsWithEntry(w, l, l.ttlEntry.value)
  {
    if l.ttlEntry.Some? && IsPluginSet(w.log[l.ttlEntry.value]) {
      var i := l.ttlEntry.value;
      ServedWithin(w.log[i], l.ttlAt, EntryEx(w, i), l.ttl);
    }
  }

  /**
  Expiry never drifts. A lookup whose TTL found no entry serves TTL zero; otherwise what
  it serves ends with the entry that TTL saw.
  */
  lemma TtlNoDrift(f: Fleet, es: seq<Event>, w: World, n: nat)
    requires Reaches(f, es, w) && n < |w.lookups|
    ensures w.lookups[n].ttlEntry.None? ==> ServedTTL(w.lookups[n].ttl) == 0
    ensures w.lookups[n].ttlEntry.Some? ==> EndsWithEntry(w, w.lookups[n], w.lookups[n].ttlEntry.value)
  {
    TtlFact(f, es, w, n);
    var l := w.lookups[n];
    if l.ttlEntry.Some? && IsPluginSet(w.log[l.ttlEntry.value]) {
      PluginDeadline(f, es, w, l.ttlEntry.value);
    }
    TtlEnds(w, l);
  }

  /** No write of the key lies between the positions GET and TTL read at. */
  ghost predicate Undisturbed(w: World, l: Lookup) {
    forall j | 0 <= j < |w.log| && (l.got.pos <= j < l.ttlPos || l.ttlPos <= j < l.got.pos) :: w.log[j].key != l.key
  }

  /**
  TTL sees the entry that GET saw, or none once it has expired, unless one of the two
  nodes had a write of the key that the other had not.
  */
  lemma SameEntryUnlessWritten(f: Fleet, es: seq<Event>, w: World, n: nat)
    requires Reaches(f, es, w) && n < |w.lookups| && Undisturbed(w, w.lookups[n])
    requires w.lookups[n].got.entry.Some? && w.lookups[n].ttl.Seconds?
    ensures var l := w.lookups[n];
            && l.got.entry.value < |w.log| && w.log[l.got.entry.value].Set?
            && l.ttlEntry == if Live(w.log[l.got.entry.value], l.ttlAt) then l.got.entry else None
  {
    GotFact(f, es, w, n);
    TtlFact(f, es, w, n);
    var l := w.lookups[n];
    SameEntry(w.log, l.key, l.got.entry.value, l.got.pos, l.got.at, l.ttlPos, l.ttlAt);
  }

  lemma SameEntry(log: seq<Op>, key: string, i: nat, p: nat, at: nat, p': nat, at': nat)
    requires p <= |log| && p' <= |log| && Visible(log[..p], key, at) == Some(i)
    requires forall j | 0 <= j < |log| && (p <= j < p' || p' <= j < p) :: log[j].key != key
    ensures i < |log| && log[i].Set?
    ensures Visible(log[..p'], key, at') == if Live(log[i], at') then Some(i) else None
  {
    if p <= p' {
      LatestUnwritten(log[..p'], p, key);
      assert log[..p'][..p] == log[..p];
    } else {
      LatestUnwritten(log[..p], p', key);
      assert log[..p][..p'] == log[..p'];
    }
  }

  /** The TTL of every record of a served message is the one the lookup read. */
  lemma ServedRecordsTTL(f: Fleet, es: seq<Event>, w: World, q: nat)
    requires Reaches(f, es, w) && q < |w.requests| && w.requests[q].stage.Served?
    ensures var k := w.requests[q].stage.read;
            && k < |w.lookups| && |w.requests[q].sent| == 1
            && RecordsHaveTTL(w.requests[q].sent[0], ServedTTL(w.lookups[k].ttl))
  {
    RequestFact(f, es, w, q);
    LookupFact(f, es, w, w.requests[q].stage.read);
    var l := w.lookups[w.requests[q].stage.read];
    HitTTL(f.codec, l.msg, l.got.reply, l.ttl);
  }

  /**
  A request is served TTL zero, or, if no write of the key came between its two reads, a
  TTL that ends with the very entry its message was read from.
  */
  lemma ServedEndsWithItsEntry(f: Fleet, es: seq<Event>, w: World, q: nat)
    requires Reaches(f, es, w) && q < |w.requests| && w.requests[q].stage.Served?
    requires w.requests[q].stage.read < |w.lookups| ==> Undisturbed(w, w.lookups[w.requests[q].stage.read])
    ensures w.requests[q].stage.read < |w.lookups| && |w.requests[q].sent| == 1
    ensures var l := w.lookups[w.requests[q].stage.read];
            && RecordsHaveTTL(w.requests[q].sent[0], ServedTTL(l.ttl))
            && l.got.entry.Some?
            && (ServedTTL(l.ttl) == 0 || EndsWithEntry(w, l, l.got.entry.value))
  {
    ServedRecordsTTL(f, es, w, q);
    var n := w.requests[q].stage.read;
    ServedRead(f, es, w, q);
    TtlNoDrift(f, es, w, n);
    if w.lookups[n].ttl.Seconds? {
      SameEntryUnlessWritten(f, es, w, n);
    }
  }

  lemma ServedRead(f: Fleet, es: seq<Event>, w: World, q: nat)
    requires Reaches(f, es, w) && q < |w.requests| && w.requests[q].stage.Served?
    ensures w.requests[q].stage.read < |w.lookups| && w.lookups[w.requests[q].stage.read].got.entry.Some?
  {
    RequestFact(f, es, w, q);
    LookupFact(f, es, w, w.requests[q].stage.read);
  }

  // ---- from reply to entry ----

  /** Write `op`, if it is a SET of the plugin, is later than the reply it stores. */
  ghost predicate AfterItsReply(replies: seq<Reply>, sets: seq<SetJob>, op: Op) {
    IsPluginSet(op) ==>
      && op.origin.job < |sets| && sets[op.origin.job].reply < |replies|
      && replies[sets[op.origin.job].reply].at <= op.at
  }

  /** Replies lie in the past, and a SET of the plugin is later than its reply. */
  ghost predicate Timely(replies: seq<Reply>, sets: seq<SetJob>, log: seq<Op>, now: nat) {
    && (forall k | 0 <= k < |replies| :: replies[k].at <= now)
    && (forall j | 0 <= j < |sets| :: sets[j].reply < |replies|)
    && (forall i | 0 <= i < |log| :: AfterItsReply(replies, sets, log[i]))
  }

  lemma SetTimely(replies: seq<Reply>, sets: seq<SetJob>, log: seq<Op>, now: nat, op: Op)
    requires Timely(replies, sets, log, now) && (IsPluginSet(op) ==> op.origin.job < |sets| && op.at == now)
    ensures Timely(replies, sets, log + [op], now)
  {
  }

  lemma ReplyTimely(replies: seq<Reply>, sets: seq<SetJob>, log: seq<Op>, now: nat, r: Reply, more: seq<SetJob>)
    requires Timely(replies, sets, log, now) && r.at <= now && forall job | job in more :: job.reply == |replies|
    ensures Timely(replies + [r], sets + more, log, now)
  {
    forall i | 0 <= i < |log| ensures AfterItsReply(replies + [r], sets + more, log[i]) {
      assert AfterItsReply(replies, sets, log[i]);
    }
  }

  lemma UpstreamTimely(f: Fleet, w: World, q: nat, reply: Msg, t: ResponseType)
    requires Timely(w.replies, w.sets, w.log, w.now) && Enabled(f, w, Upstream(q, reply, t))
    ensures var w' := ApplyUpstream(f, w, q, reply, t); Timely(w'.replies, w'.sets, w'.log, w'.now)
  {
    var r := w.requests[q];
    var rep := Reply(r.inst, r.msg, reply, t, w.now);
    match PlanFor(SettingsOf(f, r.inst), r.msg, reply, t)
    case None =>
      ReplyTimely(w.replies, w.sets, w.log, w.now, rep, []);
      assert w.sets + [] == w.sets;
    case Some(plan) =>
      ReplyTimely(w.replies, w.sets, w.log, w.now, rep, [SetJob(r.inst, plan, WholeSeconds(plan.duration), |w.replies|)]);
  }

  lemma StepTimely(f: Fleet, w: World, e: Event)
    requires Timely(w.replies, w.sets, w.log, w.now) && Enabled(f, w, e)
    ensures var w' := Apply(f, w, e); Timely(w'.replies, w'.sets, w'.log, w'.now)
  {
    match e
    case Upstream(q, reply, t) => UpstreamTimely(f, w, q, reply, t);
    case LandSet(j) => SetTimely(w.replies, w.sets, w.log, w.now, SetOp(w, j));
    case LandEvict(j) => SetTimely(w.replies, w.sets, w.log, w.now, Expire(w.evicts[j].key, w.now, j));
    case ForeignSet(key, value, d) => SetTimely(w.replies, w.sets, w.log, w.now, Set(key, value, d, w.now, Foreign));
    case _ =>
  }

  lemma {:induction false} RunTimely(f: Fleet, w0: World, es: seq<Event>)
    requires Init(f, w0) && Run(f, w0, es).Some?
    ensures var w := Run(f, w0, es).value; Timely(w.replies, w.sets, w.log, w.now)
  {
    if es != [] {
      RunTimely(f, w0, es[..|es| - 1]);
      StepTimely(f, Run(f, w0, es[..|es| - 1]).value, es[|es| - 1]);
    }
  }

  /** Every SET of the plugin comes after the reply it stores. */
  lemma SetAfterReply(f: Fleet, es: seq<Event>, w: World, i: nat)
    requires Reaches(f, es, w) && i < |w.log| && IsPluginSet(w.log[i])
    ensures w.log[i].origin.job < |w.sets| && ReplyOf(w, i) < |w.replies|
    ensures w.replies[ReplyOf(w, i)].at <= w.log[i].at
  {
    var w0 :| Init(f, w0) && Run(f, w0, es) == Some(w);
    RunTimely(f, w0, es);
    assert AfterItsReply(w.replies, w.sets, w.log[i]);
  }

  /**
  An entry outlives the TTL that its first client was given by exactly the delay of its
  detached SET, and so is never gone before it, if the floor fits in 32 bits.
  */
  lemma EntryOutlivesFirstClient(f: Fleet, es: seq<Event>, w: World, i: nat)
    requires ValidFleet(f) && Reaches(f, es, w) && i < |w.log| && IsPluginSet(w.log[i])
    ensures w.log[i].origin.job < |w.sets| && ReplyOf(w, i) < |w.replies| && w.log[i].deadline.Some?
    ensures var r := w.replies[ReplyOf(w, i)];
            && r.inst < |f.instances| && Lifetime(f.instances[r.inst].ttl, r.msg, r.rtype) >= 0
            && (BoundsFor(f.instances[r.inst].ttl, r.rtype).floor < TWO_32 * SECOND ==>
                  var clientEnds := r.at + 1000 * ToUint32(Lifetime(f.instances[r.inst].ttl, r.msg, r.rtype));
                  w.log[i].deadline.value - clientEnds == w.log[i].at - r.at >= 0)
  {
    SetAfterReply(f, es, w, i);
    PluginDeadline(f, es, w, i);
    FirstClientSeesExpiry(f, es, w, w.log[i].origin.job);
  }

  // ---- the store drains ----

  /** Every SET of the plugin was for at most `longest` seconds and longer ago than that. */
  ghost predicate AllExpired(w: World, longest: nat) {
    forall i | 0 <= i < |w.log| && IsPluginSet(w.log[i]) ::
      && w.log[i].origin.job < |w.sets|
      && EntryEx(w, i) <= longest
      && w.log[i].at + 1000 * longest < w.now
  }

  /**
  Without foreign writes, once the longest duration has passed since the last SET, the
  primary and every replica are empty, whatever was read or evicted in between.
  */
  lemma Drains(f: Fleet, es: seq<Event>, w: World, longest: nat, n: Node, key: string)
    requires Reaches(f, es, w) && NoForeign(es) && AllExpired(w, longest) && NodeExists(w, n)
    ensures Visible(LogAt(w, n), key, w.now) == None
  {
    AlwaysPluginOnly(f, es, w);
    var r := Latest(LogAt(w, n), key);
    if r.Some? {
      PluginDeadline(f, es, w, r.value);
    }
  }

  /** Only a SET adds or renews an entry: after any other step the primary shows what it showed, or nothing. */
  lemma OnlySetsAdd(f: Fleet, w: World, e: Event, key: string)
    requires Enabled(f, w, e) && !e.LandSet? && !e.ForeignSet?
    ensures var w' := Apply(f, w, e);
            var v := Visible(w'.log, key, w'.now);
            v == None || (v == Visible(w.log, key, w.now) && w'.log[v.value] == w.log[v.value])
  {
    var w' := Apply(f, w, e);
    if e.LandEvict? {
      assert w'.log[..|w'.log| - 1] == w.log;
    } else {
      assert w'.log == w.log;
    }
  }

  // ---- single flight ----

  /** No instance has two SETs, or two evictions, of one key under way. */
  lemma OneInFlight(f: Fleet, es: seq<Event>, w: World)
    requires Reaches(f, es, w)
    ensures |w.setPhase| == |w.sets| && |w.evictPhase| == |w.evicts|
    ensures forall i, j | 0 <= i < |w.sets| && 0 <= j < |w.sets| && SetFlight(w, i) == SetFlight(w, j) ::
              Active(w.setPhase[i]) && Active(w.setPhase[j]) ==> i == j
    ensures forall i, j | 0 <= i < |w.evicts| && 0 <= j < |w.evicts| && EvictFlight(w, i) == EvictFlight(w, j) ::
              Active(w.evictPhase[i]) && Active(w.evictPhase[j]) ==> i == j
  {
    Always(f, es, w);
    forall i, j | 0 <= i < |w.sets| && 0 <= j < |w.sets| && SetFlight(w, i) == SetFlight(w, j) &&
                  Active(w.setPhase[i]) && Active(w.setPhase[j])
      ensures i == j
    {
      OneLeader(SetKeys(w.sets), w.setPhase, w.setFlights, i, j);
    }
    forall i, j | 0 <= i < |w.evicts| && 0 <= j < |w.evicts| && EvictFlight(w, i) == EvictFlight(w, j) &&
                  Active(w.evictPhase[i]) && Active(w.evictPhase[j])
      ensures i == j
    {
      OneLeader(EvictKeys(w.evicts), w.evictPhase, w.evictFlights, i, j);
    }
  }

  /**
  Eviction `i` of the log was sent by the instance of lookup `n`, for the key of that
  lookup, which had ended badly before the eviction and read no later write.
  */
  ghost predicate CausedBy(w: World, i: nat, n: nat) {
    && i < |w.log| && w.log[i].Expire? && w.log[i].job < |w.evicts| && n < |w.lookups|
    && w.evicts[w.log[i].job].cause == n
    && var l := w.lookups[n];
    && l.outcome.Evicts()
    && w.log[i].key == l.key && w.evicts[w.log[i].job].inst == l.inst
    && l.written <= i && l.got.pos <= i && l.ttlPos <= i && l.ttlAt <= w.log[i].at
  }

  /** Every eviction follows the bad read that caused it; without foreign writes that read was a collision. */
  lemma EvictionCaused(f: Fleet, es: seq<Event>, w: World, i: nat)
    requires Reaches(f, es, w) && i < |w.log| && w.log[i].Expire?
    ensures exists n: nat :: CausedBy(w, i, n) && (Faithful(f.codec) && NoForeign(es) ==> w.lookups[n].outcome.Collision?)
  {
    Always(f, es, w);
    assert OpOk(w.sets, w.evicts, w.lookups, i, w.log[i], w.now);
    var n := w.evicts[w.log[i].job].cause;
    assert EvictOk(w.lookups, w.evicts[w.log[i].job]);
    LookupFact(f, es, w, n);
    assert CausedBy(w, i, n);
    if Faithful(f.codec) && NoForeign(es) {
      AlwaysPluginOnly(f, es, w);
      var k := PureCollisionCheck(f, es, w, n);
    }
  }

  /** After an eviction the primary has nothing under the key until a later SET of it. */
  lemma EvictionHolds(w: World, i: nat)
    requires i < |w.log| && w.log[i].Expire?
    requires forall j | i < j < |w.log| :: !(w.log[j].Set? && w.log[j].key == w.log[i].key)
    ensures Visible(w.log, w.log[i].key, w.now) == None
  {
    ExpireHolds(w.log, i, w.log[i].key);
  }

  // ---- accounting ----

  /** What a lookup makes of the read: nothing under the key, a failed read, an empty value, or a value to decode. */
  lemma OutcomeOfRead(f: Fleet, es: seq<Event>, w: World, n: nat)
    requires Reaches(f, es, w) && n < |w.lookups|
    ensures var l := w.lookups[n];
            && (l.outcome.ReadFailed? <==> l.got.reply.GetFailed?)
            && (l.outcome.Miss? <==> !l.got.reply.GetFailed? && l.got.entry.None?)
            && (l.outcome.EmptyValue? <==> l.got.reply == Value([]))
            && (l.outcome.BadPayload? <==>
                  l.got.reply.Value? && l.got.reply.bytes != [] && Decode(f.codec, l.got.reply.bytes, ServedTTL(l.ttl)).None?)
  {
    LookupFact(f, es, w, n);
  }

  /** `after` counts one more lookup than `before`, and hits, failed and undecodable reads, and collisions apart. */
  predicate Counts(before: Metrics, after: Metrics, o: Outcome) {
    && after.requests == before.requests + 1
    && after.hits == before.hits + (if o.Hit? then 1 else 0)
    && after.errors == before.errors + (if o.ReadFailed? || o.BadPayload? then 1 else 0)
    && after.collisions == before.collisions + (if o.Collision? then 1 else 0)
  }

  lemma ObserveCounts(m: Metrics, o: Outcome)
    ensures Counts(m, Observe(m, o), o)
  {
  }

  /** The end of a lookup is counted at its own instance and nowhere else. */
  lemma LookupIsCounted(f: Fleet, w: World, q: nat, node: Node, fails: bool)
    requires Enabled(f, w, DoTtl(q, node, fails))
    ensures var before, after, i := w.metrics, ApplyTtl(f, w, q, node, fails).metrics, w.requests[q].inst;
            && |after| == |before| && after == before[i := after[i]]
            && Counts(before[i], after[i], ReadAt(f, w, q, node, fails).outcome)
  {
    ObserveCounts(w.metrics[w.requests[q].inst], ReadAt(f, w, q, node, fails).outcome);
  }

  lemma {:induction false} KindsAddUp(lookups: seq<Lookup>, inst: nat)
    ensures Total(lookups, inst) ==
            Count(lookups, inst, AHit) + Count(lookups, inst, AnError) + Count(lookups, inst, ACollision) +
            Count(lookups, inst, AMiss) + Count(lookups, inst, ACrash)
  {
    if lookups != [] {
      KindsAddUp(lookups[..|lookups| - 1], inst);
    }
  }

  lemma {:induction false} CountNone(lookups: seq<Lookup>, inst: nat, kind: Kind)
    requires forall n | 0 <= n < |lookups| :: KindOf(lookups[n].outcome) != kind
    ensures Count(lookups, inst, kind) == 0
  {
    if lookups != [] {
      CountNone(lookups[..|lookups| - 1], inst, kind);
    }
  }

  /**
  Each instance's counters add up: its completed lookups are its hits, read errors,
  collisions and plain misses, and, only if something else writes to the store, lookups
  that came down.
  */
  lemma OutcomesAddUp(f: Fleet, es: seq<Event>, w: World, i: nat)
    requires Faithful(f.codec) && Reaches(f, es, w) && i < |f.instances|
    ensures |w.metrics| == |f.instances|
    ensures var m := w.metrics[i];
            m.requests == m.hits + m.errors + m.collisions + Count(w.lookups, i, AMiss) + Count(w.lookups, i, ACrash)
    ensures NoForeign(es) ==> Count(w.lookups, i, ACrash) == 0
  {
    Always(f, es, w);
    KindsAddUp(w.lookups, i);
    if NoForeign(es) {
      NoCrash(f, es, w);
      CountNone(w.lookups, i, ACrash);
    }
  }

  /** Without foreign writes no lookup comes down. */
  lemma NoCrash(f: Fleet, es: seq<Event>, w: World)
    requires Faithful(f.codec) && Reaches(f, es, w) && NoForeign(es)
    ensures forall n | 0 <= n < |w.lookups| :: KindOf(w.lookups[n].outcome) != ACrash
  {
    AlwaysPluginOnly(f, es, w);
    forall n | 0 <= n < |w.lookups| ensures KindOf(w.lookups[n].outcome) != ACrash {
      LookupFact(f, es, w, n);
      if w.lookups[n].got.reply.Value? {
        var k := PureCollisionCheck(f, es, w, n);
      }
    }
  }

  /**
  A request in zone is served one cached message without calling the next plugin, or has
  called the next plugin exactly once with the caching writer, or is still being looked
  up or came down; a request out of zone has called the next plugin once, not caching.
  */
  lemma RequestFate(f: Fleet, es: seq<Event>, w: World, q: nat)
    requires Reaches(f, es, w) && q < |w.requests|
    ensures var r := w.requests[q];
            && r.inst < |f.instances|
            && if f.instances[r.inst].inZone(QName(r.msg)) then
                 match r.stage
                 case Served(_) => |r.sent| == 1 && r.nexts == 0
                 case Passed(caching) => caching && r.sent == [] && r.nexts == 1
                 case _ => r.sent == [] && r.nexts == 0
               else
                 r.stage == Passed(false) && r.sent == [] && r.nexts == 1
  {
    RequestFact(f, es, w, q);
  }

  /** Instances with different prefixes never read each other's entries. */
  lemma PrefixIsolation(f: Fleet, es: seq<Event>, w: World, n: nat)
    requires Reaches(f, es, w) && n < |w.lookups| && ReadsPlugin(w, w.lookups[n])
    ensures w.log[w.lookups[n].got.entry.value].origin.job < |w.sets|
    ensures var writer := w.sets[w.log[w.lookups[n].got.entry.value].origin.job].inst;
            && writer < |f.instances| && w.lookups[n].inst < |f.instances|
            && f.instances[writer].keyer.prefix == f.instances[w.lookups[n].inst].keyer.prefix
  {
    LookupFact(f, es, w, n);
    var l := w.lookups[n];
    EntryHoldsReply(f, es, w, l.got.entry.value);
    var r := w.replies[ReplyOf(w, l.got.entry.value)];
    SharedKey(f.hash, f.instances[r.inst].keyer, ReplySlot(r.request, r.msg),
              f.instances[l.inst].keyer, RequestSlot(l.msg));
  }

  ghost predicate ByPlugin(op: Op) {
    IsPluginSet(op) || op.Expire?
  }

  /** The instance that sent write `i`, and the slot whose key it writes. */
  ghost predicate Sent(f: Fleet, w: World, i: nat, inst: nat, s: Slot) {
    && i < |w.log| && inst < |f.instances| && w.log[i].key == KeyOf(f.hash, f.instances[inst].keyer, s)
    && match w.log[i]
       case Set(_, _, _, _, origin) => origin.FromJob? && origin.job < |w.sets| && inst == w.sets[origin.job].inst
       case Expire(_, _, job) => job < |w.evicts| && inst == w.evicts[job].inst
  }

  lemma WriteSent(f: Fleet, es: seq<Event>, w: World, i: nat) returns (inst: nat, s: Slot)
    requires Reaches(f, es, w) && i < |w.log| && ByPlugin(w.log[i])
    ensures Sent(f, w, i, inst, s)
  {
    if w.log[i].Set? {
      EntryHoldsReply(f, es, w, i);
      var r := w.replies[ReplyOf(w, i)];
      inst, s := r.inst, ReplySlot(r.request, r.msg);
    } else {
      EvictionCaused(f, es, w, i);
      var n: nat :| CausedBy(w, i, n);
      LookupFact(f, es, w, n);
      inst, s := w.lookups[n].inst, RequestSlot(w.lookups[n].msg);
    }
  }

  /** Instances with different prefixes never write or evict under one key. */
  lemma WritePrefixIsolation(f: Fleet, es: seq<Event>, w: World, i: nat, j: nat)
    requires Reaches(f, es, w) && i < |w.log| && j < |w.log|
    requires ByPlugin(w.log[i]) && ByPlugin(w.log[j]) && w.log[i].key == w.log[j].key
    ensures exists a: nat, b: nat, s, t ::
              && Sent(f, w, i, a, s) && Sent(f, w, j, b, t)
              && f.instances[a].keyer.prefix == f.instances[b].keyer.prefix
  {
    var a, s := WriteSent(f, es, w, i);
    var b, t := WriteSent(f, es, w, j);
    SharedKey(f.hash, f.instances[a].keyer, s, f.instances[b].keyer, t);
  }
}
