/**
What the plugin decides about one request and one reply: where a reply is stored
(cache.go:241-304), what a lookup makes of Redis's answers (redis_cache.go:320-441),
and how a cached message is turned into a reply (handler.go:24-47).
*/
module Decisions {
  import opened Wrappers
  import opened Dns
  import opened Ttl
  import opened Keys
  import opened Payload
  import opened Cacheability

  // ---- the request as CoreDNS presents it ----

  function QName(r: Msg): Name {
    if r.question == [] then [46] else Fold(r.question[0].name)
  }

  function QType(r: Msg): uint16 {
    if r.question == [] then 0 else r.question[0].qtype
  }

  function QClass(r: Msg): uint16 {
    if r.question == [] then 0 else r.question[0].qclass
  }

  predicate Match(r: Msg, reply: Msg) {
    && |reply.question| == 1
    && reply.response
    && Fold(reply.question[0].name) == Fold(QName(r))
    && reply.question[0].qtype == QType(r)
  }

  /** What cache.go:346-350 checks: everything of the key that comes from the request. */
  predicate AnswersRequest(r: Msg, reply: Msg) {
    && Match(r, reply)
    && reply.question[0].qclass == QClass(r)
    && reply.checkingDisabled == r.checkingDisabled
  }

  /** The slot a request looks in. */
  function RequestSlot(r: Msg): Slot {
    Slot(QName(r), QClass(r), QType(r), MsgDo(r), r.checkingDisabled)
  }

  /** The slot a reply is filed in: the request's question and CD bit, the reply's own DO bit. */
  function ReplySlot(r: Msg, reply: Msg): Slot {
    Slot(QName(r), QClass(r), QType(r), MsgDo(reply), r.checkingDisabled)
  }

  /** The settings of one instance. */
  datatype Settings = Settings(codec: Codec, hash: Hash, keyer: Keyer, ttl: TtlConfig)

  // ---- the write side ----

  datatype Plan = Plan(key: string, payload: seq<byte>, duration: Duration)

  /** What WriteMsg stores, if anything. */
  ghost function PlanFor(s: Settings, r: Msg, reply: Msg, t: ResponseType): Option<Plan> {
    if Accepts(reply, t) && Lifetime(s.ttl, reply, t) > 0 && AnswersRequest(r, reply) && Encode(s.codec, reply).Some? then
      Some(Plan(KeyOf(s.hash, s.keyer, ReplySlot(r, reply)), Encode(s.codec, reply).value, Lifetime(s.ttl, reply, t)))
    else None
  }

  lemma PlanDuration(s: Settings, r: Msg, reply: Msg, t: ResponseType)
    requires PlanFor(s, r, reply, t).Some?
    ensures PlanFor(s, r, reply, t).value.duration == Lifetime(s.ttl, reply, t) > 0
  {
  }

  /** A stored reply goes under the key of its slot. */
  lemma PlanKey(s: Settings, r: Msg, reply: Msg, t: ResponseType)
    requires PlanFor(s, r, reply, t).Some?
    ensures PlanFor(s, r, reply, t).value.key == KeyOf(s.hash, s.keyer, ReplySlot(r, reply))
  {
  }

  /** Of the other types only server failures are stored, only with a positive floor, and for exactly the floor. */
  lemma OtherTypePlan(s: Settings, r: Msg, reply: Msg, t: ResponseType)
    requires WellReadConfig(s.ttl) && !Positive(t) && !Ttl.Denial(t)
    ensures PlanFor(s, r, reply, t).Some? <==>
            && t == ServerError && s.ttl.success.floor > 0
            && !reply.truncated && AnswersRequest(r, reply) && s.codec.pack(StripOPT(reply)).Some?
    ensures PlanFor(s, r, reply, t).Some? ==> PlanFor(s, r, reply, t).value.duration == s.ttl.success.floor
  {
    OtherTypeLifetime(s.ttl, reply, t);
  }

  /**
  A response with one question, the request's own in any spelling, and the request's CD
  bit. A request without question counts as one for the root, type and class zero.
  */
  ghost predicate Answers(r: Msg, reply: Msg) {
    && reply.response && |reply.question| == 1 && reply.checkingDisabled == r.checkingDisabled
    && var q := reply.question[0];
    if r.question == [] then SameName(q.name, [46]) && q.qtype == 0 && q.qclass == 0
    else SameName(q.name, r.question[0].name) && q.qtype == r.question[0].qtype && q.qclass == r.question[0].qclass
  }

  lemma AnswersExactly(r: Msg, reply: Msg)
    ensures AnswersRequest(r, reply) <==> Answers(r, reply)
  {
    FoldIdempotentName(r);
    if |reply.question| == 1 {
      FoldExactly(reply.question[0].name, if r.question == [] then [46] else r.question[0].name);
      assert Fold([46]) == [46];
    }
  }

  /** Which replies of a type may be cached, truncation aside. */
  ghost predicate CacheableByType(m: Msg, t: ResponseType)
    requires |m.question| == 1
  {
    match t
    case NoError => SoaIn(m.ns) || m.answer == [] || m.question[0].qtype == 255 || Answered(m.answer, m.question[0])
    case NameError => SoaIn(m.ns)
    case NoData => true
    case Delegation => true
    case ServerError => true
    case _ => false
  }

  /**
  Exactly which replies are stored: one question, not truncated, cacheable by type, an
  answer to the request, packable, and with a floor or a message TTL that is positive.
  */
  lemma StoredExactly(s: Settings, r: Msg, reply: Msg, t: ResponseType, d: Duration)
    requires WellReadConfig(s.ttl) && IsMsgTTL(reply, t, d)
    ensures PlanFor(s, r, reply, t).Some? <==>
            && |reply.question| == 1 && !reply.truncated && CacheableByType(reply, t)
            && Answers(r, reply)
            && s.codec.pack(StripOPT(reply)).Some?
            && (d > 0 || (if t == NameError || t == NoData then s.ttl.denial.floor else s.ttl.success.floor) > 0)
  {
    AnswersExactly(r, reply);
    MsgTTLUnique(reply, t, d, d);
    LifetimeByType(s.ttl, reply, t, d);
  }

  // ---- the read side ----

  datatype GetReply = Nil | Value(bytes: seq<byte>) | GetFailed

  /** Redis answers TTL with seconds, or with a negative number for no expiry and for no key. */
  datatype TtlReply = Seconds(seconds: int) | TtlFailed

  datatype Outcome = Hit(msg: Msg) | Miss | EmptyValue | ReadFailed | BadPayload | Collision | Crash {
    /** The reads after which the key is evicted. */
    predicate Evicts() { EmptyValue? || BadPayload? || Collision? }
  }

  function ServedTTL(t: TtlReply): uint32 {
    if t.Seconds? && t.seconds > 0 then t.seconds % TWO_32 else 0
  }

  /** The decoded value is for the request's own slot. */
  predicate Confirms(r: Msg, m: Msg, storedDO: bool) {
    AnswersRequest(r, m) && storedDO == MsgDo(r)
  }

  /**
  The outcome of a lookup. A mismatch is reported with the first question of the value,
  so a value without question brings the lookup down.
  */
  function Judge(c: Codec, r: Msg, g: GetReply, t: TtlReply): Outcome {
    match g
    case Nil => Miss
    case GetFailed => ReadFailed
    case Value(b) =>
      if b == [] then EmptyValue
      else
        match Decode(c, b, ServedTTL(t))
        case None => BadPayload
        case Some((m, storedDO)) =>
          if Confirms(r, m, storedDO) then Hit(m)
          else if m.question == [] then Crash
          else Collision
  }

  // ---- serving ----

  /** The library's SetReply. */
  function SetReply(m: Msg, r: Msg): Msg {
    var m1 := m.(id := r.id, response := true, opcode := r.opcode, rcode := RCODE_SUCCESS,
                 question := if r.question == [] then m.question else [r.question[0]]);
    if r.opcode == OPCODE_QUERY then
      m1.(recursionDesired := r.recursionDesired, checkingDisabled := r.checkingDisabled)
    else m1
  }

  /** The reply made of a cached message. */
  function FromCache(r: Msg, m: Msg): Msg {
    SetReply(m, r).(rcode := m.rcode, authoritative := true,
                    authenticatedData := m.authenticatedData && (MsgDo(r) || r.authenticatedData))
  }

  /** Two messages with the same result and the same records, TTLs aside. */
  ghost predicate SameContent(a: Msg, b: Msg) {
    && a.rcode == b.rcode
    && SetTTLs(a.answer, 0, false) == SetTTLs(b.answer, 0, false)
    && SetTTLs(a.ns, 0, false) == SetTTLs(b.ns, 0, false)
    && SetTTLs(a.extra, 0, true) == SetTTLs(b.extra, 0, true)
  }

  /**
  `sent` answers the request, under its id and first question, with the result and records
  of `reply` but for OPT and TTLs. It claims authority, and authenticated data only if the
  reply did and the request wants to know.
  */
  ghost predicate AnswersWith(sent: Msg, r: Msg, reply: Msg) {
    && sent.id == r.id && sent.response && sent.opcode == r.opcode
    && sent.question == (if r.question == [] then reply.question else r.question[..1])
    && SameContent(sent, StripOPT(reply))
    && sent.authoritative
    && (sent.authenticatedData <==> reply.authenticatedData && (MsgDo(r) || r.authenticatedData))
    && sent.truncated == reply.truncated && sent.recursionAvailable == reply.recursionAvailable
    && sent.checkingDisabled == r.checkingDisabled
    && (r.opcode == OPCODE_QUERY ==> sent.recursionDesired == r.recursionDesired)
  }

  // ---- what follows ----

  /**
  A hit on the payload of a stored reply is that reply: same result and records, the
  same question up to letter case, and the request's own DO and CD bits.
  */
  lemma HitIsStoredReply(s: Settings, r0: Msg, reply: Msg, t: ResponseType, r: Msg, ttl: TtlReply)
    requires Faithful(s.codec)
    requires PlanFor(s, r0, reply, t).Some?
    requires Judge(s.codec, r, Value(PlanFor(s, r0, reply, t).value.payload), ttl).Hit?
    ensures var m := Judge(s.codec, r, Value(PlanFor(s, r0, reply, t).value.payload), ttl).msg;
            && m == WithTTL(StripOPT(reply), ServedTTL(ttl))
            && AnswersWith(FromCache(r, m), r, reply)
            && ReplySlot(r0, reply) == RequestSlot(r)
            && Accepts(reply, t)
  {
    RoundTrip(s.codec, reply, ServedTTL(ttl));
    FoldIdempotentName(r0);
    FoldIdempotentName(r);
    assert r.question != [] ==> [r.question[0]] == r.question[..1];
    var m := StripOPT(reply);
    SetTTLsTwice(m.answer, ServedTTL(ttl), 0, false);
    SetTTLsTwice(m.ns, ServedTTL(ttl), 0, false);
    SetTTLsTwice(m.extra, ServedTTL(ttl), 0, true);
  }

  lemma FoldIdempotentName(r: Msg)
    ensures Fold(QName(r)) == QName(r)
  {
    if r.question == [] {
      assert Fold([46]) == [46];
    } else {
      FoldIdempotent(r.question[0].name);
    }
  }

  /** Reading a stored reply either serves it or finds that the request was for another slot. */
  lemma StoredReplyJudged(s: Settings, r0: Msg, reply: Msg, t: ResponseType, r: Msg, ttl: TtlReply)
    requires Faithful(s.codec)
    requires PlanFor(s, r0, reply, t).Some?
    ensures var o := Judge(s.codec, r, Value(PlanFor(s, r0, reply, t).value.payload), ttl);
            if ReplySlot(r0, reply) == RequestSlot(r) then o.Hit? else o.Collision?
  {
    RoundTrip(s.codec, reply, ServedTTL(ttl));
    FoldIdempotentName(r0);
    FoldIdempotentName(r);
  }

  /** Exactly which values are served: those that decode to an answer to the request with the request's DO bit. */
  lemma HitExactly(c: Codec, r: Msg, b: seq<byte>, t: TtlReply)
    ensures var d := Decode(c, b, ServedTTL(t));
            && (Judge(c, r, Value(b), t).Hit? <==> b != [] && d.Some? && Answers(r, d.value.0) && d.value.1 == MsgDo(r))
            && (Judge(c, r, Value(b), t).Hit? ==> Judge(c, r, Value(b), t).msg == d.value.0)
  {
    var d := Decode(c, b, ServedTTL(t));
    if d.Some? {
      AnswersExactly(r, d.value.0);
    }
  }

  ghost predicate RecordsHaveTTL(m: Msg, ttl: uint32) {
    && (forall rr | rr in m.answer + m.ns :: rr.ttl == ttl)
    && (forall rr | rr in m.extra && !rr.rdata.Opt? :: rr.ttl == ttl)
  }

  lemma WithTTLSets(m: Msg, ttl: uint32)
    ensures RecordsHaveTTL(WithTTL(m, ttl), ttl)
  {
    var u := WithTTL(m, ttl);
    assert forall i | 0 <= i < |u.extra| :: !u.extra[i].rdata.Opt? ==> u.extra[i].ttl == ttl;
  }

  /** The records of a hit carry the TTL read from Redis. */
  lemma HitTTL(c: Codec, r: Msg, g: GetReply, t: TtlReply)
    requires Judge(c, r, g, t).Hit?
    ensures RecordsHaveTTL(FromCache(r, Judge(c, r, g, t).msg), ServedTTL(t))
  {
    DecodedTTL(c, g.bytes, ServedTTL(t));
  }

  /** A lookup comes down exactly on a value that decodes to a message without question. */
  lemma CrashExactly(c: Codec, r: Msg, g: GetReply, t: TtlReply)
    ensures Judge(c, r, g, t).Crash? <==>
            g.Value? && g.bytes != [] && Decode(c, g.bytes, 0).Some? && Decode(c, g.bytes, 0).value.0.question == []
  {
    if g.Value? && g.bytes != [] {
      DecodeQuestion(c, g.bytes, ServedTTL(t), 0);
    }
  }

  /** Any packed response without question brings down every lookup that finds it. */
  lemma QuestionlessCrashes(c: Codec, m: Msg, r: Msg, t: TtlReply)
    requires Faithful(c) && c.pack(m).Some? && m.response && m.question == []
    ensures Judge(c, r, Value(c.pack(m).value), t).Crash?
  {
    LegacyResponse(c, m, ServedTTL(t));
  }

  lemma DecodeQuestion(c: Codec, b: seq<byte>, t: uint32, u: uint32)
    ensures Decode(c, b, t).Some? <==> Decode(c, b, u).Some?
    ensures Decode(c, b, t).Some? ==> Decode(c, b, t).value.0.question == Decode(c, b, u).value.0.question
  {
  }
}
