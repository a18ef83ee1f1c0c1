/**
One instance at work on one request: the lookup (redis_cache.go:320-441), the caching
writer (cache.go:241-335) and the handler (handler.go:14-58), as they overwrite messages,
counters and queues. What each does is what the state machine of the fleet takes as a
step.
*/
module Plugin {
  import opened Wrappers
  import opened Dns
  import opened Messages
  import opened Ttl
  import opened Keys
  import opened Payload
  import opened Cacheability
  import opened Decisions
  import opened Protocol

  /** The writer a reply goes out on. */
  class Client {
    var sent: seq<Msg>

    constructor ()
      ensures sent == []
    {
      sent := [];
    }

    method WriteMsg(m: Message)
      modifies this
      ensures sent == old(sent) + [m.View()]
    {
      sent := sent + [m.View()];
    }
  }

  /** The library's SetReply, in place. */
  method SetReplyTo(m: Message, r: Msg)
    modifies m
    ensures m.View() == SetReply(old(m.View()), r)
  {
    m.id := r.id;
    m.response := true;
    m.opcode := r.opcode;
    if m.opcode == OPCODE_QUERY {
      m.recursionDesired := r.recursionDesired;
      m.checkingDisabled := r.checkingDisabled;
    }
    m.rcode := RCODE_SUCCESS;
    if |r.question| > 0 {
      m.question := [r.question[0]];
    }
  }

  /** What the handler did with a request. */
  datatype Disposition = Wrote(rcode: uint16) | CallNext(caching: bool) | Panicked

  class Cache {
    const settings: Settings
    var metrics: Metrics
    var mismatches: nat
    var encodeErrors: nat
    var evictions: seq<string>  // detached evictions started
    var writes: seq<Plan>       // detached writes started

    ghost predicate Valid() {
      WellReadConfig(settings.ttl)
    }

    constructor (s: Settings)
      requires WellReadConfig(s.ttl)
      ensures Valid() && settings == s
      ensures metrics == Metrics(0, 0, 0, 0) && mismatches == 0 && encodeErrors == 0 && evictions == [] && writes == []
    {
      settings := s;
      metrics, mismatches, encodeErrors := Metrics(0, 0, 0, 0), 0, 0;
      evictions, writes := [], [];
    }

    /** redis_cache.go:320-372, given what Redis answered. A failed read has an error; a miss has no message. */
    method Get(key: string, g: GetReply, t: TtlReply) returns (m: Message?, storedDO: bool, failed: bool)
      modifies this`evictions
      ensures failed ==> m == null
      ensures failed <==> g.GetFailed? || (g.Value? && g.bytes != [] && Decode(settings.codec, g.bytes, ServedTTL(t)).None?)
      ensures m != null <==> g.Value? && g.bytes != [] && Decode(settings.codec, g.bytes, ServedTTL(t)).Some?
      ensures m != null ==> fresh(m) && (m.View(), storedDO) == Decode(settings.codec, g.bytes, ServedTTL(t)).value
      ensures evictions == old(evictions) + if g.Value? && m == null then [key] else []
    {
      m, storedDO, failed := null, false, false;
      match g
      case Nil =>
      case GetFailed => failed := true;
      case Value(b) =>
        if |b| == 0 {
          evictions := evictions + [key];
          return;
        }
        var ttl: uint32 := 0;
        if t.Seconds? && t.seconds > 0 {
          ttl := t.seconds % TWO_32;
        }
        var ok;
        ok, m, storedDO := FromBytes(settings.codec, b, ttl);
        if !ok {
          evictions := evictions + [key];
          failed := true;
        }
    }

    /** redis_cache.go:409-441. */
    method Lookup(r: Msg, g: GetReply, t: TtlReply) returns (m: Message?, crashed: bool)
      modifies this`evictions, this`metrics
      ensures var o := Judge(settings.codec, r, g, t);
              && (m != null <==> o.Hit?)
              && (m != null ==> fresh(m) && m.View() == o.msg)
              && (crashed <==> o.Crash?)
              && metrics == Observe(old(metrics), o)
              && evictions == old(evictions) +
                 if o.Evicts() then [KeyOf(settings.hash, settings.keyer, RequestSlot(r))] else []
    {
      crashed := false;
      metrics := metrics.(requests := metrics.requests + 1);
      var k := Key(settings.hash, settings.keyer, QName(r), QClass(r), QType(r), MsgDo(r), r.checkingDisabled);
      var found, cachedDO, failed := Get(k, g, t);
      if failed {
        metrics := metrics.(errors := metrics.errors + 1);
        return null, false;
      }
      if found == null {
        return null, false;
      }
      var v := found.View();
      assert Judge(settings.codec, r, g, t) ==
             if Confirms(r, v, cachedDO) then Hit(v) else if v.question == [] then Crash else Collision;
      if !Match(r, v) || v.question[0].qclass != QClass(r) || cachedDO != MsgDo(r) ||
         v.checkingDisabled != r.checkingDisabled
      {
        if |v.question| == 0 {
          return null, true;
        }
        metrics := metrics.(collisions := metrics.collisions + 1);
        evictions := evictions + [k];
        return null, false;
      }
      metrics := metrics.(hits := metrics.hits + 1);
      return found, false;
    }

    /** cache.go:346-350. */
    method ResponseMatchesRequest(r: Msg, res: Message) returns (b: bool)
      ensures b <==> AnswersRequest(r, res.View())
    {
      return Match(r, res.View()) && res.question[0].qclass == QClass(r) && res.checkingDisabled == r.checkingDisabled;
    }

    /** cache.go:242-262: the key of a cacheable reply, and no key for any other. */
    method ReplyKey(r: Msg, res: Message, t: ResponseType) returns (k: string)
      ensures k != "" <==> Accepts(res.View(), t)
      ensures k != "" ==> k == KeyOf(settings.hash, settings.keyer, ReplySlot(r, res.View()))
    {
      var opt := Edns(res.extra);
      var dnssec := opt.Some? && DoBit(opt.value.ttl);
      k := "";
      var cacheable := Cacheable(res.View(), t);
      if cacheable {
        k := Key(settings.hash, settings.keyer, QName(r), QClass(r), QType(r), dnssec, r.checkingDisabled);
        KeyNotEmpty(settings.hash, settings.keyer, ReplySlot(r, res.View()));
      }
    }

    /** cache.go:242-304: the key, the duration and the bytes, before anything is overwritten. */
    method Snapshot(r: Msg, res: Message, t: ResponseType) returns (plan: Option<Plan>, duration: Duration)
      modifies this`mismatches, this`encodeErrors
      ensures duration == Lifetime(settings.ttl, res.View(), t)
      ensures plan == PlanFor(settings, r, res.View(), t)
      ensures var m := res.View();
              var tried := Accepts(m, t) && duration > 0;
              && mismatches == old(mismatches) + (if tried && !AnswersRequest(r, m) then 1 else 0)
              && encodeErrors == old(encodeErrors) +
                 (if tried && AnswersRequest(r, m) && Encode(settings.codec, m).None? then 1 else 0)
    {
      var k := ReplyKey(r, res, t);
      duration := ClampedTTL(settings.ttl, res, t);
      plan := None;
      if k != "" && duration > 0 {
        var matches := ResponseMatchesRequest(r, res);
        if !matches {
          mismatches := mismatches + 1;
        } else {
          var wire := ToBytes(settings.codec, res);
          if wire.None? {
            encodeErrors := encodeErrors + 1;
          } else {
            plan := Some(Plan(k, wire.value, duration));
          }
        }
      }
    }

    /**
    cache.go:241-335. The stored bytes are those of the reply as it came in; the client
    gets it with its lifetime as TTL.
    */
    method WriteMsg(client: Client, r: Msg, res: Message, t: ResponseType)
      requires Valid()
      modifies this`writes, this`mismatches, this`encodeErrors, client, res`answer, res`ns, res`extra
      ensures var m, d := old(res.View()), Lifetime(settings.ttl, old(res.View()), t);
              && d >= 0
              && res.View() == WithTTL(m, ToUint32(d))
              && client.sent == old(client.sent) + [WithTTL(m, ToUint32(d))]
              && writes == old(writes) + (match PlanFor(settings, r, m, t) case None => [] case Some(p) => [p])
      ensures var m := old(res.View());
              var tried := Accepts(m, t) && Lifetime(settings.ttl, m, t) > 0;
              && mismatches == old(mismatches) + (if tried && !AnswersRequest(r, m) then 1 else 0)
              && encodeErrors == old(encodeErrors) +
                 (if tried && AnswersRequest(r, m) && Encode(settings.codec, m).None? then 1 else 0)
    {
      LifetimeBounds(settings.ttl, res.View(), t);
      var plan, duration := Snapshot(r, res, t);
      SetMsgTTL(res, ToUint32(duration));
      client.WriteMsg(res);
      if plan.Some? {
        writes := writes + [plan.value];
      }
    }

    /** handler.go:14-58. The next plugin is left to the caller. */
    method ServeDNS(client: Client, r: Msg, inZone: bool, g: GetReply, t: TtlReply) returns (d: Disposition)
      modifies this`evictions, this`metrics, client
      ensures !inZone ==>
                && d == CallNext(false) && client.sent == old(client.sent)
                && metrics == old(metrics) && evictions == old(evictions)
      ensures inZone ==>
                var o := Judge(settings.codec, r, g, t);
                && metrics == Observe(old(metrics), o)
                && evictions == old(evictions) +
                   (if o.Evicts() then [KeyOf(settings.hash, settings.keyer, RequestSlot(r))] else [])
                && match o
                   case Hit(m) => d == Wrote(m.rcode) && client.sent == old(client.sent) + [FromCache(r, m)]
                   case Crash => d == Panicked && client.sent == old(client.sent)
                   case _ => d == CallNext(true) && client.sent == old(client.sent)
    {
      if !inZone {
        return CallNext(false);
      }
      var m, crashed := Lookup(r, g, t);
      if crashed {
        return Panicked;
      }
      if m != null {
        var rcode := m.rcode;
        SetReplyTo(m, r);
        m.rcode := rcode;
        m.authoritative := true;
        if !MsgDo(r) && !r.authenticatedData {
          m.authenticatedData := false;
        }
        client.WriteMsg(m);
        return Wrote(m.rcode);
      }
      return CallNext(true);
    }
  }
}
