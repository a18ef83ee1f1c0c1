/**
How long a reply lives (ttl.go, cache.go:264-279): the scan for the least TTL, the
clamp into the configured bounds, and the TTLs written back into the reply.
Durations are nanoseconds.
*/
module Ttl {
  import opened Wrappers
  import opened Dns
  import opened Messages

  type Duration = int

  const SECOND: Duration := 1_000_000_000
  const MAX_TTL: Duration := 3600 * SECOND
  const MAX_NTTL: Duration := 1800 * SECOND
  const FAIL_SAFE_TTL: Duration := 5 * SECOND
  const TWO_32 := 0x1_0000_0000

  datatype Bounds = Bounds(cap: Duration, floor: Duration)

  /** The configured bounds of positive and of negative replies. */
  datatype TtlConfig = TtlConfig(success: Bounds, denial: Bounds)

  predicate Positive(t: ResponseType) {
    t == NoError || t == Delegation
  }

  predicate Denial(t: ResponseType) {
    t == NameError || t == NoData
  }

  function BoundsFor(cfg: TtlConfig, t: ResponseType): Bounds {
    if Denial(t) then cfg.denial else cfg.success
  }

  /** Bounds as every accepted configuration has them: whole seconds, positive cap, floor not negative. */
  predicate WellRead(b: Bounds) {
    0 < b.cap && 0 <= b.floor && b.cap % SECOND == 0 && b.floor % SECOND == 0
  }

  predicate WellReadConfig(cfg: TtlConfig) {
    WellRead(cfg.success) && WellRead(cfg.denial)
  }

  /** Bounds in order; repeated directives can break this. */
  predicate ValidBounds(b: Bounds) {
    WellRead(b) && b.floor <= b.cap
  }

  predicate ValidTtlConfig(cfg: TtlConfig) {
    ValidBounds(cfg.success) && ValidBounds(cfg.denial)
  }

  function Min(a: Duration, b: Duration): Duration { if a < b then a else b }

  function Max(a: Duration, b: Duration): Duration { if a < b then b else a }

  // ---- the TTL of a message ----

  function Records(m: Msg): seq<RR> {
    m.answer + m.ns + m.extra
  }

  /** `d` is one hour or the TTL of a non-OPT record, whichever is least. */
  ghost predicate IsLeastTTL(rrs: seq<RR>, d: Duration) {
    && d <= MAX_TTL
    && (forall rr | rr in rrs && !rr.rdata.Opt? :: d <= rr.ttl * SECOND)
    && (d == MAX_TTL || exists rr | rr in rrs && !rr.rdata.Opt? :: d == rr.ttl * SECOND)
  }

  /** `d` is the minimum field of the first SOA record, or one hour if there is none. */
  ghost predicate IsFirstMinimum(rrs: seq<RR>, d: Duration) {
    || (d == MAX_TTL && NoSoa(rrs))
    || exists i :: FirstSoaAt(rrs, i) && d == rrs[i].rdata.minttl * SECOND
  }

  ghost predicate NoSoa(rrs: seq<RR>) {
    forall rr | rr in rrs :: !rr.rdata.Soa?
  }

  ghost predicate FirstSoaAt(rrs: seq<RR>, i: int) {
    && 0 <= i < |rrs| && rrs[i].rdata.Soa?
    && forall j | 0 <= j < i :: !rrs[j].rdata.Soa?
  }

  ghost predicate IsMsgTTL(m: Msg, t: ResponseType, d: Duration) {
    if !Positive(t) && !Denial(t) then d == 0
    else if m.answer == [] && m.ns == [] then d == FAIL_SAFE_TTL
    else if Positive(t) then IsLeastTTL(Records(m), d)
    else IsFirstMinimum(Records(m), d)
  }

  lemma MsgTTLUnique(m: Msg, t: ResponseType, d: Duration, e: Duration)
    requires IsMsgTTL(m, t, d) && IsMsgTTL(m, t, e)
    ensures d == e
    ensures 0 <= d < TWO_32 * SECOND && d % SECOND == 0
  {
    if Denial(t) && !(m.answer == [] && m.ns == []) {
      var rrs := Records(m);
      forall i, j | FirstSoaAt(rrs, i) && FirstSoaAt(rrs, j) ensures i == j {
      }
      forall i | FirstSoaAt(rrs, i) ensures rrs[i] in rrs {
      }
    }
  }

  /** What the scan knows after `rrs`. */
  ghost predicate Scanned(t: ResponseType, rrs: seq<RR>, d: Duration) {
    if Denial(t) then d == MAX_TTL && NoSoa(rrs) else IsLeastTTL(rrs, d)
  }

  lemma ScanStep(t: ResponseType, rrs: seq<RR>, r: RR, d: Duration)
    requires Scanned(t, rrs, d) && !(Denial(t) && r.rdata.Soa?)
    ensures Scanned(t, rrs + [r], if !Denial(t) && !r.rdata.Opt? && r.ttl < d / SECOND then r.ttl * SECOND else d)
  {
    assert r in rrs + [r];
    assert forall rr | rr in rrs :: rr in rrs + [r];
    if !Denial(t) {
      assert d == (d / SECOND) * SECOND;
    }
  }

  /** The records of the first `k` sections. */
  ghost function Sections(m: Msg, k: nat): seq<RR> {
    if k == 0 then [] else if k == 1 then m.answer else if k == 2 then m.answer + m.ns else Records(m)
  }

  /** The inner loop, ttl.go:27-42, after the records `before`; `soa` is where it returns early. */
  method ScanSection(section: seq<RR>, t: ResponseType, d0: Duration, ghost before: seq<RR>)
    returns (d: Duration, soa: Option<nat>)
    requires Scanned(t, before, d0)
    ensures soa.None? ==> Scanned(t, before + section, d)
    ensures soa.Some? ==>
              && Denial(t) && FirstSoaAt(section, soa.value) && NoSoa(before)
              && d == section[soa.value].rdata.minttl * SECOND
  {
    d := d0;
    assert before + section[..0] == before;
    for i := 0 to |section|
      invariant Scanned(t, before + section[..i], d)
    {
      var r := section[i];
      ghost var seen := before + section[..i];
      assert before + section[..i + 1] == seen + [r];
      if !(Denial(t) && r.rdata.Soa?) {
        ScanStep(t, seen, r, d);
      }
      if r.Type() == TYPE_OPT {
        continue;
      }
      if t == NameError || t == NoData {
        if r.Type() == TYPE_SOA {
          FirstInSection(before, section, i);
          return r.rdata.minttl * SECOND, Some(i);
        }
      } else if r.ttl < d / SECOND {
        d := r.ttl * SECOND;
      }
    }
    assert before + section[..|section|] == before + section;
    soa := None;
  }

  lemma FirstInSection(before: seq<RR>, section: seq<RR>, i: nat)
    requires i < |section| && section[i].rdata.Soa? && NoSoa(before + section[..i])
    ensures FirstSoaAt(section, i) && NoSoa(before)
  {
    forall j | 0 <= j < i ensures !section[j].rdata.Soa? {
      assert section[j] == section[..i][j] && section[j] in before + section[..i];
    }
    forall rr | rr in before ensures !rr.rdata.Soa? {
      assert rr in before + section[..i];
    }
  }

  /** ttl.go:11-45. */
  method MinMsgTTL(m: Message, t: ResponseType) returns (d: Duration)
    ensures IsMsgTTL(m.View(), t, d)
  {
    if t != NoError && t != Delegation && t != NameError && t != NoData {
      return 0;
    }
    if |m.answer| + |m.ns| == 0 {
      return FAIL_SAFE_TTL;
    }
    d := MAX_TTL;
    ghost var v := m.View();
    var sections := [m.answer, m.ns, m.extra];
    for k := 0 to 3
      invariant Scanned(t, Sections(v, k), d)
    {
      var soa;
      d, soa := ScanSection(sections[k], t, d, Sections(v, k));
      if soa.Some? {
        SoaReached(v, k, soa.value);
        return;
      }
      assert Sections(v, k) + sections[k] == Sections(v, k + 1);
    }
  }

  lemma SoaReached(m: Msg, k: nat, i: nat)
    requires k < 3 && FirstSoaAt([m.answer, m.ns, m.extra][k], i) && NoSoa(Sections(m, k))
    ensures IsFirstMinimum(Records(m), [m.answer, m.ns, m.extra][k][i].rdata.minttl * SECOND)
  {
    var rrs, before, section := Records(m), Sections(m, k), [m.answer, m.ns, m.extra][k];
    assert rrs[|before|..|before| + |section|] == section && rrs[..|before|] == before;
    forall j | 0 <= j < |before| + i ensures !rrs[j].rdata.Soa? {
      if j < |before| {
        assert rrs[j] == before[j] && before[j] in before;
      } else {
        assert rrs[j] == section[j - |before|];
      }
    }
    assert rrs[|before| + i] == section[i];
    assert FirstSoaAt(rrs, |before| + i);
  }

  // ---- the lifetime ----

  /** The loop-free form of the scan, for use in specifications. */
  function LeastTTL(rrs: seq<RR>): (d: Duration)
    ensures IsLeastTTL(rrs, d)
  {
    if rrs == [] then MAX_TTL
    else
      assert rrs == [rrs[0]] + rrs[1..];
      var rest := LeastTTL(rrs[1..]);
      if rrs[0].rdata.Opt? then rest else Min(rest, rrs[0].ttl * SECOND)
  }

  lemma FirstSoaShift(rrs: seq<RR>)
    requires rrs != [] && !rrs[0].rdata.Soa?
    ensures forall i :: FirstSoaAt(rrs[1..], i) ==> FirstSoaAt(rrs, i + 1) && rrs[i + 1] == rrs[1..][i]
  {
    forall i | FirstSoaAt(rrs[1..], i) ensures FirstSoaAt(rrs, i + 1) && rrs[i + 1] == rrs[1..][i] {
      assert forall j | 0 < j < i + 1 :: rrs[j] == rrs[1..][j - 1];
    }
  }

  function FirstMinimum(rrs: seq<RR>): (d: Duration)
    ensures IsFirstMinimum(rrs, d)
  {
    if rrs == [] then MAX_TTL
    else
      assert rrs == [rrs[0]] + rrs[1..];
      if rrs[0].rdata.Soa? then
        assert FirstSoaAt(rrs, 0);
        rrs[0].rdata.minttl * SECOND
      else
        var d := FirstMinimum(rrs[1..]);
        FirstSoaShift(rrs);
        d
  }

  function MsgTTL(m: Msg, t: ResponseType): (d: Duration)
    ensures IsMsgTTL(m, t, d)
    ensures 0 <= d < TWO_32 * SECOND && d % SECOND == 0
  {
    var d :=
      if !Positive(t) && !Denial(t) then 0
      else if m.answer == [] && m.ns == [] then FAIL_SAFE_TTL
      else if Positive(t) then LeastTTL(Records(m))
      else FirstMinimum(Records(m));
    assert IsMsgTTL(m, t, d);
    MsgTTLUnique(m, t, d, d);
    d
  }

  /** The duration a reply is cached for. */
  function Lifetime(cfg: TtlConfig, m: Msg, t: ResponseType): Duration {
    var b := BoundsFor(cfg, t);
    Max(b.floor, Min(b.cap, MsgTTL(m, t)))
  }

  /** The message TTL, type by type: the least TTL of all sections, the first SOA minimum, five seconds, or nothing. */
  lemma MsgTTLByType(m: Msg, t: ResponseType)
    ensures t == NoError || t == Delegation ==>
              if m.answer + m.ns == [] then MsgTTL(m, t) == 5_000_000_000
              else IsLeastTTL(m.answer + m.ns + m.extra, MsgTTL(m, t))
    ensures t == NameError || t == NoData ==>
              if m.answer + m.ns == [] then MsgTTL(m, t) == 5_000_000_000
              else IsFirstMinimum(m.answer + m.ns + m.extra, MsgTTL(m, t))
    ensures t == ServerError || t == Meta || t == Update || t == OtherError ==> MsgTTL(m, t) == 0
  {
    assert m.answer + m.ns == [] <==> m.answer == [] && m.ns == [];
  }

  /** Denials live within the denial bounds, every other reply within the success bounds. */
  lemma LifetimeByType(cfg: TtlConfig, m: Msg, t: ResponseType, d: Duration)
    requires IsMsgTTL(m, t, d)
    ensures t == NameError || t == NoData ==> Lifetime(cfg, m, t) == Max(cfg.denial.floor, Min(cfg.denial.cap, d))
    ensures !(t == NameError || t == NoData) ==> Lifetime(cfg, m, t) == Max(cfg.success.floor, Min(cfg.success.cap, d))
  {
    MsgTTLUnique(m, t, d, MsgTTL(m, t));
  }

  /** The clamp of cache.go:264-279. */
  method ClampedTTL(cfg: TtlConfig, m: Message, t: ResponseType) returns (duration: Duration)
    ensures duration == Lifetime(cfg, m.View(), t)
    ensures t == NameError || t == NoData ==>
              duration == Max(cfg.denial.floor, Min(cfg.denial.cap, MsgTTL(m.View(), t)))
    ensures !(t == NameError || t == NoData) ==>
              duration == Max(cfg.success.floor, Min(cfg.success.cap, MsgTTL(m.View(), t)))
  {
    var maxDur, minDur := cfg.success.cap, cfg.success.floor;
    if t == NameError || t == NoData {
      maxDur, minDur := cfg.denial.cap, cfg.denial.floor;
    }
    duration := maxDur;
    var msgTTL := MinMsgTTL(m, t);
    MsgTTLUnique(m.View(), t, msgTTL, MsgTTL(m.View(), t));
    if msgTTL < duration {
      duration := msgTTL;
    }
    if duration < minDur {
      duration := minDur;
    }
  }

  /** A lifetime is a whole number of seconds, at least the floor, and at most the cap if and only if the floor is. */
  lemma LifetimeBounds(cfg: TtlConfig, m: Msg, t: ResponseType)
    requires WellReadConfig(cfg)
    ensures 0 <= BoundsFor(cfg, t).floor <= Lifetime(cfg, m, t) && Lifetime(cfg, m, t) % SECOND == 0
    ensures Lifetime(cfg, m, t) <= BoundsFor(cfg, t).cap <==> BoundsFor(cfg, t).floor <= BoundsFor(cfg, t).cap
  {
  }

  /** A reply that is neither positive nor a denial, such as a server failure, lives for the floor. */
  lemma OtherTypeLifetime(cfg: TtlConfig, m: Msg, t: ResponseType)
    requires WellReadConfig(cfg) && !Positive(t) && !Denial(t)
    ensures Lifetime(cfg, m, t) == cfg.success.floor
  {
  }

  // ---- seconds on the wire ----

  /** The conversion to a 32-bit count of seconds; what it yields beyond 32 bits is immaterial below. */
  function ToUint32(d: Duration): uint32
    requires d >= 0
  {
    (d / SECOND) % TWO_32
  }

  /**
  The TTL the first client sees is exactly the expiry given to Redis, if and only if
  the floor fits in 32 bits.
  */
  lemma FirstClientTTLExact(cfg: TtlConfig, m: Msg, t: ResponseType)
    requires WellReadConfig(cfg)
    ensures Lifetime(cfg, m, t) >= 0
    ensures ToUint32(Lifetime(cfg, m, t)) * SECOND == Lifetime(cfg, m, t) <==> BoundsFor(cfg, t).floor < TWO_32 * SECOND
  {
    LifetimeBounds(cfg, m, t);
    var d := Lifetime(cfg, m, t);
    assert d == (d / SECOND) * SECOND;
    if BoundsFor(cfg, t).floor < TWO_32 * SECOND {
      assert d < TWO_32 * SECOND;
      assert d / SECOND < TWO_32;
    } else {
      assert ToUint32(d) < TWO_32;
    }
  }

  /** A floor beyond 32 bits is accepted, and the client then sees another TTL than Redis. */
  lemma FirstClientTTLExample(m: Msg)
    ensures var b := Bounds((TWO_32 + 30) * SECOND, (TWO_32 + 30) * SECOND);
            var cfg := TtlConfig(b, b);
            && ValidTtlConfig(cfg) && Lifetime(cfg, m, NoError) == (TWO_32 + 30) * SECOND
            && ToUint32(Lifetime(cfg, m, NoError)) * SECOND != Lifetime(cfg, m, NoError)
  {
    var b := Bounds((TWO_32 + 30) * SECOND, (TWO_32 + 30) * SECOND);
    FirstClientTTLExact(TtlConfig(b, b), m, NoError);
  }

  // ---- the documented clamp ----

  /** The least TTL of the non-OPT records, without the constant hour. */
  ghost predicate IsRecordTTL(m: Msg, d: Duration) {
    && (exists rr | rr in Records(m) && !rr.rdata.Opt? :: d == rr.ttl * SECOND)
    && (forall rr | rr in Records(m) && !rr.rdata.Opt? :: d <= rr.ttl * SECOND)
  }

  /** Both durations are clamped to the same: they are equal, both reach the cap, or neither exceeds the floor. */
  predicate ClampedAlike(b: Bounds, x: Duration, y: Duration) {
    || x == y
    || (b.cap <= x && b.cap <= y)
    || (x <= b.floor && y <= b.floor)
    || b.cap <= b.floor
  }

  /** Where the documented clamp holds, one condition for each way through the scan. */
  predicate ClampGuard(b: Bounds, m: Msg, t: ResponseType, recordTTL: Duration) {
    if !Positive(t) && !Denial(t) then b.cap <= b.floor || recordTTL <= b.floor
    else if m.answer == [] && m.ns == [] then ClampedAlike(b, FAIL_SAFE_TTL, recordTTL)
    else if Positive(t) then Min(recordTTL, b.cap) <= Max(MAX_TTL, b.floor)
    else ClampedAlike(b, FirstMinimum(Records(m)), recordTTL)
  }

  /**
  The README promises max(min, min(record TTL, max)) for every response. The scan starts
  from one hour whatever the maximum, takes five seconds without answer and authority,
  the first SOA minimum for denials, and zero for the other types; the promise holds if
  and only if that makes no difference after the clamp.
  */
  lemma DocumentedClamp(cfg: TtlConfig, m: Msg, t: ResponseType, recordTTL: Duration)
    requires WellReadConfig(cfg) && IsRecordTTL(m, recordTTL)
    ensures var b := BoundsFor(cfg, t);
            Lifetime(cfg, m, t) == Max(b.floor, Min(recordTTL, b.cap)) <==> ClampGuard(b, m, t, recordTTL)
  {
    if Positive(t) && !(m.answer == [] && m.ns == []) {
      assert IsLeastTTL(Records(m), Min(MAX_TTL, recordTTL));
      MsgTTLUnique(m, t, Min(MAX_TTL, recordTTL), MsgTTL(m, t));
    }
  }

  /** Under bounds in order, the lifetime is not the documented clamp of the record TTL. */
  ghost predicate BreaksClamp(b: Bounds, m: Msg, t: ResponseType, recordTTL: Duration, lifetime: Duration) {
    && ValidBounds(b) && IsRecordTTL(m, recordTTL)
    && Lifetime(TtlConfig(b, b), m, t) == lifetime != Max(b.floor, Min(recordTTL, b.cap))
  }

  const EXAMPLE_RR := RR([46], 1, 7200, Other(1, []))
  const EXAMPLE_SOA := RR([46], 1, 60, Soa(600, []))
  const HOUR_BOUNDS := Bounds(3600 * SECOND, 0)
  const DAY_BOUNDS := Bounds(86400 * SECOND, 0)

  /** A cap of a day does not help a record of two hours: the scan stops at one hour. */
  lemma HourExample(m: Msg)
    ensures BreaksClamp(DAY_BOUNDS, m.(answer := [EXAMPLE_RR], ns := [], extra := []), NoError, 7200 * SECOND, 3600 * SECOND)
  {
    var a := m.(answer := [EXAMPLE_RR], ns := [], extra := []);
    OneRecord(a, EXAMPLE_RR);
    assert [EXAMPLE_RR][1..] == [];
    assert MsgTTL(a, NoError) == MAX_TTL;
  }

  /** A denial lives for the minimum of its SOA record, not for the record's TTL. */
  lemma DenialExample(m: Msg)
    ensures BreaksClamp(HOUR_BOUNDS, m.(answer := [], ns := [EXAMPLE_SOA], extra := []), NameError, 60 * SECOND, 600 * SECOND)
  {
    var a := m.(answer := [], ns := [EXAMPLE_SOA], extra := []);
    OneRecord(a, EXAMPLE_SOA);
    assert MsgTTL(a, NameError) == 600 * SECOND;
  }

  /** Without answer and authority the additional records do not count. */
  lemma FailSafeExample(m: Msg)
    ensures BreaksClamp(HOUR_BOUNDS, m.(answer := [], ns := [], extra := [EXAMPLE_RR]), NoError, 7200 * SECOND, 5 * SECOND)
  {
    OneRecord(m.(answer := [], ns := [], extra := [EXAMPLE_RR]), EXAMPLE_RR);
  }

  /** A server failure has no lifetime of its own, whatever its records say. */
  lemma OtherTypeExample(m: Msg)
    ensures BreaksClamp(HOUR_BOUNDS, m.(answer := [EXAMPLE_RR], ns := [], extra := []), ServerError, 7200 * SECOND, 0)
  {
    OneRecord(m.(answer := [EXAMPLE_RR], ns := [], extra := []), EXAMPLE_RR);
  }

  lemma OneRecord(m: Msg, rr: RR)
    requires !rr.rdata.Opt? && m.answer + m.ns + m.extra == [rr]
    ensures Records(m) == [rr] && IsRecordTTL(m, rr.ttl * SECOND)
  {
    assert rr in Records(m);
  }

  // ---- writing TTLs back ----

  /** Every record's TTL set; OPT records are spared when `keepOpt`, as their TTL field holds flags. */
  function SetTTLs(rrs: seq<RR>, ttl: uint32, keepOpt: bool): (r: seq<RR>)
    ensures |r| == |rrs|
    ensures forall i | 0 <= i < |rrs| :: r[i] == if keepOpt && rrs[i].rdata.Opt? then rrs[i] else rrs[i].(ttl := ttl)
  {
    seq(|rrs|, i requires 0 <= i < |rrs| => if keepOpt && rrs[i].rdata.Opt? then rrs[i] else rrs[i].(ttl := ttl))
  }

  function WithTTL(m: Msg, ttl: uint32): Msg {
    m.(answer := SetTTLs(m.answer, ttl, false), ns := SetTTLs(m.ns, ttl, false), extra := SetTTLs(m.extra, ttl, true))
  }

  /** ttl.go:51-63. */
  method SetMsgTTL(m: Message, ttl: uint32)
    modifies m`answer, m`ns, m`extra
    ensures m.View() == WithTTL(old(m.View()), ttl)
  {
    for i := 0 to |m.answer|
      invariant |m.answer| == |old(m.answer)| && m.ns == old(m.ns) && m.extra == old(m.extra)
      invariant forall j | 0 <= j < i :: m.answer[j] == old(m.answer)[j].(ttl := ttl)
      invariant forall j | i <= j < |m.answer| :: m.answer[j] == old(m.answer)[j]
    {
      m.answer := m.answer[i := m.answer[i].(ttl := ttl)];
    }
    assert m.answer == SetTTLs(old(m.answer), ttl, false);
    for i := 0 to |m.ns|
      invariant m.answer == SetTTLs(old(m.answer), ttl, false)
      invariant |m.ns| == |old(m.ns)| && m.extra == old(m.extra)
      invariant forall j | 0 <= j < i :: m.ns[j] == old(m.ns)[j].(ttl := ttl)
      invariant forall j | i <= j < |m.ns| :: m.ns[j] == old(m.ns)[j]
    {
      m.ns := m.ns[i := m.ns[i].(ttl := ttl)];
    }
    assert m.ns == SetTTLs(old(m.ns), ttl, false);
    for i := 0 to |m.extra|
      invariant m.answer == SetTTLs(old(m.answer), ttl, false) && m.ns == SetTTLs(old(m.ns), ttl, false)
      invariant |m.extra| == |old(m.extra)|
      invariant forall j | 0 <= j < i :: m.extra[j] == SetTTLs(old(m.extra), ttl, true)[j]
      invariant forall j | i <= j < |m.extra| :: m.extra[j] == old(m.extra)[j]
    {
      if m.extra[i].Type() != TYPE_OPT {
        m.extra := m.extra[i := m.extra[i].(ttl := ttl)];
      }
    }
    assert m.extra == SetTTLs(old(m.extra), ttl, true);
  }

  /** Setting TTLs never touches the OPT record in force, so the DO bit survives it. */
  lemma {:induction false} EdnsSurvives(extra: seq<RR>, ttl: uint32)
    ensures Edns(SetTTLs(extra, ttl, true)) == Edns(extra)
  {
    if extra != [] {
      var n := |extra| - 1;
      EdnsSurvives(extra[..n], ttl);
      assert SetTTLs(extra, ttl, true)[..n] == SetTTLs(extra[..n], ttl, true);
    }
  }

  /** The last setting wins. */
  lemma SetTTLsTwice(rrs: seq<RR>, a: uint32, b: uint32, keepOpt: bool)
    ensures SetTTLs(SetTTLs(rrs, a, keepOpt), b, keepOpt) == SetTTLs(rrs, b, keepOpt)
  {
    forall i | 0 <= i < |rrs|
      ensures SetTTLs(SetTTLs(rrs, a, keepOpt), b, keepOpt)[i] == SetTTLs(rrs, b, keepOpt)[i]
    {
      assert SetTTLs(rrs, a, keepOpt)[i].rdata == rrs[i].rdata;
    }
  }
}
