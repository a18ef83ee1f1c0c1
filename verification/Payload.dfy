/**
The Redis payload (serialization.go): a four-byte prefix, a flag byte and the packed
message without its OPT records. Values without the prefix are packed messages an
older version stored.

Packing and unpacking belong to the message library and are parameters; what is
assumed of them is `Faithful`.
*/
module Payload {
  import opened Wrappers
  import opened Dns
  import opened Messages
  import opened Ttl

  datatype Codec = Codec(pack: Msg -> Option<seq<byte>>, unpack: seq<byte> -> Option<Msg>)

  /** Unpacking undoes packing, and a packed message starts with the header of section 4.1.1 of RFC 1035. */
  ghost predicate Faithful(c: Codec) {
    forall m :: c.pack(m).Some? ==> c.unpack(c.pack(m).value) == Some(m) && HeaderLayout(c.pack(m).value, m)
  }

  /** Twelve octets at least; the response bit is the top bit of the third. */
  predicate HeaderLayout(wire: seq<byte>, m: Msg) {
    |wire| >= 12 && (wire[2] >= 0x80 <==> m.response)
  }

  /**
  The assumption can be met: for any messages there is a faithful codec that packs them
  all. It numbers the messages by the length of their packed form.
  */
  function NumberedWire(ms: seq<Msg>, i: nat): (r: seq<byte>)
    requires i < |ms|
    ensures |r| == 12 + i && HeaderLayout(r, ms[i])
  {
    [0, 0, if ms[i].response then 0x80 else 0] + seq(9 + i, _ => 0)
  }

  function IndexOf(ms: seq<Msg>, m: Msg): (i: nat)
    requires m in ms
    ensures i < |ms| && ms[i] == m
  {
    if ms[0] == m then 0 else 1 + IndexOf(ms[1..], m)
  }

  function NumberedCodec(ms: seq<Msg>): Codec {
    Codec(
      m => if m in ms then Some(NumberedWire(ms, IndexOf(ms, m))) else None,
      b => if 12 <= |b| < 12 + |ms| then Some(ms[|b| - 12]) else None)
  }

  lemma FaithfulCodecExists(ms: seq<Msg>)
    ensures Faithful(NumberedCodec(ms))
    ensures forall m | m in ms :: NumberedCodec(ms).pack(m).Some?
  {
  }

  const PREFIX: seq<byte> := [0x52, 0x43, 0x44, 0x32]  // "RCD2"
  const FLAG_DO: byte := 1

  /** The records that are not OPT, in their order. */
  function WithoutOPT(rrs: seq<RR>): (r: seq<RR>)
    ensures |r| <= |rrs|
  {
    if rrs == [] then []
    else
      var last := rrs[|rrs| - 1];
      WithoutOPT(rrs[..|rrs| - 1]) + (if last.rdata.Opt? then [] else [last])
  }

  function StripOPT(m: Msg): Msg {
    m.(extra := WithoutOPT(m.extra))
  }

  function Encode(c: Codec, m: Msg): Option<seq<byte>> {
    match c.pack(StripOPT(m))
    case None => None
    case Some(wire) => Some(PREFIX + [if MsgDo(m) then FLAG_DO else 0] + wire)
  }

  function Decode(c: Codec, b: seq<byte>, ttl: uint32): Option<(Msg, bool)> {
    if PREFIX <= b then
      if |b| == |PREFIX| then None
      else
        match c.unpack(b[|PREFIX| + 1..])
        case None => None
        case Some(m) => Some((WithTTL(m, ttl), b[|PREFIX|] % 2 == 1))
    else
      match c.unpack(b)
      case None => None
      case Some(m) => Some((WithTTL(m, ttl), MsgDo(WithTTL(m, ttl))))
  }

  // ---- the code ----

  /** The in-place compaction of serialization.go:46-52: reads run ahead of writes in one backing array. */
  method CompactOPT(a: array<RR>) returns (n: nat)
    modifies a
    ensures n <= a.Length
    ensures a[..n] == WithoutOPT(old(a[..]))
  {
    n := 0;
    for i := 0 to a.Length
      invariant n <= i
      invariant a[..n] == WithoutOPT(old(a[..])[..i])
      invariant a[i..] == old(a[..])[i..]
    {
      assert old(a[..])[..i + 1][..i] == old(a[..])[..i];
      assert a[i] == a[i..][0] == old(a[..])[i];
      if a[i].Type() != TYPE_OPT {
        a[n] := a[i];
        n := n + 1;
      }
    }
    assert old(a[..])[..a.Length] == old(a[..]);
  }

  /** serialization.go:40-54. The message given keeps its records: only the copy is filtered. */
  method MsgWithoutOPT(m: Message) returns (clone: Message)
    ensures fresh(clone) && clone.View() == StripOPT(m.View())
  {
    clone := new Message(m.View());
    if |clone.extra| == 0 {
      return;
    }
    var backing := new RR[|clone.extra|](i requires 0 <= i < |clone.extra| reads clone => clone.extra[i]);
    assert backing[..] == m.extra;
    var n := CompactOPT(backing);
    clone.extra := backing[..n];
  }

  /** serialization.go:23-38. */
  method ToBytes(c: Codec, m: Message) returns (r: Option<seq<byte>>)
    ensures r == Encode(c, m.View())
  {
    var clone := MsgWithoutOPT(m);
    var wire := c.pack(clone.View());
    if wire.None? {
      return None;
    }
    var b := PREFIX;
    var flags: byte := 0;
    var opt := Edns(m.extra);
    if opt.Some? && DoBit(opt.value.ttl) {
      flags := FLAG_DO;
    }
    b := b + [flags];
    b := b + wire.value;
    return Some(b);
  }

  /** serialization.go:60-82. */
  method FromBytes(c: Codec, b: seq<byte>, ttl: uint32) returns (ok: bool, m: Message?, storedDO: bool)
    ensures ok <==> Decode(c, b, ttl).Some?
    ensures ok ==> fresh(m) && (m.View(), storedDO) == Decode(c, b, ttl).value
    ensures !ok ==> m == null && !storedDO
  {
    var hasMetaPrefix := PREFIX <= b;
    storedDO := false;
    var rest := b;
    if hasMetaPrefix {
      if |b| == |PREFIX| {
        return false, null, false;
      }
      storedDO := b[|PREFIX|] % 2 == 1;
      rest := b[|PREFIX| + 1..];
    }
    var unpacked := c.unpack(rest);
    if unpacked.None? {
      return false, null, false;
    }
    m := new Message(unpacked.value);
    SetMsgTTL(m, ttl);
    if !hasMetaPrefix {
      var opt := Edns(m.extra);
      if opt.Some? {
        storedDO := DoBit(opt.value.ttl);
      }
    }
    return true, m, storedDO;
  }

  // ---- the filter ----

  lemma MultisetSnoc(s: seq<RR>, x: RR)
    ensures multiset(s + [x]) == multiset(s) + multiset{x}
  {
  }

  /** The filter drops the OPT records, and keeps every other record as often as it occurs. */
  lemma {:induction false} WithoutOPTFilters(rrs: seq<RR>, x: RR)
    ensures multiset(WithoutOPT(rrs))[x] == if x.rdata.Opt? then 0 else multiset(rrs)[x]
  {
    if rrs != [] {
      var init, last := rrs[..|rrs| - 1], rrs[|rrs| - 1];
      WithoutOPTFilters(init, x);
      MultisetSnoc(init, last);
      assert rrs == init + [last];
      if last.rdata.Opt? {
        assert WithoutOPT(rrs) == WithoutOPT(init);
      } else {
        MultisetSnoc(WithoutOPT(init), last);
      }
    }
  }

  /** `at` lists places in strictly increasing order. */
  ghost predicate Increasing(at: seq<nat>) {
    forall i, j | 0 <= i < j < |at| :: at[i] < at[j]
  }

  /** The places of the records that are not OPT. */
  ghost function Places(rrs: seq<RR>): (at: seq<nat>)
    ensures forall k | k in at :: k < |rrs|
  {
    if rrs == [] then []
    else
      var n := |rrs| - 1;
      Places(rrs[..n]) + if rrs[n].rdata.Opt? then [] else [n]
  }

  lemma {:induction false} PlacesIncrease(rrs: seq<RR>)
    ensures Increasing(Places(rrs))
  {
    if rrs != [] {
      var before := Places(rrs[..|rrs| - 1]);
      PlacesIncrease(rrs[..|rrs| - 1]);
      assert forall j | 0 <= j < |before| :: before[j] in before;
    }
  }

  lemma {:induction false} PlacesExact(rrs: seq<RR>, k: nat)
    requires k < |rrs|
    ensures k in Places(rrs) <==> !rrs[k].rdata.Opt?
  {
    var n := |rrs| - 1;
    if k < n {
      PlacesExact(rrs[..n], k);
    } else {
      assert n !in Places(rrs[..n]);
    }
  }

  lemma {:induction false} PlacesKept(rrs: seq<RR>, j: nat)
    ensures |Places(rrs)| == |WithoutOPT(rrs)|
    ensures j < |Places(rrs)| ==> Places(rrs)[j] < |rrs| && rrs[Places(rrs)[j]] == WithoutOPT(rrs)[j]
  {
    if rrs != [] {
      PlacesKept(rrs[..|rrs| - 1], j);
    }
  }

  /** `at` are places of `rrs`, and `kept` is what stands there. */
  ghost predicate StandsAt(rrs: seq<RR>, at: seq<nat>, kept: seq<RR>) {
    |at| == |kept| && forall j | 0 <= j < |at| :: at[j] < |rrs| && rrs[at[j]] == kept[j]
  }

  /** `at` are exactly the places without an OPT record. */
  ghost predicate AllNonOPT(rrs: seq<RR>, at: seq<nat>) {
    forall k | 0 <= k < |rrs| :: k in at <==> !rrs[k].rdata.Opt?
  }

  lemma KeptStands(rrs: seq<RR>)
    ensures StandsAt(rrs, Places(rrs), WithoutOPT(rrs))
  {
    PlacesKept(rrs, 0);
    forall j | 0 <= j < |Places(rrs)| ensures Places(rrs)[j] < |rrs| && rrs[Places(rrs)[j]] == WithoutOPT(rrs)[j] {
      PlacesKept(rrs, j);
    }
  }

  lemma PlacesAllNonOPT(rrs: seq<RR>)
    ensures AllNonOPT(rrs, Places(rrs))
  {
    forall k | 0 <= k < |rrs| ensures k in Places(rrs) <==> !rrs[k].rdata.Opt? {
      PlacesExact(rrs, k);
    }
  }

  /** The filter respects order: what it keeps stands at strictly increasing places, exactly those without an OPT record. */
  lemma WithoutOPTInOrder(rrs: seq<RR>)
    ensures exists at: seq<nat> :: Increasing(at) && StandsAt(rrs, at, WithoutOPT(rrs)) && AllNonOPT(rrs, at)
  {
    PlacesIncrease(rrs);
    KeptStands(rrs);
    PlacesAllNonOPT(rrs);
  }

  // ---- the layout of a value ----

  /** "RCD2", a flag byte that is 1 for DO, and the packed message without OPT. */
  lemma EncodedLayout(c: Codec, m: Msg)
    ensures Encode(c, m).Some? <==> c.pack(StripOPT(m)).Some?
    ensures Encode(c, m).Some? ==>
              Encode(c, m).value == [82, 67, 68, 50, if MsgDo(m) then 1 else 0] + c.pack(StripOPT(m)).value
  {
    if Encode(c, m).Some? {
      var head: seq<byte> := [82, 67, 68, 50, if MsgDo(m) then 1 else 0];
      assert PREFIX + [if MsgDo(m) then FLAG_DO else 0] == head;
    }
  }

  /** A value with the prefix: the low bit of the flag byte is the DO bit, the rest is unpacked. */
  lemma PrefixedDecoded(c: Codec, flags: byte, wire: seq<byte>, ttl: uint32)
    ensures var d := Decode(c, [82, 67, 68, 50, flags] + wire, ttl);
            && (d.Some? <==> c.unpack(wire).Some?)
            && (d.Some? ==> d.value == (WithTTL(c.unpack(wire).value, ttl), flags % 2 == 1))
    ensures Decode(c, [82, 67, 68, 50], ttl).None?
  {
    var b: seq<byte> := [82, 67, 68, 50, flags] + wire;
    assert b[..4] == PREFIX && b[5..] == wire;
  }

  /** A value without the prefix is unpacked as a whole, and its own OPT record has the DO bit. */
  lemma BareDecoded(c: Codec, b: seq<byte>, ttl: uint32)
    requires !([82, 67, 68, 50] <= b)
    ensures var d := Decode(c, b, ttl);
            && (d.Some? <==> c.unpack(b).Some?)
            && (d.Some? ==> d.value == (WithTTL(c.unpack(b).value, ttl), MsgDo(c.unpack(b).value)))
  {
    if c.unpack(b).Some? {
      EdnsSurvives(c.unpack(b).value.extra, ttl);
    }
  }

  // ---- round trips ----

  /** What was stored is the reply without OPT, with every TTL replaced, and the reply's own DO bit. */
  lemma RoundTrip(c: Codec, m: Msg, ttl: uint32)
    requires Faithful(c) && Encode(c, m).Some?
    ensures Decode(c, Encode(c, m).value, ttl) == Some((WithTTL(StripOPT(m), ttl), MsgDo(m)))
    ensures |Encode(c, m).value| > |PREFIX|
  {
    var wire := c.pack(StripOPT(m)).value;
    var b := Encode(c, m).value;
    assert b[|PREFIX|] == if MsgDo(m) then FLAG_DO else 0;
    assert b[|PREFIX| + 1..] == wire;
    assert b[..|PREFIX|] == PREFIX;
  }

  /** A packed response never starts with the prefix, so a value of an older version is read as what it is. */
  lemma LegacyResponse(c: Codec, m: Msg, ttl: uint32)
    requires Faithful(c) && c.pack(m).Some? && m.response
    ensures !(PREFIX <= c.pack(m).value)
    ensures Decode(c, c.pack(m).value, ttl) == Some((WithTTL(m, ttl), MsgDo(m)))
  {
    assert PREFIX[2] == 0x44;
    EdnsSurvives(m.extra, ttl);
  }

  /** A decoded message has the TTL asked for on every record but OPT records of the additional section. */
  lemma DecodedTTL(c: Codec, b: seq<byte>, ttl: uint32)
    requires Decode(c, b, ttl).Some?
    ensures var m := Decode(c, b, ttl).value.0;
            && (forall rr | rr in m.answer + m.ns :: rr.ttl == ttl)
            && (forall rr | rr in m.extra && !rr.rdata.Opt? :: rr.ttl == ttl)
  {
    var m := Decode(c, b, ttl).value.0;
    var u := if PREFIX <= b then c.unpack(b[|PREFIX| + 1..]).value else c.unpack(b).value;
    assert m == WithTTL(u, ttl);
    assert forall i | 0 <= i < |u.extra| :: !m.extra[i].rdata.Opt? ==> m.extra[i].ttl == ttl;
  }
}
