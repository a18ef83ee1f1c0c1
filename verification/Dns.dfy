/**
DNS messages as the plugin sees them: values of the message library's structs.

A record's Go type and its type number always agree in a message the library
unpacked, so the type number is derived from the record data here. Names are
ASCII, as the library escapes every other octet.
*/
module Dns {
  import opened Wrappers

  type byte = b: int | 0 <= b < 0x100
  type ascii = c: byte | c < 0x80
  type uint16 = n: int | 0 <= n < 0x1_0000
  type uint32 = n: int | 0 <= n < 0x1_0000_0000
  type uint64 = n: int | 0 <= n < 0x1_0000_0000_0000_0000

  type Name = seq<ascii>

  const TYPE_CNAME: uint16 := 5
  const TYPE_SOA: uint16 := 6
  const TYPE_OPT: uint16 := 41
  const TYPE_ANY: uint16 := 255
  const OPCODE_QUERY: uint16 := 0
  const RCODE_SUCCESS: uint16 := 0

  /** The type numbers of all records without a meaning of their own here. */
  type OtherType = t: uint16 | t != TYPE_CNAME && t != TYPE_SOA && t != TYPE_OPT

  datatype RData =
    | CName(target: Name)
    | Soa(minttl: uint32, soaData: seq<byte>)
    | Opt(options: seq<byte>)
    | Other(rtype: OtherType, data: seq<byte>)

  datatype RR = RR(name: Name, rclass: uint16, ttl: uint32, rdata: RData) {
    function Type(): uint16 {
      match rdata
      case CName(_) => TYPE_CNAME
      case Soa(_, _) => TYPE_SOA
      case Opt(_) => TYPE_OPT
      case Other(t, _) => t
    }
  }

  datatype Question = Question(name: Name, qtype: uint16, qclass: uint16)

  datatype Msg = Msg(
    id: uint16,
    response: bool,
    opcode: uint16,
    authoritative: bool,
    truncated: bool,
    recursionDesired: bool,
    recursionAvailable: bool,
    authenticatedData: bool,
    checkingDisabled: bool,
    rcode: uint16,
    question: seq<Question>,
    answer: seq<RR>,
    ns: seq<RR>,
    extra: seq<RR>)

  /** CoreDNS's classification of a reply. */
  datatype ResponseType =
    NoError | NameError | ServerError | NoData | Delegation | Meta | Update | OtherError

  // ---- letter case ----

  function FoldChar(c: ascii): (r: ascii) {
    if 65 <= c <= 90 then c + 32 else c
  }

  /** The name in lower case; two ASCII names are equal up to case when their folds are equal. */
  function Fold(n: Name): (r: Name)
    ensures |r| == |n|
    ensures forall i | 0 <= i < |n| :: r[i] == FoldChar(n[i])
  {
    seq(|n|, i requires 0 <= i < |n| => FoldChar(n[i]))
  }

  predicate UpperCase(c: ascii) {
    65 <= c <= 90
  }

  /** The same character, or the capital and the small form of one letter. */
  predicate SameLetter(c: ascii, d: ascii) {
    c == d || (UpperCase(c) && d == c + 32) || (UpperCase(d) && c == d + 32)
  }

  /** Two spellings of one name. */
  ghost predicate SameName(a: Name, b: Name) {
    |a| == |b| && forall i | 0 <= i < |a| :: SameLetter(a[i], b[i])
  }

  /** Folding identifies exactly the two forms of each letter, and leaves no capital. */
  lemma FoldCharExactly(c: ascii, d: ascii)
    ensures FoldChar(c) == FoldChar(d) <==> SameLetter(c, d)
    ensures SameLetter(c, FoldChar(c)) && !UpperCase(FoldChar(c))
  {
  }

  lemma FoldExactly(a: Name, b: Name)
    ensures Fold(a) == Fold(b) <==> SameName(a, b)
  {
    forall i | 0 <= i < |a| && i < |b| ensures Fold(a)[i] == Fold(b)[i] <==> SameLetter(a[i], b[i]) {
      FoldCharExactly(a[i], b[i]);
    }
    if SameName(a, b) {
      assert Fold(a) == Fold(b);
    }
    if Fold(a) == Fold(b) {
      assert forall i | 0 <= i < |a| :: Fold(a)[i] == Fold(b)[i];
    }
  }

  lemma FoldIdempotent(n: Name)
    ensures Fold(Fold(n)) == Fold(n)
  {
    assert forall i | 0 <= i < |n| :: Fold(Fold(n))[i] == Fold(n)[i];
  }

  // ---- EDNS ----

  /** The DO bit of an OPT record is bit 15 of its TTL field. */
  predicate DoBit(ttl: uint32) {
    (ttl / 0x8000) % 2 == 1
  }

  /** The OPT record in force is the last one of the additional section. */
  function Edns(extra: seq<RR>): (r: Option<RR>)
    ensures r.Some? ==> r.value in extra && r.value.rdata.Opt?
    ensures r.None? <==> forall rr | rr in extra :: !rr.rdata.Opt?
  {
    if extra == [] then None
    else if extra[|extra| - 1].rdata.Opt? then Some(extra[|extra| - 1])
    else
      assert extra == extra[..|extra| - 1] + [extra[|extra| - 1]];
      Edns(extra[..|extra| - 1])
  }

  /** Where the OPT record in force stands: no other comes after it. */
  lemma {:induction false} EdnsIsLast(extra: seq<RR>, i: nat)
    requires i < |extra| && extra[i].rdata.Opt? && forall j | i < j < |extra| :: !extra[j].rdata.Opt?
    ensures Edns(extra) == Some(extra[i])
  {
    var n := |extra| - 1;
    if i < n {
      EdnsIsLast(extra[..n], i);
    }
  }

  /** The layout of section 6.1.3 of RFC 6891: extended result and version, the DO bit, and the rest. */
  lemma DoBitExactly(high: nat, dnssec: bool, rest: nat)
    requires high < 0x1_0000 && rest < 0x8000
    ensures DoBit(0x1_0000 * high + (if dnssec then 0x8000 else 0) + rest) <==> dnssec
  {
    var ttl := 0x1_0000 * high + (if dnssec then 0x8000 else 0) + rest;
    assert ttl / 0x8000 == 2 * high + if dnssec then 1 else 0;
  }

  /** Whether a message asks for, or carries, DNSSEC records. */
  predicate MsgDo(m: Msg) {
    Edns(m.extra).Some? && DoBit(Edns(m.extra).value.ttl)
  }
}
