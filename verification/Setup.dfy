/**
The configuration block (setup.go:93-592): a fold over the directives, then the checks
across directives. Directives come as tokens: an address has been normalised (or could
not be), a number has been read (or could not be).
*/
module Setup {
  import opened Wrappers
  import opened Dns
  import opened Ttl
  import opened Keys

  // ---- TTLs ----

  const TWO_63 := 0x8000_0000_0000_0000
  const TWO_64 := 0x1_0000_0000_0000_0000
  const TWO_55 := 0x80_0000_0000_0000
  const MAX_SECONDS := 9_223_372_036

  type int64 = n: int | -TWO_63 <= n < TWO_63

  /** A TTL argument: a Go duration in nanoseconds, a bare integer, or neither. */
  datatype TtlText = GoDuration(ns: int64) | Bare(n: int64) | Malformed

  /** The 64-bit value of an integer that may have overflowed. */
  function Wrap64(x: int): int64 {
    (x + TWO_63) % TWO_64 - TWO_63
  }

  /** setup.go:579-592. The product of a bare integer and a second is a 64-bit product. */
  function ParseTTL(t: TtlText): Option<Duration> {
    match t
    case Malformed => None
    case GoDuration(ns) => if ns % SECOND == 0 then Some(ns) else None
    case Bare(n) => var d := Wrap64(n * SECOND); if d % SECOND == 0 then Some(d) else None
  }

  lemma WrapQuotient(x: int) returns (k: int)
    ensures x == Wrap64(x) + k * TWO_64
  {
    k := (x + TWO_63) / TWO_64;
  }

  lemma WrapUnique(x: int, y: int64, k: int)
    requires x == y + k * TWO_64
    ensures Wrap64(x) == y
  {
    assert (x + TWO_63) / TWO_64 == k;
  }

  const FIVE_9 := 1_953_125

  /** 5^9 has an inverse modulo 2^55. */
  lemma OddFactor(a: int, k: int) returns (j: int)
    requires a * FIVE_9 == k * TWO_55
    ensures a == j * TWO_55
  {
    var inv, co := 20_211_507_185_753_197, 1_095_668;
    assert inv * FIVE_9 == 1 + co * TWO_55;
    calc {
      a;
      a * (inv * FIVE_9 - co * TWO_55);
      inv * (a * FIVE_9) - a * co * TWO_55;
      inv * (k * TWO_55) - a * co * TWO_55;
      (inv * k - a * co) * TWO_55;
    }
    j := inv * k - a * co;
  }

  /** The seconds a bare integer stands for: the same number, up to a multiple of 2^55. */
  ghost predicate StandsFor(n: int64, s: int) {
    -MAX_SECONDS <= s <= MAX_SECONDS && exists j: int :: n == s + j * TWO_55
  }

  lemma BareAccepted(n: int64)
    requires ParseTTL(Bare(n)).Some?
    ensures StandsFor(n, ParseTTL(Bare(n)).value / SECOND)
    ensures ParseTTL(Bare(n)).value % SECOND == 0
  {
    var d := Wrap64(n * SECOND);
    var k := WrapQuotient(n * SECOND);
    var s := d / SECOND;
    assert d == s * SECOND;
    assert (n - s) * FIVE_9 == k * TWO_55;
    var j := OddFactor(n - s, k);
    assert n == s + j * TWO_55;
  }

  lemma BareRead(n: int64, s: int)
    requires StandsFor(n, s)
    ensures ParseTTL(Bare(n)) == Some(s * SECOND)
  {
    var j: int :| n == s + j * TWO_55;
    assert n * SECOND == s * SECOND + (j * FIVE_9) * TWO_64;
    WrapUnique(n * SECOND, s * SECOND, j * FIVE_9);
  }

  /** Exactly which bare integers are accepted, and as what. */
  lemma BareTTL(n: int64, d: Duration)
    ensures ParseTTL(Bare(n)) == Some(d) <==> exists s :: StandsFor(n, s) && d == s * SECOND
  {
    if ParseTTL(Bare(n)) == Some(d) {
      BareAccepted(n);
      assert d == (d / SECOND) * SECOND;
    }
    forall s | StandsFor(n, s) ensures ParseTTL(Bare(n)) == Some(s * SECOND) {
      BareRead(n, s);
    }
  }

  /** A bare integer is read as that many seconds if and only if the product does not overflow. */
  lemma BareTTLFaithful(n: int64)
    ensures ParseTTL(Bare(n)) == Some(n * SECOND) <==> -MAX_SECONDS <= n <= MAX_SECONDS
  {
    if -MAX_SECONDS <= n <= MAX_SECONDS {
      assert n == n + 0 * TWO_55;
      BareRead(n, n);
    }
  }

  /** An overflowing integer can be accepted as another TTL. */
  lemma BareTTLExample()
    ensures ParseTTL(Bare(TWO_55 + 30)) == Some(30 * SECOND)
  {
    assert TWO_55 + 30 == 30 + 1 * TWO_55;
    BareRead(TWO_55 + 30, 30);
  }

  /** The TTLs a text stands for, in nanoseconds: whole seconds, written as a duration or as a bare integer. */
  ghost predicate ReadsAs(t: TtlText, d: Duration) {
    match t
    case Malformed => false
    case GoDuration(ns) => d == ns && exists s: int :: ns == s * 1_000_000_000
    case Bare(n) => exists s :: StandsFor(n, s) && d == s * 1_000_000_000
  }

  lemma TTLExactly(t: TtlText, d: Duration)
    ensures ParseTTL(t) == Some(d) <==> ReadsAs(t, d)
  {
    match t
    case Malformed =>
    case GoDuration(ns) =>
      assert ns % SECOND == 0 ==> ns == (ns / SECOND) * 1_000_000_000;
    case Bare(n) => BareTTL(n, d);
  }

  // ---- directives ----

  /** A normalised address, or none for one that is malformed. */
  type Addr = Option<string>

  datatype Retry = RetryMax(n: Option<int>) | MinBackoff(d: Option<int>) | MaxBackoff(d: Option<int>) | OtherRetry

  datatype Directive =
    | Success(ttls: seq<TtlText>)
    | Denial(ttls: seq<TtlText>)
    | Endpoint(addrs: seq<Addr>)
    | ReadEndpoint(addrs: seq<Addr>)
    | Sentinel(master: string, addrs: seq<Addr>)
    | Cluster(addrs: seq<Addr>)
    | ReadFrom(strategy: string)
    | SentinelUsername(name: string)
    | SentinelPassword(password: string)
    | Db(index: Option<int>)
    | Retries(block: seq<Retry>)
    | KeyPrefix(prefix: string)
    | KeyHashSeed(seed: Option<uint64>)
    | Unknown

  datatype Config = Config(
    success: Bounds,
    denial: Bounds,
    addr: string,
    endpointSet: bool,
    readEndpoints: seq<string>,
    masterName: string,
    sentinels: seq<string>,
    clusterAddrs: seq<string>,
    readFrom: string,
    sentinelUsername: string,
    sentinelPassword: string,
    db: int,
    maxRetries: int,
    minBackoff: int,
    maxBackoff: int,
    keyer: Keyer)

  /** redis_cache.go:133-149. */
  const DEFAULTS :=
    Config(Bounds(MAX_TTL, 0), Bounds(MAX_NTTL, 0), "127.0.0.1:6379", false, [], "", [], [], "", "", "", 0, 1, 0, 0,
           Keyer("cdrc", 0))

  predicate ValidTTLs(ttls: seq<TtlText>) {
    && |ttls| >= 1 && ParseTTL(ttls[0]).Some? && ParseTTL(ttls[0]).value > 0
    && (|ttls| > 1 ==> ParseTTL(ttls[1]).Some? && 0 <= ParseTTL(ttls[1]).value <= ParseTTL(ttls[0]).value)
  }

  /** A missing floor leaves the floor as it was. */
  function PutTTLs(b: Bounds, ttls: seq<TtlText>): Bounds
    requires ValidTTLs(ttls)
  {
    Bounds(ParseTTL(ttls[0]).value, if |ttls| > 1 then ParseTTL(ttls[1]).value else b.floor)
  }

  predicate ValidAddrs(addrs: seq<Addr>) {
    |addrs| >= 1 && forall a | a in addrs :: a.Some?
  }

  function Values(addrs: seq<Addr>): (r: seq<string>)
    requires ValidAddrs(addrs)
  {
    seq(|addrs|, i requires 0 <= i < |addrs| => assert addrs[i] in addrs; addrs[i].value)
  }

  predicate ValidRetry(r: Retry) {
    match r
    case RetryMax(n) => n.Some? && n.value >= 0
    case MinBackoff(d) => d.Some? && d.value >= 0
    case MaxBackoff(d) => d.Some? && d.value >= 0
    case OtherRetry => false
  }

  /** No retries is written 0 and passed on as -1. */
  function PutRetries(c: Config, block: seq<Retry>): Config
    requires forall r | r in block :: ValidRetry(r)
  {
    if block == [] then c
    else
      var c := PutRetries(c, block[..|block| - 1]);
      var last := block[|block| - 1];
      assert last in block && ValidRetry(last);
      match last
      case RetryMax(n) => c.(maxRetries := if n.value == 0 then -1 else n.value)
      case MinBackoff(d) => c.(minBackoff := d.value)
      case MaxBackoff(d) => c.(maxBackoff := d.value)
  }

  function TrimColon(s: string): string {
    if s != "" && s[|s| - 1] == ':' then s[..|s| - 1] else s
  }

  /** Whether a directive is accepted on its own; that never depends on the others. */
  predicate ValidDirective(d: Directive) {
    match d
    case Success(ttls) => ValidTTLs(ttls)
    case Denial(ttls) => ValidTTLs(ttls)
    case Endpoint(addrs) => |addrs| >= 1 && addrs[0].Some?
    case ReadEndpoint(addrs) => ValidAddrs(addrs)
    case Sentinel(_, addrs) => ValidAddrs(addrs)
    case Cluster(addrs) => ValidAddrs(addrs)
    case ReadFrom(s) => s == "latency" || s == "random" || s == "primary"
    case SentinelUsername(_) => true
    case SentinelPassword(_) => true
    case Db(n) => n.Some? && n.value >= 0
    case Retries(block) => forall r | r in block :: ValidRetry(r)
    case KeyPrefix(_) => true
    case KeyHashSeed(n) => n.Some?
    case Unknown => false
  }

  function Put(c: Config, d: Directive): Config
    requires ValidDirective(d)
  {
    match d
    case Success(ttls) => c.(success := PutTTLs(c.success, ttls))
    case Denial(ttls) => c.(denial := PutTTLs(c.denial, ttls))
    case Endpoint(addrs) => c.(addr := addrs[0].value, endpointSet := true)
    case ReadEndpoint(addrs) => c.(readEndpoints := c.readEndpoints + Values(addrs))
    case Sentinel(m, addrs) => c.(masterName := m, sentinels := c.sentinels + Values(addrs))
    case Cluster(addrs) => c.(clusterAddrs := c.clusterAddrs + Values(addrs))
    case ReadFrom(s) => c.(readFrom := s)
    case SentinelUsername(s) => c.(sentinelUsername := s)
    case SentinelPassword(s) => c.(sentinelPassword := s)
    case Db(n) => c.(db := n.value)
    case Retries(block) => PutRetries(c, block)
    case KeyPrefix(s) => c.(keyer := c.keyer.(prefix := TrimColon(s)))
    case KeyHashSeed(n) => c.(keyer := c.keyer.(seed := n.value))
  }

  /** setup.go:506-542. */
  predicate Compatible(c: Config) {
    && (if c.clusterAddrs != [] then c.masterName == "" && !c.endpointSet && c.readEndpoints == [] && c.db == 0
        else if c.masterName != "" then !c.endpointSet && c.readEndpoints == []
        else c.sentinelUsername == "" && c.sentinelPassword == "" && c.readFrom == "")
    && !(c.minBackoff > 0 && c.maxBackoff > 0 && c.minBackoff > c.maxBackoff)
  }

  /** The configuration after the directives, if each is accepted. */
  function Folded(c: Config, ds: seq<Directive>): Option<Config> {
    if ds == [] then Some(c)
    else
      match Folded(c, ds[..|ds| - 1])
      case None => None
      case Some(c') => if ValidDirective(ds[|ds| - 1]) then Some(Put(c', ds[|ds| - 1])) else None
  }

  function Parsed(ds: seq<Directive>): Option<Config> {
    match Folded(DEFAULTS, ds)
    case None => None
    case Some(c) => if Compatible(c) then Some(c) else None
  }

  // ---- the code ----

  method ParseAddrs(addrs: seq<Addr>, known: seq<string>) returns (ok: bool, all: seq<string>)
    ensures ok <==> forall a | a in addrs :: a.Some?
    ensures ok && addrs != [] ==> all == known + Values(addrs)
  {
    all := known;
    for i := 0 to |addrs|
      invariant forall j | 0 <= j < i :: addrs[j].Some?
      invariant |all| == |known| + i && all[..|known|] == known
      invariant forall j | 0 <= j < i :: all[|known| + j] == addrs[j].value
    {
      if addrs[i].None? {
        assert addrs[i] in addrs;
        return false, all;
      }
      all := all + [addrs[i].value];
    }
    ok := true;
  }

  /** setup.go:112-137 and 140-165. */
  method ParseBounds(ttls: seq<TtlText>, b: Bounds) returns (r: Option<Bounds>)
    ensures r == if ValidTTLs(ttls) then Some(PutTTLs(b, ttls)) else None
  {
    if |ttls| < 1 {
      return None;
    }
    var cap := ParseTTL(ttls[0]);
    if cap.None? || cap.value <= 0 {
      return None;
    }
    var bounds := b.(cap := cap.value);
    if |ttls| > 1 {
      var floor := ParseTTL(ttls[1]);
      if floor.None? || floor.value < 0 || floor.value > cap.value {
        return None;
      }
      bounds := bounds.(floor := floor.value);
    }
    return Some(bounds);
  }

  /** setup.go:332-377. */
  method ParseRetries(c: Config, block: seq<Retry>) returns (r: Option<Config>)
    ensures r.Some? <==> forall x | x in block :: ValidRetry(x)
    ensures r.Some? ==> r.value == PutRetries(c, block)
  {
    var re := c;
    for i := 0 to |block|
      invariant forall x | x in block[..i] :: ValidRetry(x)
      invariant re == PutRetries(c, block[..i])
    {
      assert block[..i + 1][..i] == block[..i];
      assert block[i] in block;
      match block[i]
      case RetryMax(n) =>
        if n.None? || n.value < 0 {
          return None;
        }
        if n.value == 0 {
          re := re.(maxRetries := -1);
        } else {
          re := re.(maxRetries := n.value);
        }
      case MinBackoff(d) =>
        if d.None? || d.value < 0 {
          return None;
        }
        re := re.(minBackoff := d.value);
      case MaxBackoff(d) =>
        if d.None? || d.value < 0 {
          return None;
        }
        re := re.(maxBackoff := d.value);
      case OtherRetry =>
        return None;
    }
    assert block[..|block|] == block;
    return Some(re);
  }

  /** The switch of setup.go:110-503 on one directive. */
  method ParseDirective(c: Config, d: Directive) returns (r: Option<Config>)
    ensures r == if ValidDirective(d) then Some(Put(c, d)) else None
  {
    var re := c;
    match d {
    case Success(ttls) =>
      var b := ParseBounds(ttls, c.success);
      if b.None? {
        return None;
      }
      re := re.(success := b.value);
    case Denial(ttls) =>
      var b := ParseBounds(ttls, c.denial);
      if b.None? {
        return None;
      }
      re := re.(denial := b.value);
    case Endpoint(addrs) =>
      if |addrs| < 1 || addrs[0].None? {
        return None;
      }
      re := re.(addr := addrs[0].value, endpointSet := true);
    case ReadEndpoint(addrs) =>
      var ok, all := ParseAddrs(addrs, c.readEndpoints);
      if |addrs| < 1 || !ok {
        return None;
      }
      re := re.(readEndpoints := all);
    case Sentinel(m, addrs) =>
      var ok, all := ParseAddrs(addrs, c.sentinels);
      if |addrs| < 1 || !ok {
        return None;
      }
      re := re.(masterName := m, sentinels := all);
    case Cluster(addrs) =>
      var ok, all := ParseAddrs(addrs, c.clusterAddrs);
      if |addrs| < 1 || !ok {
        return None;
      }
      re := re.(clusterAddrs := all);
    case ReadFrom(s) =>
      if s != "latency" && s != "random" && s != "primary" {
        return None;
      }
      re := re.(readFrom := s);
    case SentinelUsername(s) =>
      re := re.(sentinelUsername := s);
    case SentinelPassword(s) =>
      re := re.(sentinelPassword := s);
    case Db(n) =>
      if n.None? || n.value < 0 {
        return None;
      }
      re := re.(db := n.value);
    case Retries(block) =>
      var t := ParseRetries(c, block);
      return t;
    case KeyPrefix(s) =>
      re := re.(keyer := re.keyer.(prefix := TrimColon(s)));
    case KeyHashSeed(n) =>
      if n.None? {
        return None;
      }
      re := re.(keyer := re.keyer.(seed := n.value));
    case Unknown =>
      return None;
    }
    return Some(re);
  }

  /** setup.go:93-559, for one block of directives. */
  method Parse(ds: seq<Directive>) returns (r: Option<Config>)
    ensures r == Parsed(ds)
  {
    var re := DEFAULTS;
    for i := 0 to |ds|
      invariant Folded(DEFAULTS, ds[..i]) == Some(re)
    {
      assert ds[..i + 1][..i] == ds[..i];
      var next := ParseDirective(re, ds[i]);
      if next.None? {
        FoldedFails(DEFAULTS, ds, i + 1);
        return None;
      }
      re := next.value;
    }
    assert ds[..|ds|] == ds;
    if |re.clusterAddrs| > 0 {
      if re.masterName != "" || re.endpointSet || |re.readEndpoints| > 0 || re.db != 0 {
        return None;
      }
    } else if re.masterName != "" {
      if re.endpointSet || |re.readEndpoints| > 0 {
        return None;
      }
    } else {
      if re.sentinelUsername != "" || re.sentinelPassword != "" || re.readFrom != "" {
        return None;
      }
    }
    if re.minBackoff > 0 && re.maxBackoff > 0 && re.minBackoff > re.maxBackoff {
      return None;
    }
    return Some(re);
  }

  lemma {:induction false} FoldedFails(c: Config, ds: seq<Directive>, i: nat)
    requires i <= |ds| && Folded(c, ds[..i]).None?
    ensures Folded(c, ds).None?
    decreases |ds|
  {
    if i < |ds| {
      assert ds[..|ds| - 1][..i] == ds[..i];
      FoldedFails(c, ds[..|ds| - 1], i);
    } else {
      assert ds[..i] == ds;
    }
  }
}
