/**
What every field of an accepted configuration holds, in terms of the directives alone
(setup.go:93-592), and which directives are accepted.
*/
module Fields {
  import opened Wrappers
  import opened Dns
  import opened Ttl
  import opened Setup
  import opened DirectiveOrder
  import opened Topology

  // ---- one directive ----

  /** A positive cap, and a floor, if given, between zero and the cap. */
  ghost predicate GoodTTLs(ttls: seq<TtlText>) {
    && ttls != []
    && exists cap :: ReadsAs(ttls[0], cap) && cap > 0 && (|ttls| == 1 || GoodFloor(ttls[1], cap))
  }

  ghost predicate GoodFloor(t: TtlText, cap: Duration) {
    exists floor :: ReadsAs(t, floor) && 0 <= floor <= cap
  }

  ghost predicate GoodLine(r: Retry) {
    match r
    case RetryMax(n) => exists k: nat :: n == Some(k)
    case MinBackoff(d) => exists k: nat :: d == Some(k)
    case MaxBackoff(d) => exists k: nat :: d == Some(k)
    case OtherRetry => false
  }

  ghost predicate GoodDirective(d: Directive) {
    match d
    case Success(ttls) => GoodTTLs(ttls)
    case Denial(ttls) => GoodTTLs(ttls)
    case Endpoint(addrs) => addrs != [] && addrs[0] != None
    case ReadEndpoint(addrs) => addrs != [] && None !in addrs
    case Sentinel(_, addrs) => addrs != [] && None !in addrs
    case Cluster(addrs) => addrs != [] && None !in addrs
    case ReadFrom(s) => s in {"latency", "random", "primary"}
    case SentinelUsername(_) => true
    case SentinelPassword(_) => true
    case Db(n) => exists k: nat :: n == Some(k)
    case Retries(block) => forall i | 0 <= i < |block| :: GoodLine(block[i])
    case KeyPrefix(_) => true
    case KeyHashSeed(n) => n != None
    case Unknown => false
  }

  lemma GoodTTLsExactly(ttls: seq<TtlText>)
    ensures ValidTTLs(ttls) <==> GoodTTLs(ttls)
  {
    forall t, d ensures ParseTTL(t) == Some(d) <==> ReadsAs(t, d) {
      TTLExactly(t, d);
    }
    if ValidTTLs(ttls) {
      assert ReadsAs(ttls[0], ParseTTL(ttls[0]).value);
      if |ttls| > 1 {
        assert ReadsAs(ttls[1], ParseTTL(ttls[1]).value);
      }
    }
  }

  lemma GoodLinesExactly(block: seq<Retry>)
    ensures (forall r | r in block :: ValidRetry(r)) <==> forall i | 0 <= i < |block| :: GoodLine(block[i])
  {
    forall i | 0 <= i < |block| ensures ValidRetry(block[i]) <==> GoodLine(block[i]) {
      GoodLineExactly(block[i]);
    }
  }

  lemma GoodLineExactly(r: Retry)
    ensures ValidRetry(r) <==> GoodLine(r)
  {
    if ValidRetry(r) {
      var k: nat := if r.RetryMax? then r.n.value else r.d.value;
      assert (if r.RetryMax? then r.n else r.d) == Some(k);
    }
  }

  /** Exactly which directives are accepted on their own. */
  lemma DirectiveExactly(d: Directive)
    ensures ValidDirective(d) <==> GoodDirective(d)
  {
    match d
    case Success(ttls) => GoodTTLsExactly(ttls);
    case Denial(ttls) => GoodTTLsExactly(ttls);
    case Db(n) =>
      if n.Some? && n.value >= 0 {
        var k: nat := n.value;
        assert n == Some(k);
      }
    case Retries(block) => GoodLinesExactly(block);
    case _ =>
  }

  // ---- the write endpoint, the keys and the read strategy ----

  /** `s` without one trailing colon. */
  predicate Trims(s: string, p: string) {
    s == p + ":" || (s == p && (s == "" || s[|s| - 1] != ':'))
  }

  ghost predicate ReflectsAddr(c: Config, ds: seq<Directive>)
    requires AllValid(ds)
  {
    match LastOf(ds, EndpointKind)
    case None => c.addr == "127.0.0.1:6379"
    case Some(d) => d.addrs[0] == Some(c.addr)
  }

  ghost predicate ReflectsKeyer(c: Config, ds: seq<Directive>) {
    && (match LastOf(ds, KeyPrefixKind) case None => c.keyer.prefix == "cdrc" case Some(d) => Trims(d.prefix, c.keyer.prefix))
    && (match LastOf(ds, KeyHashSeedKind) case None => c.keyer.seed == 0 case Some(d) => d.seed == Some(c.keyer.seed))
  }

  ghost predicate ReflectsStrategy(c: Config, ds: seq<Directive>) {
    match LastOf(ds, ReadFromKind)
    case None => c.readFrom == ""
    case Some(d) => c.readFrom == d.strategy
  }

  lemma TrimExactly(s: string)
    ensures Trims(s, TrimColon(s))
  {
  }

  lemma PutAddr(c: Config, d: Directive)
    requires ValidDirective(d)
    ensures if d.Endpoint? then d.addrs[0] == Some(Put(c, d).addr) else Put(c, d).addr == c.addr
  {
    if d.Retries? {
      RetriesOwnFields(c, d.block);
    }
  }

  lemma PutKeyer(c: Config, d: Directive)
    requires ValidDirective(d)
    ensures if d.KeyPrefix? then Trims(d.prefix, Put(c, d).keyer.prefix) else Put(c, d).keyer.prefix == c.keyer.prefix
    ensures if d.KeyHashSeed? then d.seed == Some(Put(c, d).keyer.seed) else Put(c, d).keyer.seed == c.keyer.seed
  {
    if d.Retries? {
      RetriesOwnFields(c, d.block);
    } else if d.KeyPrefix? {
      TrimExactly(d.prefix);
    }
  }

  lemma PutReflectsAddr(c: Config, init: seq<Directive>, last: Directive)
    requires AllValid(init) && AllValid(init + [last]) && ValidDirective(last) && ReflectsAddr(c, init)
    ensures ReflectsAddr(Put(c, last), init + [last])
  {
    PutAddr(c, last);
    LastOfAppend(init, last, EndpointKind);
  }

  lemma PutReflectsKeyer(c: Config, init: seq<Directive>, last: Directive)
    requires ValidDirective(last) && ReflectsKeyer(c, init)
    ensures ReflectsKeyer(Put(c, last), init + [last])
  {
    PutKeyer(c, last);
    LastOfAppend(init, last, KeyPrefixKind);
    LastOfAppend(init, last, KeyHashSeedKind);
  }

  lemma PutReflectsStrategy(c: Config, init: seq<Directive>, last: Directive)
    requires ValidDirective(last) && ReflectsStrategy(c, init)
    ensures ReflectsStrategy(Put(c, last), init + [last])
  {
    PutLists(c, last);
    LastOfAppend(init, last, ReadFromKind);
  }

  lemma {:induction false} FoldedSingles(ds: seq<Directive>)
    requires AllValid(ds) && Folded(DEFAULTS, ds).Some?
    ensures var c := Folded(DEFAULTS, ds).value; ReflectsAddr(c, ds) && ReflectsKeyer(c, ds) && ReflectsStrategy(c, ds)
  {
    if ds != [] {
      var init, last := ds[..|ds| - 1], ds[|ds| - 1];
      FoldedSingles(init);
      assert ds == init + [last];
      PutReflectsAddr(Folded(DEFAULTS, init).value, init, last);
      PutReflectsKeyer(Folded(DEFAULTS, init).value, init, last);
      PutReflectsStrategy(Folded(DEFAULTS, init).value, init, last);
    }
  }

  // ---- the address lists ----

  predicate ListKind(kind: Kind) {
    kind == ReadEndpointKind || kind == SentinelKind || kind == ClusterKind
  }

  function ListOf(c: Config, kind: Kind): seq<string>
    requires ListKind(kind)
  {
    if kind == ReadEndpointKind then c.readEndpoints else if kind == SentinelKind then c.sentinels else c.clusterAddrs
  }

  /** The addresses of all directives of the kind, in their order. */
  function AllAddrs(ds: seq<Directive>, kind: Kind): seq<Addr>
    requires ListKind(kind)
  {
    if ds == [] then []
    else
      var last := ds[|ds| - 1];
      AllAddrs(ds[..|ds| - 1], kind) + (if KindOf(last) == kind then last.addrs else [])
  }

  ghost predicate Lists(list: seq<string>, addrs: seq<Addr>) {
    |list| == |addrs| && forall i | 0 <= i < |addrs| :: addrs[i] == Some(list[i])
  }

  lemma PutAppends(c: Config, d: Directive, kind: Kind)
    requires ValidDirective(d) && ListKind(kind)
    ensures KindOf(d) == kind ==> ValidAddrs(d.addrs) && ListOf(Put(c, d), kind) == ListOf(c, kind) + Values(d.addrs)
    ensures KindOf(d) != kind ==> ListOf(Put(c, d), kind) == ListOf(c, kind)
  {
    if d.Retries? {
      RetriesOwnFields(c, d.block);
    }
  }

  lemma ListsAppend(list: seq<string>, addrs: seq<Addr>, more: seq<Addr>)
    requires Lists(list, addrs) && ValidAddrs(more)
    ensures Lists(list + Values(more), addrs + more)
  {
    forall i | 0 <= i < |more| ensures more[i] == Some(Values(more)[i]) {
      assert more[i] in more;
    }
  }

  lemma {:induction false} FoldedLists(ds: seq<Directive>, kind: Kind)
    requires AllValid(ds) && Folded(DEFAULTS, ds).Some? && ListKind(kind)
    ensures Lists(ListOf(Folded(DEFAULTS, ds).value, kind), AllAddrs(ds, kind))
  {
    if ds != [] {
      var init, last := ds[..|ds| - 1], ds[|ds| - 1];
      FoldedLists(init, kind);
      assert ValidDirective(last);
      var c := Folded(DEFAULTS, init).value;
      PutAppends(c, last, kind);
      if KindOf(last) == kind {
        ListsAppend(ListOf(c, kind), AllAddrs(init, kind), last.addrs);
      } else {
        assert AllAddrs(ds, kind) == AllAddrs(init, kind);
      }
    }
  }

  // ---- all fields ----

  /**
  In an accepted configuration every field is what the directives say, and the default
  where they say nothing. The bounds are in `DirectiveOrder.AcceptedBounds`.
  */
  lemma AcceptedFields(ds: seq<Directive>)
    requires Parsed(ds).Some?
    ensures AllValid(ds) && AllValidRetries(RetryLines(ds))
    ensures var c := Parsed(ds).value;
            && ReflectsAddr(c, ds) && ReflectsKeyer(c, ds) && ReflectsStrategy(c, ds)
            && ReflectsModes(c, ds) && ReflectsValues(c, ds) && ReflectsLogin(c, ds)
            && Lists(c.readEndpoints, AllAddrs(ds, ReadEndpointKind))
            && Lists(c.sentinels, AllAddrs(ds, SentinelKind))
            && Lists(c.clusterAddrs, AllAddrs(ds, ClusterKind))
            && ReflectsRetries(c, RetryLines(ds))
  {
    FoldedValid(DEFAULTS, ds);
    FoldedSingles(ds);
    FoldedReflects(ds);
    FoldedLists(ds, ReadEndpointKind);
    FoldedLists(ds, SentinelKind);
    FoldedLists(ds, ClusterKind);
    FoldedRetries(ds);
    RetriesReflect(RetryLines(ds));
  }

  /** The bounds of an accepted configuration, as durations the last directives of each kind give. */
  lemma AcceptedBoundsRead(ds: seq<Directive>, kind: Kind)
    requires Parsed(ds).Some? && BoundsKind(kind)
    ensures AllValid(ds)
    ensures BoundsOf(Parsed(ds).value, kind) == Bounds(LastCap(ds, kind), LastFloor(ds, kind))
    ensures Has(ds, kind) ==> ReadsAs(LastOf(ds, kind).value.ttls[0], LastCap(ds, kind))
  {
    FoldedValid(DEFAULTS, ds);
    FoldedBounds(ds, kind);
    if Has(ds, kind) {
      TTLExactly(LastOf(ds, kind).value.ttls[0], LastCap(ds, kind));
    }
  }
}
