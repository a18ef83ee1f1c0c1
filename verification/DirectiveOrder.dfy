/**
What the order and the repetition of directives can change. With no directive repeated
the order is immaterial. A repeated `success` or `denial` keeps the earlier floor when it
gives none of its own, and so can put the cap below the floor.
*/
module DirectiveOrder {
  import opened Wrappers
  import opened Ttl
  import opened Setup

  datatype Kind =
    | SuccessKind | DenialKind | EndpointKind | ReadEndpointKind | SentinelKind | ClusterKind | ReadFromKind
    | SentinelUsernameKind | SentinelPasswordKind | DbKind | RetriesKind | KeyPrefixKind | KeyHashSeedKind | UnknownKind

  function KindOf(d: Directive): Kind {
    match d
    case Success(_) => SuccessKind
    case Denial(_) => DenialKind
    case Endpoint(_) => EndpointKind
    case ReadEndpoint(_) => ReadEndpointKind
    case Sentinel(_, _) => SentinelKind
    case Cluster(_) => ClusterKind
    case ReadFrom(_) => ReadFromKind
    case SentinelUsername(_) => SentinelUsernameKind
    case SentinelPassword(_) => SentinelPasswordKind
    case Db(_) => DbKind
    case Retries(_) => RetriesKind
    case KeyPrefix(_) => KeyPrefixKind
    case KeyHashSeed(_) => KeyHashSeedKind
    case Unknown => UnknownKind
  }

  /** The last directive of a kind. */
  function LastOf(ds: seq<Directive>, kind: Kind): (r: Option<Directive>)
    ensures r.Some? ==> r.value in ds && KindOf(r.value) == kind
    ensures r.None? <==> forall d | d in ds :: KindOf(d) != kind
  {
    if ds == [] then None
    else
      var n := |ds| - 1;
      assert ds == ds[..n] + [ds[n]];
      if KindOf(ds[n]) == kind then Some(ds[n]) else LastOf(ds[..n], kind)
  }

  ghost predicate NoneRepeated(ds: seq<Directive>) {
    forall i, j | 0 <= i < j < |ds| :: KindOf(ds[i]) != KindOf(ds[j])
  }

  // ---- order ----

  /** The retries block writes its own three fields and no other. */
  lemma {:induction false} RetriesOwnFields(c: Config, block: seq<Retry>)
    requires forall r | r in block :: ValidRetry(r)
    ensures var p := PutRetries(c, block);
            p == c.(maxRetries := p.maxRetries, minBackoff := p.minBackoff, maxBackoff := p.maxBackoff)
  {
    if block != [] {
      RetriesOwnFields(c, block[..|block| - 1]);
    }
  }

  /** What it writes there does not depend on the other fields. */
  lemma {:induction false} RetriesAlike(c: Config, c': Config, block: seq<Retry>)
    requires forall r | r in block :: ValidRetry(r)
    requires c.maxRetries == c'.maxRetries && c.minBackoff == c'.minBackoff && c.maxBackoff == c'.maxBackoff
    ensures var p, p' := PutRetries(c, block), PutRetries(c', block);
            p.maxRetries == p'.maxRetries && p.minBackoff == p'.minBackoff && p.maxBackoff == p'.maxBackoff
  {
    if block != [] {
      RetriesAlike(c, c', block[..|block| - 1]);
    }
  }

  lemma RetriesCommute(c: Config, d: Directive, e: Directive)
    requires ValidDirective(d) && ValidDirective(e) && d.Retries? && !e.Retries?
    ensures Put(Put(c, d), e) == Put(Put(c, e), d)
  {
    RetriesOwnFields(c, d.block);
    RetriesOwnFields(Put(c, e), d.block);
    RetriesAlike(c, Put(c, e), d.block);
  }

  /** Directives of different kinds write different fields. */
  lemma PutsCommute(c: Config, d: Directive, e: Directive)
    requires ValidDirective(d) && ValidDirective(e) && KindOf(d) != KindOf(e)
    ensures Put(Put(c, d), e) == Put(Put(c, e), d)
  {
    if d.Retries? {
      RetriesCommute(c, d, e);
    } else if e.Retries? {
      RetriesCommute(c, e, d);
    }
  }

  lemma FoldedTwo(c: Config, ds: seq<Directive>, d: Directive, e: Directive)
    requires KindOf(d) != KindOf(e)
    ensures Folded(c, ds + [d, e]) == Folded(c, ds + [e, d])
  {
    assert (ds + [d, e])[..|ds| + 1] == ds + [d] && (ds + [d])[..|ds|] == ds;
    assert (ds + [e, d])[..|ds| + 1] == ds + [e] && (ds + [e])[..|ds|] == ds;
    if Folded(c, ds).Some? && ValidDirective(d) && ValidDirective(e) {
      PutsCommute(Folded(c, ds).value, d, e);
    }
  }

  /** A directive can be moved past directives of other kinds to the end. */
  lemma {:induction false} MoveToEnd(c: Config, a: seq<Directive>, d: Directive, b: seq<Directive>)
    requires forall x | x in b :: KindOf(x) != KindOf(d)
    ensures Folded(c, a + [d] + b) == Folded(c, a + b + [d])
    decreases |b|
  {
    if b == [] {
      assert a + [d] + b == a + b + [d];
    } else {
      var init, last := b[..|b| - 1], b[|b| - 1];
      MoveToEnd(c, a, d, init);
      var l := a + [d] + b;
      assert l[..|l| - 1] == a + [d] + init;
      var m := a + init + [d] + [last];
      assert m[..|m| - 1] == a + init + [d];
      assert Folded(c, l) == Folded(c, m);
      FoldedTwo(c, a + init, d, last);
      assert m == a + init + [d, last] && a + b + [d] == a + init + [last, d];
    }
  }

  lemma PermutedRest(init: seq<Directive>, last: Directive, a: seq<Directive>, b: seq<Directive>)
    requires multiset(init + [last]) == multiset(a + [last] + b)
    ensures multiset(a + b) == multiset(init)
  {
    assert multiset(a + [last] + b) == multiset(a + b) + multiset{last};
    assert multiset(init + [last]) == multiset(init) + multiset{last};
    assert multiset(a + b) == multiset(a + b) + multiset{last} - multiset{last};
    assert multiset(init) == multiset(init) + multiset{last} - multiset{last};
  }

  lemma OtherKinds(init: seq<Directive>, last: Directive, rest: seq<Directive>)
    requires NoneRepeated(init + [last]) && multiset(rest) == multiset(init)
    ensures forall x | x in rest :: KindOf(x) != KindOf(last)
  {
    forall x | x in rest ensures KindOf(x) != KindOf(last) {
      assert x in multiset(rest) && x in multiset(init);
      var j :| 0 <= j < |init| && init[j] == x;
      assert (init + [last])[j] == x && (init + [last])[|init|] == last;
    }
  }

  /** Where the last directive of one order stands in the other. */
  lemma LastFound(init: seq<Directive>, last: Directive, es: seq<Directive>) returns (a: seq<Directive>, b: seq<Directive>)
    requires multiset(init + [last]) == multiset(es) && NoneRepeated(init + [last])
    ensures es == a + [last] + b && multiset(init) == multiset(a + b)
    ensures forall x | x in b :: KindOf(x) != KindOf(last)
  {
    assert last in multiset(init + [last]);
    assert last in es;
    var i :| 0 <= i < |es| && es[i] == last;
    a, b := es[..i], es[i + 1..];
    assert es == a + [last] + b;
    PermutedRest(init, last, a, b);
    OtherKinds(init, last, a + b);
    assert forall x | x in b :: x in a + b;
  }

  /** With no directive repeated, acceptance and configuration do not depend on the order. */
  lemma {:induction false} FoldedAnyOrder(c: Config, ds: seq<Directive>, es: seq<Directive>)
    requires multiset(ds) == multiset(es) && NoneRepeated(ds)
    ensures Folded(c, ds) == Folded(c, es)
    decreases |ds|
  {
    if ds == [] {
      assert |multiset(es)| == |es|;
    } else {
      var init, last := ds[..|ds| - 1], ds[|ds| - 1];
      assert ds == init + [last];
      var a, b := LastFound(init, last, es);
      MoveToEnd(c, a, last, b);
      FoldedAnyOrder(c, init, a + b);
      assert (a + b + [last])[..|a + b|] == a + b;
    }
  }

  lemma ParsedAnyOrder(ds: seq<Directive>, es: seq<Directive>)
    requires multiset(ds) == multiset(es) && NoneRepeated(ds)
    ensures Parsed(ds) == Parsed(es)
  {
    FoldedAnyOrder(DEFAULTS, ds, es);
  }

  // ---- bounds ----

  predicate BoundsKind(kind: Kind) {
    kind == SuccessKind || kind == DenialKind
  }

  function BoundsOf(c: Config, kind: Kind): Bounds
    requires BoundsKind(kind)
  {
    if kind == SuccessKind then c.success else c.denial
  }

  ghost predicate AllValid(ds: seq<Directive>) {
    forall d | d in ds :: ValidDirective(d)
  }

  /** The cap the last directive of the kind gives, or one hour for positive replies and half an hour for denials. */
  ghost function LastCap(ds: seq<Directive>, kind: Kind): Duration
    requires AllValid(ds) && BoundsKind(kind)
  {
    match LastOf(ds, kind)
    case None => (if kind == SuccessKind then 3600 else 1800) * SECOND
    case Some(d) => ParseTTL(d.ttls[0]).value
  }

  /** The floor of the last directive of the kind that gives one, or none. */
  ghost function LastFloor(ds: seq<Directive>, kind: Kind): Duration
    requires AllValid(ds) && BoundsKind(kind)
  {
    if ds == [] then 0
    else
      var last := ds[|ds| - 1];
      assert ValidDirective(last);
      if KindOf(last) == kind && |last.ttls| > 1 then ParseTTL(last.ttls[1]).value else LastFloor(ds[..|ds| - 1], kind)
  }

  lemma ReadTTLsWhole(t: TtlText)
    requires ParseTTL(t).Some?
    ensures ParseTTL(t).value % SECOND == 0
  {
  }

  /** The fold succeeds exactly on valid directives. */
  lemma {:induction false} FoldedValid(c: Config, ds: seq<Directive>)
    ensures Folded(c, ds).Some? <==> AllValid(ds)
  {
    if ds != [] {
      var init, last := ds[..|ds| - 1], ds[|ds| - 1];
      FoldedValid(c, init);
      assert ds == init + [last];
    }
  }

  lemma {:induction false} FoldedBounds(ds: seq<Directive>, kind: Kind)
    requires AllValid(ds) && BoundsKind(kind)
    ensures Folded(DEFAULTS, ds).Some?
    ensures var b := BoundsOf(Folded(DEFAULTS, ds).value, kind);
            b == Bounds(LastCap(ds, kind), LastFloor(ds, kind)) && WellRead(b)
  {
    FoldedValid(DEFAULTS, ds);
    if ds != [] {
      var init, last := ds[..|ds| - 1], ds[|ds| - 1];
      FoldedBounds(init, kind);
      PutKeepsBounds(Folded(DEFAULTS, init).value, last, kind);
    }
  }

  lemma PutKeepsBounds(c: Config, d: Directive, kind: Kind)
    requires ValidDirective(d) && BoundsKind(kind) && WellRead(BoundsOf(c, kind))
    ensures WellRead(BoundsOf(Put(c, d), kind))
    ensures BoundsOf(Put(c, d), kind) == if KindOf(d) == kind then PutTTLs(BoundsOf(c, kind), d.ttls) else BoundsOf(c, kind)
  {
    if BoundsKind(KindOf(d)) {
      ReadTTLsWhole(d.ttls[0]);
      if |d.ttls| > 1 {
        ReadTTLsWhole(d.ttls[1]);
      }
    } else if d.Retries? {
      RetriesOwnFields(c, d.block);
    }
  }

  /**
  Accepted bounds are whole seconds with a positive cap, and in order exactly if the last
  floor given is at most the last cap.
  */
  lemma AcceptedBounds(ds: seq<Directive>, kind: Kind)
    requires Parsed(ds).Some? && BoundsKind(kind)
    ensures AllValid(ds) && WellRead(BoundsOf(Parsed(ds).value, kind))
    ensures ValidBounds(BoundsOf(Parsed(ds).value, kind)) <==> LastFloor(ds, kind) <= LastCap(ds, kind)
  {
    FoldedValid(DEFAULTS, ds);
    FoldedBounds(ds, kind);
  }

  /** A second `success` without floor can lower the cap below the floor of the first. */
  lemma RepeatedSuccessExample()
    ensures var ds := [Success([Bare(3600), Bare(100)]), Success([Bare(50)])];
            Parsed(ds).Some? && !ValidBounds(Parsed(ds).value.success)
  {
    var d, e := Success([Bare(3600), Bare(100)]), Success([Bare(50)]);
    BareTTLFaithful(3600);
    BareTTLFaithful(100);
    BareTTLFaithful(50);
    assert [d, e][..1] == [d] && [d][..0] == [];
    assert Folded(DEFAULTS, [d]) == Some(DEFAULTS.(success := Bounds(3600 * SECOND, 100 * SECOND)));
  }

  /** At most one directive of the kind leaves the bounds in order. */
  lemma {:induction false} FloorInOrder(ds: seq<Directive>, kind: Kind)
    requires AllValid(ds) && BoundsKind(kind) && NoneRepeated(ds)
    ensures LastFloor(ds, kind) <= LastCap(ds, kind)
  {
    if ds != [] {
      var init, last := ds[..|ds| - 1], ds[|ds| - 1];
      assert ValidDirective(last);
      FloorInOrder(init, kind);
      if KindOf(last) == kind {
        assert forall d | d in init :: KindOf(d) != kind;
        NoFloor(init, kind);
      }
    }
  }

  lemma {:induction false} NoFloor(ds: seq<Directive>, kind: Kind)
    requires AllValid(ds) && BoundsKind(kind) && forall d | d in ds :: KindOf(d) != kind
    ensures LastFloor(ds, kind) == 0
  {
    if ds != [] {
      assert ds[|ds| - 1] in ds;
      NoFloor(ds[..|ds| - 1], kind);
    }
  }

  /** With no directive repeated, an accepted configuration has valid bounds. */
  lemma UnrepeatedBounds(ds: seq<Directive>)
    requires Parsed(ds).Some? && NoneRepeated(ds)
    ensures ValidTtlConfig(TtlConfig(Parsed(ds).value.success, Parsed(ds).value.denial))
  {
    AcceptedBounds(ds, SuccessKind);
    AcceptedBounds(ds, DenialKind);
    FloorInOrder(ds, SuccessKind);
    FloorInOrder(ds, DenialKind);
  }
}
