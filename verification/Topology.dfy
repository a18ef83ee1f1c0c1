/**
Which blocks are accepted, in terms of their directives alone (setup.go:506-542), and what
that makes of the documented rules for `endpoint` and `read_from`.
*/
module Topology {
  import opened Wrappers
  import opened Setup
  import opened DirectiveOrder

  predicate Has(ds: seq<Directive>, kind: Kind) {
    LastOf(ds, kind).Some?
  }

  /** The master name or credential that the last directive of the kind gives, empty if there is none. */
  function LastText(ds: seq<Directive>, kind: Kind): string {
    match LastOf(ds, kind)
    case Some(Sentinel(master, _)) => master
    case Some(SentinelUsername(name)) => name
    case Some(SentinelPassword(password)) => password
    case _ => ""
  }

  function Master(ds: seq<Directive>): string {
    LastText(ds, SentinelKind)
  }

  ghost function DbIndex(ds: seq<Directive>): int
    requires AllValid(ds)
  {
    match LastOf(ds, DbKind)
    case None => 0
    case Some(d) => d.index.value
  }

  /** The lines of all `retries` blocks. */
  function RetryLines(ds: seq<Directive>): seq<Retry> {
    if ds == [] then []
    else
      var last := ds[|ds| - 1];
      RetryLines(ds[..|ds| - 1]) + (if last.Retries? then last.block else [])
  }

  ghost predicate AllValidRetries(block: seq<Retry>) {
    forall r | r in block :: ValidRetry(r)
  }

  /** No directive belongs to a topology other than the one that the block chooses. */
  ghost predicate OneTopology(ds: seq<Directive>)
    requires AllValid(ds)
  {
    if Has(ds, ClusterKind) then
      Master(ds) == "" && !Has(ds, EndpointKind) && !Has(ds, ReadEndpointKind) && DbIndex(ds) == 0
    else if Master(ds) != "" then
      !Has(ds, EndpointKind) && !Has(ds, ReadEndpointKind)
    else
      && LastText(ds, SentinelUsernameKind) == "" && LastText(ds, SentinelPasswordKind) == ""
      && !Has(ds, ReadFromKind)
  }

  /** The last line of the same kind as `like`. */
  function LastLine(block: seq<Retry>, like: Retry): (r: Option<Retry>)
    ensures r.Some? ==> r.value in block && SameLine(r.value, like)
  {
    if block == [] then None
    else
      var n := |block| - 1;
      if SameLine(block[n], like) then Some(block[n]) else LastLine(block[..n], like)
  }

  predicate SameLine(a: Retry, b: Retry) {
    (a.RetryMax? && b.RetryMax?) || (a.MinBackoff? && b.MinBackoff?) || (a.MaxBackoff? && b.MaxBackoff?)
  }

  /** The retry fields are what the last lines say: one retry and the library's backoffs unless given, -1 for none. */
  ghost predicate ReflectsRetries(c: Config, block: seq<Retry>)
    requires AllValidRetries(block)
  {
    && c.maxRetries == (match LastLine(block, RetryMax(None))
                        case None => 1
                        case Some(r) => if r.n == Some(0) then -1 else r.n.value)
    && c.minBackoff == (match LastLine(block, MinBackoff(None)) case None => 0 case Some(r) => r.d.value)
    && c.maxBackoff == (match LastLine(block, MaxBackoff(None)) case None => 0 case Some(r) => r.d.value)
  }

  /** The last shortest backoff does not exceed the last longest one, unless one of them is zero or not given. */
  ghost predicate BackoffsInOrder(block: seq<Retry>)
    requires AllValidRetries(block)
  {
    var lo, hi := LastLine(block, MinBackoff(None)), LastLine(block, MaxBackoff(None));
    lo.Some? && hi.Some? && lo.value.d.value > 0 && hi.value.d.value > 0 ==> lo.value.d.value <= hi.value.d.value
  }

  // ---- what the fold leaves in the fields ----

  /** The lists and flags of a configuration are set exactly if the directives are there. */
  ghost predicate ReflectsModes(c: Config, ds: seq<Directive>) {
    && (c.clusterAddrs != [] <==> Has(ds, ClusterKind))
    && (c.endpointSet <==> Has(ds, EndpointKind))
    && (c.readEndpoints != [] <==> Has(ds, ReadEndpointKind))
    && (c.readFrom != "" <==> Has(ds, ReadFromKind))
  }

  /** Master and database are those the last directives give. */
  ghost predicate ReflectsValues(c: Config, ds: seq<Directive>)
    requires AllValid(ds)
  {
    c.masterName == Master(ds) && c.db == DbIndex(ds)
  }

  /** So are the sentinel credentials. */
  ghost predicate ReflectsLogin(c: Config, ds: seq<Directive>) {
    && c.sentinelUsername == LastText(ds, SentinelUsernameKind)
    && c.sentinelPassword == LastText(ds, SentinelPasswordKind)
  }

  /** The last directive of a kind changes only if one more of that kind comes. */
  lemma LastOfAppend(init: seq<Directive>, last: Directive, kind: Kind)
    ensures LastOf(init + [last], kind) == if KindOf(last) == kind then Some(last) else LastOf(init, kind)
  {
    assert (init + [last])[..|init|] == init;
  }

  lemma PutLists(c: Config, d: Directive)
    requires ValidDirective(d)
    ensures Put(c, d).clusterAddrs != [] <==> d.Cluster? || c.clusterAddrs != []
    ensures Put(c, d).endpointSet <==> d.Endpoint? || c.endpointSet
    ensures Put(c, d).readEndpoints != [] <==> d.ReadEndpoint? || c.readEndpoints != []
    ensures Put(c, d).readFrom == if d.ReadFrom? then d.strategy else c.readFrom
  {
    if d.Retries? {
      RetriesOwnFields(c, d.block);
    }
  }

  lemma PutValues(c: Config, d: Directive)
    requires ValidDirective(d)
    ensures Put(c, d).masterName == if d.Sentinel? then d.master else c.masterName
    ensures Put(c, d).db == if d.Db? then d.index.value else c.db
    ensures Put(c, d).sentinelUsername == if d.SentinelUsername? then d.name else c.sentinelUsername
    ensures Put(c, d).sentinelPassword == if d.SentinelPassword? then d.password else c.sentinelPassword
  {
    if d.Retries? {
      RetriesOwnFields(c, d.block);
    }
  }

  lemma PutReflectsModes(c: Config, init: seq<Directive>, last: Directive)
    requires ValidDirective(last) && ReflectsModes(c, init)
    ensures ReflectsModes(Put(c, last), init + [last])
  {
    PutLists(c, last);
    LastOfAppend(init, last, ClusterKind);
    LastOfAppend(init, last, EndpointKind);
    LastOfAppend(init, last, ReadEndpointKind);
    LastOfAppend(init, last, ReadFromKind);
  }

  lemma PutReflectsValues(c: Config, init: seq<Directive>, last: Directive)
    requires AllValid(init) && AllValid(init + [last]) && ValidDirective(last) && ReflectsValues(c, init)
    ensures ReflectsValues(Put(c, last), init + [last])
  {
    PutValues(c, last);
    LastOfAppend(init, last, SentinelKind);
    LastOfAppend(init, last, DbKind);
  }

  lemma PutReflectsLogin(c: Config, init: seq<Directive>, last: Directive)
    requires ValidDirective(last) && ReflectsLogin(c, init)
    ensures ReflectsLogin(Put(c, last), init + [last])
  {
    PutValues(c, last);
    LastOfAppend(init, last, SentinelUsernameKind);
    LastOfAppend(init, last, SentinelPasswordKind);
  }

  lemma {:induction false} FoldedReflects(ds: seq<Directive>)
    requires AllValid(ds) && Folded(DEFAULTS, ds).Some?
    ensures var c := Folded(DEFAULTS, ds).value; ReflectsModes(c, ds) && ReflectsValues(c, ds) && ReflectsLogin(c, ds)
  {
    if ds != [] {
      var init, last := ds[..|ds| - 1], ds[|ds| - 1];
      FoldedReflects(init);
      assert ds == init + [last];
      PutReflectsModes(Folded(DEFAULTS, init).value, init, last);
      PutReflectsValues(Folded(DEFAULTS, init).value, init, last);
      PutReflectsLogin(Folded(DEFAULTS, init).value, init, last);
    }
  }

  lemma {:induction false} RetriesConcat(c: Config, a: seq<Retry>, b: seq<Retry>)
    requires AllValidRetries(a) && AllValidRetries(b) && AllValidRetries(a + b)
    ensures PutRetries(c, a + b) == PutRetries(PutRetries(c, a), b)
  {
    if b == [] {
      assert a + b == a;
    } else {
      var init := b[..|b| - 1];
      assert (a + b)[..|a + b| - 1] == a + init;
      RetriesConcat(c, a, init);
    }
  }

  /** The retry fields are those of one block with the lines of all. */
  lemma {:induction false} FoldedRetries(ds: seq<Directive>)
    requires AllValid(ds) && Folded(DEFAULTS, ds).Some?
    ensures AllValidRetries(RetryLines(ds))
    ensures var c, r := Folded(DEFAULTS, ds).value, PutRetries(DEFAULTS, RetryLines(ds));
            c.maxRetries == r.maxRetries && c.minBackoff == r.minBackoff && c.maxBackoff == r.maxBackoff
  {
    if ds != [] {
      var init, last := ds[..|ds| - 1], ds[|ds| - 1];
      FoldedRetries(init);
      assert ValidDirective(last);
      if last.Retries? {
        RetriesConcat(DEFAULTS, RetryLines(init), last.block);
        RetriesAlike(Folded(DEFAULTS, init).value, PutRetries(DEFAULTS, RetryLines(init)), last.block);
      } else {
        assert RetryLines(ds) == RetryLines(init);
      }
    }
  }

  lemma {:induction false} RetriesReflect(block: seq<Retry>)
    requires AllValidRetries(block)
    ensures ReflectsRetries(PutRetries(DEFAULTS, block), block)
  {
    if block != [] {
      assert ValidRetry(block[|block| - 1]);
      RetriesReflect(block[..|block| - 1]);
    }
  }

  // ---- acceptance ----

  /** A block is accepted exactly if each directive is, all belong to one topology, and the backoffs are in order. */
  lemma AcceptedExactly(ds: seq<Directive>)
    ensures Parsed(ds).Some? <==>
            AllValid(ds) && OneTopology(ds) && AllValidRetries(RetryLines(ds)) && BackoffsInOrder(RetryLines(ds))
  {
    FoldedValid(DEFAULTS, ds);
    if AllValid(ds) {
      FoldedReflects(ds);
      FoldedRetries(ds);
      RetriesReflect(RetryLines(ds));
    }
  }

  /** `endpoint` beside `cluster` is never ignored: the block is refused, whatever else it holds. */
  lemma EndpointRefused(ds: seq<Directive>)
    requires Has(ds, ClusterKind) && Has(ds, EndpointKind)
    ensures Parsed(ds).None?
  {
    AcceptedExactly(ds);
  }

  /** A block that is accepted, and is refused with an `endpoint`. */
  lemma EndpointRefusedExample(a: string, b: string)
    ensures Parsed([Cluster([Some(a)])]).Some?
    ensures Parsed([Cluster([Some(a)]), Endpoint([Some(b)])]).None?
  {
    assert [] + Values([Some(a)]) == [a] && [Cluster([Some(a)])][..0] == [];
    assert Folded(DEFAULTS, [Cluster([Some(a)])]) == Some(DEFAULTS.(clusterAddrs := [a]));
    assert Cluster([Some(a)]) in [Cluster([Some(a)]), Endpoint([Some(b)])];
    EndpointRefused([Cluster([Some(a)]), Endpoint([Some(b)])]);
  }

  /**
  An accepted block with `read_from` is in cluster mode if and only if it has a `cluster`
  directive, and that is if and only if its last `sentinel` names no master.
  */
  lemma ReadFromMode(ds: seq<Directive>)
    requires Parsed(ds).Some? && Has(ds, ReadFromKind)
    ensures Parsed(ds).value.clusterAddrs != [] <==> Has(ds, ClusterKind)
    ensures Has(ds, ClusterKind) <==> Master(ds) == ""
  {
    AcceptedExactly(ds);
    FoldedReflects(ds);
  }

  /** `read_from` is accepted without `cluster`, in sentinel mode. */
  lemma ReadFromExample(a: string)
    ensures var c := Parsed([Sentinel("m", [Some(a)]), ReadFrom("random")]);
            c.Some? && c.value.clusterAddrs == [] && c.value.masterName == "m" && c.value.readFrom == "random"
  {
    var d, e := Sentinel("m", [Some(a)]), ReadFrom("random");
    assert [] + Values([Some(a)]) == [a] && [d, e][..1] == [d] && [d][..0] == [];
    assert Folded(DEFAULTS, [d]) == Some(DEFAULTS.(masterName := "m", sentinels := [a]));
  }

  /** Once the last `sentinel` names a master, the block is refused with any directive of another topology. */
  lemma SentinelRefused(ds: seq<Directive>)
    requires Master(ds) != "" && (Has(ds, ClusterKind) || Has(ds, EndpointKind) || Has(ds, ReadEndpointKind))
    ensures Parsed(ds).None?
  {
    AcceptedExactly(ds);
  }

  /** A `sentinel` without master name chooses no topology: it is accepted beside `cluster` and beside `endpoint`. */
  lemma EmptyMasterExample(a: string, b: string)
    ensures Parsed([Sentinel("", [Some(a)]), Cluster([Some(b)])]).Some?
    ensures Parsed([Sentinel("", [Some(a)]), Endpoint([Some(b)])]).Some?
  {
    var d, e, e' := Sentinel("", [Some(a)]), Cluster([Some(b)]), Endpoint([Some(b)]);
    assert [] + Values([Some(a)]) == [a] && [] + Values([Some(b)]) == [b];
    assert [d, e][..1] == [d, e'][..1] == [d] && [d][..0] == [];
    assert Folded(DEFAULTS, [d]) == Some(DEFAULTS.(sentinels := [a]));
  }
}
