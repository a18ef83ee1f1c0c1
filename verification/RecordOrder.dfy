/**
How far the cacheability decision depends on the order of the answer records.

It does not, as long as every CNAME has a target. An owner with both a targetless
CNAME and exactly one target reads as an alias when the targetless records come
first and as ambiguous otherwise, so such an owner can make the decision turn on
the order. `OrderDecides` says exactly when it does.
*/
module RecordOrder {
  import opened Dns
  import opened Aliases
  import opened Cacheability

  /** Targetless records and exactly one target. */
  ghost predicate Mixed(ts: seq<Name>) {
    && [] in ts
    && exists t :: t in ts && t != [] && forall x | x in ts :: x == [] || x == t
  }

  ghost predicate MixedOwner(answer: seq<RR>, n: Name) {
    Mixed(Targets(answer, n))
  }

  predicate Targetless(rr: RR) {
    rr.rdata.CName? && rr.rdata.target == []
  }

  function Keep(answer: seq<RR>, targetless: bool): (r: seq<RR>)
    ensures forall rr :: rr in r <==> rr in answer && Targetless(rr) == targetless
  {
    if answer == [] then []
    else
      assert answer == [answer[0]] + answer[1..];
      (if Targetless(answer[0]) == targetless then [answer[0]] else []) + Keep(answer[1..], targetless)
  }

  function TargetlessFirst(answer: seq<RR>): seq<RR> {
    Keep(answer, true) + Keep(answer, false)
  }

  function TargetlessLast(answer: seq<RR>): seq<RR> {
    Keep(answer, false) + Keep(answer, true)
  }

  ghost predicate Permutation(a: seq<RR>, b: seq<RR>) {
    multiset(a) == multiset(b)
  }

  lemma {:induction false} KeepPermutes(answer: seq<RR>)
    ensures Permutation(TargetlessFirst(answer), answer)
    ensures Permutation(TargetlessLast(answer), answer)
  {
    if answer != [] {
      KeepPermutes(answer[1..]);
      assert answer == [answer[0]] + answer[1..];
      var rest, all := answer[1..], answer;
      assert multiset(Keep(all, true)) + multiset(Keep(all, false)) ==
             multiset{answer[0]} + (multiset(Keep(rest, true)) + multiset(Keep(rest, false)));
    }
  }

  // ---- what a reading depends on ----

  lemma ReadByMembers(ts: seq<Name>)
    requires !Mixed(ts)
    ensures Read(ts).NoAlias? <==> forall x | x in ts :: x == []
    ensures forall t :: Read(ts) == AliasOf(t) <==> t != [] && t in ts && forall x | x in ts :: x == t
  {
    if exists x :: x in ts && x != [] {
      var last := ts[|ts| - 1];
      assert last in ts;
      if OneTarget(ts, last) {
        var k :| Padded(ts, k, last);
        assert forall x | x in ts :: x == [] || x == last;
      }
      if forall x | x in ts :: x == last {
        assert forall i | 0 <= i < |ts| :: ts[i] in ts;
        assert Padded(ts, 0, last);
      }
    }
  }

  /** Where a mixed owner reads as an alias, it is of its one target. */
  lemma ReadMixed(ts: seq<Name>, t: Name)
    requires Mixed(ts) && t in ts && t != []
    ensures Read(ts) == AliasOf(t) || Read(ts) == Ambiguous
  {
    if OneTarget(ts, ts[|ts| - 1]) {
      var k :| Padded(ts, k, ts[|ts| - 1]);
    }
  }

  lemma ReadEmptiesFirst(es: seq<Name>, ts: seq<Name>, t: Name)
    requires forall x | x in es :: x == []
    requires ts != [] && forall x | x in ts :: x == t
    requires t != []
    ensures Read(es + ts) == AliasOf(t)
  {
    assert forall i | 0 <= i < |es| :: es[i] in es;
    assert forall i | 0 <= i < |ts| :: ts[i] in ts;
    assert (es + ts)[|es + ts| - 1] == ts[|ts| - 1] == t;
    assert Padded(es + ts, |es|, t);
    assert t in es + ts;
  }

  lemma ReadEmptiesLast(es: seq<Name>, ts: seq<Name>)
    requires es != [] && forall x | x in es :: x == []
    requires ts != [] && forall x | x in ts :: x != []
    ensures Read(ts + es) == Ambiguous
  {
    var all := ts + es;
    assert all[0] == ts[0] && all[0] in all && ts[0] in ts;
    assert all[|all| - 1] == es[|es| - 1] && es[|es| - 1] in es;
    forall k ensures !Padded(all, k, []) {
      if k == 0 {
        assert all[0] != [];
      }
    }
  }

  lemma SameMembers(a: seq<RR>, b: seq<RR>, n: Name)
    requires Permutation(a, b)
    ensures forall x :: x in Targets(a, n) <==> x in Targets(b, n)
  {
    assert forall rr :: rr in a <==> rr in multiset(a);
    assert forall rr :: rr in b <==> rr in multiset(b);
    forall x ensures x in Targets(a, n) <==> x in Targets(b, n) {
      TargetsMember(a, n, x);
      TargetsMember(b, n, x);
    }
  }

  lemma HasRecordPermuted(a: seq<RR>, b: seq<RR>, qtype: uint16, n: Name)
    requires Permutation(a, b)
    ensures HasRecord(a, qtype, n) <==> HasRecord(b, qtype, n)
  {
    assert forall rr :: rr in a <==> rr in multiset(a);
    assert forall rr :: rr in b <==> rr in multiset(b);
  }

  lemma MixedByMembers(ts: seq<Name>, us: seq<Name>)
    requires forall x :: x in ts <==> x in us
    requires Mixed(ts)
    ensures Mixed(us)
  {
    var t :| t in ts && t != [] && forall x | x in ts :: x == [] || x == t;
    assert t in us && [] in us;
  }

  lemma SameReading(ts: seq<Name>, us: seq<Name>)
    requires forall x :: x in ts <==> x in us
    requires !Mixed(ts)
    ensures Read(ts) == Read(us)
  {
    if Mixed(us) {
      MixedByMembers(us, ts);
    }
    ReadByMembers(ts);
    ReadByMembers(us);
    match Read(ts)
    case NoAlias =>
    case AliasOf(t) => assert Read(us) == AliasOf(t);
    case Ambiguous =>
      assert !Read(us).NoAlias?;
      if Read(us).AliasOf? {
        assert Read(ts) == AliasOf(Read(us).target);
      }
  }

  /** Away from mixed owners the order does not matter. */
  lemma StepPermuted(a: seq<RR>, b: seq<RR>, n: Name)
    requires Permutation(a, b)
    ensures MixedOwner(a, n) <==> MixedOwner(b, n)
    ensures !MixedOwner(a, n) ==> Step(a, n) == Step(b, n)
  {
    SameMembers(a, b, n);
    if !MixedOwner(a, n) {
      SameReading(Targets(a, n), Targets(b, n));
    }
  }

  lemma KeptTargets(answer: seq<RR>, n: Name, targetless: bool)
    ensures forall x | x in Targets(Keep(answer, targetless), n) :: x in Targets(answer, n) && (x == [] <==> targetless)
  {
    forall x | x in Targets(Keep(answer, targetless), n) ensures x in Targets(answer, n) && (x == [] <==> targetless) {
      TargetsMember(Keep(answer, targetless), n, x);
      TargetsMember(answer, n, x);
    }
  }

  /** A mixed owner is an alias in one extreme order and ambiguous in the other. */
  lemma MixedExtremes(answer: seq<RR>, n: Name)
    requires MixedOwner(answer, n)
    ensures Step(TargetlessFirst(answer), n).AliasOf?
    ensures Step(TargetlessLast(answer), n) == Ambiguous
  {
    var ts := Targets(answer, n);
    var es, ks := Targets(Keep(answer, true), n), Targets(Keep(answer, false), n);
    var t :| t in ts && t != [] && forall x | x in ts :: x == [] || x == t;
    KeptTargets(answer, n, true);
    KeptTargets(answer, n, false);
    TargetsMember(answer, n, t);
    TargetsMember(answer, n, []);
    TargetsMember(Keep(answer, false), n, t);
    TargetsMember(Keep(answer, true), n, []);
    TargetsConcat(Keep(answer, true), Keep(answer, false), n);
    TargetsConcat(Keep(answer, false), Keep(answer, true), n);
    ReadEmptiesFirst(es, ks, t);
    ReadEmptiesLast(es, ks);
  }

  /** Targetless records first is the most lenient order: every step in any order is a step in it. */
  lemma LenientStep(a: seq<RR>, b: seq<RR>, n: Name)
    requires Permutation(a, b)
    ensures Step(b, n) != Ambiguous ==> Step(TargetlessFirst(a), n) == Step(b, n)
  {
    var l := TargetlessFirst(a);
    KeepPermutes(a);
    StepPermuted(b, l, n);
    if MixedOwner(b, n) {
      StepPermuted(a, b, n);
      MixedExtremes(a, n);
      SameMembers(b, l, n);
      var t :| t in Targets(b, n) && t != [] && forall x | x in Targets(b, n) :: x == [] || x == t;
      ReadMixed(Targets(b, n), t);
      ReadMixed(Targets(l, n), t);
    }
  }

  lemma LenientPath(a: seq<RR>, b: seq<RR>, p: seq<Name>, from: Name, to: Name)
    requires Permutation(a, b) && ResolvesVia(b, p, from, to)
    ensures ResolvesVia(TargetlessFirst(a), p, from, to)
  {
    forall i | 0 <= i < |p| ensures Step(TargetlessFirst(a), p[i]) == Step(b, p[i]) {
      assert i < |p| - 1 ==> Step(b, p[i]) == AliasOf(p[i + 1]);
      LenientStep(a, b, p[i]);
    }
  }

  // ---- when the order decides ----

  /**
  The reply is a NOERROR reply without SOA whose aliases, read with targetless records
  first, lead through a mixed owner to a record of the queried type.
  */
  ghost predicate OrderDecides(m: Msg, t: ResponseType) {
    && |m.question| == 1 && !m.truncated && t == NoError && !SoaIn(m.ns)
    && m.question[0].qtype != TYPE_ANY && m.question[0].qtype != TYPE_CNAME
    && exists p, n :: MixedPath(m.answer, m.question[0], p, n)
  }

  ghost predicate MixedPath(answer: seq<RR>, q: Question, p: seq<Name>, n: Name) {
    && ResolvesVia(TargetlessFirst(answer), p, Fold(q.name), n)
    && HasRecord(answer, q.qtype, n)
    && exists i :: 0 <= i < |p| && MixedOwner(answer, p[i])
  }

  lemma AnsweredAnyOrder(a: seq<RR>, b: seq<RR>, c: seq<RR>, q: Question)
    requires Permutation(a, b) && Permutation(a, c)
    requires q.qtype != TYPE_CNAME ==> !exists p, n :: MixedPath(a, q, p, n)
    requires Answered(b, q)
    ensures Answered(c, q)
  {
    if q.qtype == TYPE_CNAME {
      HasRecordPermuted(b, c, q.qtype, Fold(q.name));
    } else {
      var n :| ResolvesTo(b, Fold(q.name), n) && HasRecord(b, q.qtype, n);
      var p :| ResolvesVia(b, p, Fold(q.name), n);
      LenientPath(a, b, p, Fold(q.name), n);
      HasRecordPermuted(a, b, q.qtype, n);
      HasRecordPermuted(b, c, q.qtype, n);
      assert !MixedPath(a, q, p, n);
      forall i | 0 <= i < |p| ensures Step(b, p[i]) == Step(c, p[i]) {
        StepPermuted(a, b, p[i]);
        StepPermuted(b, c, p[i]);
      }
      assert ResolvesVia(c, p, Fold(q.name), n);
    }
  }

  lemma OrderIrrelevant(m: Msg, t: ResponseType, a: seq<RR>)
    requires !OrderDecides(m, t) && Permutation(m.answer, a)
    ensures Accepts(m.(answer := a), t) <==> Accepts(m, t)
  {
    if |m.question| == 1 && !m.truncated && t == NoError && !SoaIn(m.ns) && m.question[0].qtype != TYPE_ANY {
      assert a == [] <==> m.answer == [] by {
        assert |multiset(a)| == |a| && |multiset(m.answer)| == |m.answer|;
      }
      if Answered(m.answer, m.question[0]) {
        AnsweredAnyOrder(m.answer, m.answer, a, m.question[0]);
      }
      if Answered(a, m.question[0]) {
        AnsweredAnyOrder(m.answer, a, m.answer, m.question[0]);
      }
    }
  }

  /** With the targetless records last, no path gets past the mixed owner. */
  lemma BlockedAtMixed(answer: seq<RR>, q: Question, p: seq<Name>, n: Name, p': seq<Name>, n': Name)
    requires MixedPath(answer, q, p, n)
    ensures !ResolvesVia(TargetlessLast(answer), p', Fold(q.name), n')
  {
    var first, last := TargetlessFirst(answer), TargetlessLast(answer);
    var i :| 0 <= i < |p| && MixedOwner(answer, p[i]);
    KeepPermutes(answer);
    if ResolvesVia(last, p', Fold(q.name), n') {
      LenientPath(answer, last, p', Fold(q.name), n');
      ResolvingPathUnique(first, p, p', Fold(q.name), n, n');
      UnambiguousOnPath(last, p', Fold(q.name), n', i);
      MixedExtremes(answer, p[i]);
    }
  }

  lemma OrderRelevant(m: Msg, t: ResponseType)
    requires OrderDecides(m, t)
    ensures Accepts(m.(answer := TargetlessFirst(m.answer)), t)
    ensures !Accepts(m.(answer := TargetlessLast(m.answer)), t)
  {
    var q, first, last := m.question[0], TargetlessFirst(m.answer), TargetlessLast(m.answer);
    var p, n :| MixedPath(m.answer, q, p, n);
    KeepPermutes(m.answer);
    assert Answered(first, q) by {
      HasRecordPermuted(first, m.answer, q.qtype, n);
    }
    assert !Answered(last, q) by {
      forall n', p' ensures !ResolvesVia(last, p', Fold(q.name), n') {
        BlockedAtMixed(m.answer, q, p, n, p', n');
      }
    }
    assert last != [] by {
      var rr :| rr in m.answer;
      assert rr in multiset(m.answer) && rr in multiset(last);
    }
  }

  /** Every order of the answer gets the same decision, unless `OrderDecides`. */
  lemma OrderTheorem(m: Msg, t: ResponseType)
    ensures (forall a | Permutation(m.answer, a) :: Accepts(m.(answer := a), t) == Accepts(m, t)) <==> !OrderDecides(m, t)
  {
    if OrderDecides(m, t) {
      OrderRelevant(m, t);
      KeepPermutes(m.answer);
      assert Permutation(m.answer, TargetlessFirst(m.answer)) && Permutation(m.answer, TargetlessLast(m.answer));
    } else {
      forall a | Permutation(m.answer, a) ensures Accepts(m.(answer := a), t) == Accepts(m, t) {
        OrderIrrelevant(m, t, a);
      }
    }
  }

  /** The dependence is real: the same two aliases and address, in two orders. */
  lemma OrderExample(m: Msg, a: Name, b: Name, x: RR, e: RR, y: RR)
    requires Fold(a) == a && Fold(b) == b && a != b && b != []
    requires |m.question| == 1 && !m.truncated && !SoaIn(m.ns)
    requires m.question[0].name == a && m.question[0].qtype == 1
    requires e == RR(a, 1, 60, CName([])) && x == RR(a, 1, 60, CName(b)) && y == RR(b, 1, 60, Other(1, [192, 0, 2, 1]))
    ensures Accepts(m.(answer := [e, x, y]), NoError)
    ensures !Accepts(m.(answer := [x, e, y]), NoError)
  {
    var good, bad := [e, x, y], [x, e, y];
    ExampleTargets(a, b, x, e, y);
    assert Padded([[], b], 1, b);
    assert b in [[], b];
    assert ResolvesVia(good, [a, b], a, b);
    assert ResolvesTo(good, Fold(a), b);
    assert y in good && y.Type() == 1;
    assert HasRecord(good, 1, b);
    assert Read([b, []]) == Ambiguous by {
      assert b in [b, []];
      assert forall k :: !Padded([b, []], k, []);
    }
    forall n ensures !ResolvesTo(bad, a, n) {
      assert StuckVia(bad, [a], a);
      if ResolvesTo(bad, a, n) {
        NeverBoth(bad, a, n);
      }
    }
  }

  lemma ExampleTargets(a: Name, b: Name, x: RR, e: RR, y: RR)
    requires Fold(a) == a && Fold(b) == b && a != b
    requires e == RR(a, 1, 60, CName([])) && x == RR(a, 1, 60, CName(b)) && y == RR(b, 1, 60, Other(1, [192, 0, 2, 1]))
    ensures Targets([e, x, y], a) == [[], b] && Targets([e, x, y], b) == []
    ensures Targets([x, e, y], a) == [b, []]
  {
    assert [e, x, y][..2] == [e, x] && [e, x][..1] == [e] && [e][..0] == [];
    assert [x, e, y][..2] == [x, e] && [x, e][..1] == [x] && [x][..0] == [];
    assert Fold([]) == [];
    forall n | n == a || n == b
      ensures Targets([e, x, y], n) == Targets([e, x], n) && Targets([x, e, y], n) == Targets([x, e], n)
    {
    }
    assert Targets([e], a) == [[]] && Targets([x], a) == [b] && Targets([e], b) == [] && Targets([x], b) == [];
  }

  /** In particular, an answer whose CNAMEs all have targets is judged alike in every order. */
  lemma TargetsPresent(m: Msg, t: ResponseType, a: seq<RR>)
    requires forall rr | rr in m.answer :: !Targetless(rr)
    requires Permutation(m.answer, a)
    ensures Accepts(m.(answer := a), t) == Accepts(m, t)
  {
    forall n ensures !MixedOwner(m.answer, n) {
      TargetsMember(m.answer, n, []);
    }
    OrderIrrelevant(m, t, a);
  }
}
