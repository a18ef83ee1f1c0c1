/**
Which replies may be cached (cache.go:19-85), and that letter case plays no part in it.
*/
module Cacheability {
  import opened Dns
  import opened Aliases

  ghost predicate SoaIn(ns: seq<RR>) {
    exists rr | rr in ns :: rr.rdata.Soa?
  }

  ghost predicate HasRecord(answer: seq<RR>, qtype: uint16, n: Name) {
    exists rr | rr in answer :: rr.Type() == qtype && Fold(rr.name) == n
  }

  /**
  The answer holds a record of the queried type where the question leads: at the
  question name itself for CNAME questions, else where its aliases end.
  */
  ghost predicate Answered(answer: seq<RR>, q: Question) {
    if q.qtype == TYPE_CNAME then HasRecord(answer, q.qtype, Fold(q.name))
    else exists n :: ResolvesTo(answer, Fold(q.name), n) && HasRecord(answer, q.qtype, n)
  }

  /** A non-empty answer that does not answer the question. */
  ghost predicate Nodata(answer: seq<RR>, q: Question) {
    answer != [] && q.qtype != TYPE_ANY && !Answered(answer, q)
  }

  ghost predicate Accepts(m: Msg, t: ResponseType) {
    && |m.question| == 1
    && !m.truncated
    && (t == NameError ==> SoaIn(m.ns))
    && (t == NoError && !SoaIn(m.ns) ==> !Nodata(m.answer, m.question[0]))
    && t != OtherError && t != Meta && t != Update
  }

  // ---- the code ----

  /** cache.go:47-54. */
  method HasSOA(ns: seq<RR>) returns (r: bool)
    ensures r <==> SoaIn(ns)
  {
    for i := 0 to |ns|
      invariant forall j | 0 <= j < i :: !ns[j].rdata.Soa?
    {
      if ns[i].Type() == TYPE_SOA {
        return true;
      }
    }
    return false;
  }

  /** cache.go:58-85. The caller has checked that there is a question. */
  method IsNODATA(m: Msg) returns (r: bool)
    requires |m.question| >= 1
    ensures r <==> Nodata(m.answer, m.question[0])
  {
    if |m.answer| == 0 {
      return false;
    }
    var qtype := m.question[0].qtype;
    if qtype == TYPE_ANY {
      return false;
    }
    var name := m.question[0].name;
    if qtype != TYPE_CNAME {
      var terminal, ok, _ := CanonicalName(m.answer, name);
      if !ok {
        forall n ensures !ResolvesTo(m.answer, Fold(name), n) {
          if ResolvesTo(m.answer, Fold(name), n) {
            NeverBoth(m.answer, Fold(name), n);
          }
        }
        return true;
      }
      forall n | ResolvesTo(m.answer, Fold(name), n) ensures n == Fold(terminal) {
        TerminalUnique(m.answer, Fold(name), n, Fold(terminal));
      }
      name := terminal;
    }
    for i := 0 to |m.answer|
      invariant forall j | 0 <= j < i :: !(m.answer[j].Type() == qtype && Fold(m.answer[j].name) == Fold(name))
    {
      if m.answer[i].Type() == qtype && Fold(m.answer[i].name) == Fold(name) {
        return false;
      }
    }
    return true;
  }

  /** cache.go:28-45. */
  method Cacheable(m: Msg, t: ResponseType) returns (r: bool)
    ensures r <==> Accepts(m, t)
  {
    if |m.question| != 1 {
      return false;
    }
    if m.truncated {
      return false;
    }
    var soa := HasSOA(m.ns);
    if t == NameError && !soa {
      return false;
    }
    var nodata := IsNODATA(m);
    if t == NoError && !soa && nodata {
      return false;
    }
    if t == OtherError || t == Meta || t == Update {
      return false;
    }
    return true;
  }

  /** Whatever readings agree everywhere resolve alike. */
  lemma SameSteps(a: seq<RR>, b: seq<RR>, from: Name, to: Name)
    requires forall n :: Step(a, n) == Step(b, n)
    ensures ResolvesTo(a, from, to) <==> ResolvesTo(b, from, to)
  {
    forall p ensures ResolvesVia(a, p, from, to) <==> ResolvesVia(b, p, from, to) {
    }
  }

  // ---- letter case ----

  function FoldRR(rr: RR): RR {
    rr.(name := Fold(rr.name), rdata := if rr.rdata.CName? then CName(Fold(rr.rdata.target)) else rr.rdata)
  }

  ghost predicate EqualUpToCase(a: seq<RR>, b: seq<RR>) {
    |a| == |b| && forall i | 0 <= i < |a| :: FoldRR(a[i]) == FoldRR(b[i])
  }

  lemma {:induction false} TargetsUpToCase(a: seq<RR>, b: seq<RR>, owner: Name)
    requires EqualUpToCase(a, b)
    ensures Targets(a, owner) == Targets(b, owner)
  {
    if a != [] {
      var n := |a| - 1;
      assert FoldRR(a[n]) == FoldRR(b[n]);
      TargetsUpToCase(a[..n], b[..n], owner);
    }
  }

  lemma SameFold(x: RR, y: RR)
    requires FoldRR(x) == FoldRR(y)
    ensures x.Type() == y.Type() && Fold(x.name) == Fold(y.name)
  {
    assert FoldRR(x).Type() == x.Type() && FoldRR(y).Type() == y.Type();
    assert FoldRR(x).name == Fold(x.name) && FoldRR(y).name == Fold(y.name);
  }

  lemma HasRecordUpToCase(a: seq<RR>, b: seq<RR>, qtype: uint16, n: Name)
    requires EqualUpToCase(a, b) && HasRecord(a, qtype, n)
    ensures HasRecord(b, qtype, n)
  {
    var i :| 0 <= i < |a| && a[i].Type() == qtype && Fold(a[i].name) == n;
    SameFold(a[i], b[i]);
    assert b[i] in b;
  }

  /** The same record with its owner name, and for an alias its target, in another spelling. */
  ghost predicate Respelled(x: RR, y: RR) {
    && SameName(x.name, y.name)
    && (if x.rdata.CName? then
          y.rdata.CName? && SameName(x.rdata.target, y.rdata.target) && y == x.(name := y.name, rdata := y.rdata)
        else y == x.(name := y.name))
  }

  ghost predicate AllRespelled(a: seq<RR>, b: seq<RR>) {
    |a| == |b| && forall i | 0 <= i < |a| :: Respelled(a[i], b[i])
  }

  lemma RespelledFolds(a: seq<RR>, b: seq<RR>)
    requires AllRespelled(a, b)
    ensures EqualUpToCase(a, b)
  {
    forall i | 0 <= i < |a| ensures FoldRR(a[i]) == FoldRR(b[i]) {
      assert Respelled(a[i], b[i]);
      FoldExactly(a[i].name, b[i].name);
      if a[i].rdata.CName? {
        FoldExactly(a[i].rdata.target, b[i].rdata.target);
      }
    }
  }

  /** Respelling the question, the owner names and the targets, letter by letter, never changes the decision. */
  lemma AcceptsUpToCase(m: Msg, m': Msg, t: ResponseType)
    requires |m.question| == |m'.question| && m.truncated == m'.truncated
    requires forall i | 0 <= i < |m.question| ::
               m'.question[i] == m.question[i].(name := m'.question[i].name) &&
               SameName(m.question[i].name, m'.question[i].name)
    requires AllRespelled(m.answer, m'.answer) && AllRespelled(m.ns, m'.ns)
    ensures Accepts(m, t) <==> Accepts(m', t)
  {
    RespelledFolds(m.answer, m'.answer);
    RespelledFolds(m.ns, m'.ns);
    forall i | 0 <= i < |m.ns| ensures m.ns[i].rdata.Soa? <==> m'.ns[i].rdata.Soa? {
      assert FoldRR(m.ns[i]) == FoldRR(m'.ns[i]);
    }
    assert SoaIn(m.ns) <==> SoaIn(m'.ns);
    if |m.question| == 1 {
      assert m'.question[0].qtype == m.question[0].qtype;
      FoldExactly(m.question[0].name, m'.question[0].name);
      AnsweredUpToCase(m.answer, m'.answer, m.question[0], m'.question[0]);
      AnsweredUpToCase(m'.answer, m.answer, m'.question[0], m.question[0]);
    }
  }

  lemma AnsweredUpToCase(a: seq<RR>, b: seq<RR>, q: Question, q': Question)
    requires EqualUpToCase(a, b) && q.qtype == q'.qtype && Fold(q.name) == Fold(q'.name)
    ensures Answered(a, q) ==> Answered(b, q')
  {
    if Answered(a, q) {
      forall n ensures Step(a, n) == Step(b, n) {
        TargetsUpToCase(a, b, n);
      }
      var n :| HasRecord(a, q.qtype, n) &&
               if q.qtype == TYPE_CNAME then n == Fold(q.name) else ResolvesTo(a, Fold(q.name), n);
      HasRecordUpToCase(a, b, q.qtype, n);
      SameSteps(a, b, Fold(q.name), n);
    }
  }

  // ---- answers without aliases, and with one ----

  /** A record of the type at the name, in any spelling. */
  ghost predicate Owns(answer: seq<RR>, qtype: uint16, n: Name) {
    exists rr | rr in answer :: rr.Type() == qtype && SameName(rr.name, n)
  }

  lemma OwnsExactly(answer: seq<RR>, qtype: uint16, n: Name)
    ensures Owns(answer, qtype, n) <==> HasRecord(answer, qtype, Fold(n))
  {
    forall rr | rr in answer ensures SameName(rr.name, n) <==> Fold(rr.name) == Fold(n) {
      FoldExactly(rr.name, n);
    }
  }

  /** No CNAME of the answer belongs to the name. */
  ghost predicate NoAliasAt(answer: seq<RR>, n: Name) {
    forall rr | rr in answer && rr.rdata.CName? :: !SameName(rr.name, n)
  }

  lemma {:induction false} NoAliasNoTargets(answer: seq<RR>, n: Name)
    requires NoAliasAt(answer, n)
    ensures Targets(answer, Fold(n)) == []
  {
    if answer != [] {
      var last := answer[|answer| - 1];
      assert last in answer;
      FoldExactly(last.name, n);
      NoAliasNoTargets(answer[..|answer| - 1], n);
    }
  }

  lemma ResolvesToItself(answer: seq<RR>, n: Name)
    requires NoAliasAt(answer, n)
    ensures ResolvesTo(answer, Fold(n), Fold(n))
  {
    NoAliasNoTargets(answer, n);
    assert ResolvesVia(answer, [Fold(n)], Fold(n), Fold(n));
  }

  /** Without an alias at the question name, the answer must hold a record of that type and name. */
  lemma PlainAnswer(answer: seq<RR>, q: Question)
    requires q.qtype == 5 || NoAliasAt(answer, q.name)
    ensures Answered(answer, q) <==> Owns(answer, q.qtype, q.name)
  {
    OwnsExactly(answer, q.qtype, q.name);
    if q.qtype != 5 {
      ResolvesToItself(answer, q.name);
      forall n | ResolvesTo(answer, Fold(q.name), n) ensures n == Fold(q.name) {
        TerminalUnique(answer, Fold(q.name), n, Fold(q.name));
      }
    }
  }

  /** Record `i` is the one CNAME of the name. */
  ghost predicate OneAliasAt(answer: seq<RR>, n: Name, i: nat) {
    && i < |answer| && answer[i].rdata.CName? && SameName(answer[i].name, n)
    && NoAliasAt(answer[..i], n) && NoAliasAt(answer[i + 1..], n)
  }

  lemma OneAliasStep(answer: seq<RR>, n: Name, i: nat)
    requires OneAliasAt(answer, n, i) && answer[i].rdata.target != []
    ensures Step(answer, Fold(n)) == AliasOf(Fold(answer[i].rdata.target))
  {
    var a, b := answer[..i], answer[i + 1..];
    assert answer == a + [answer[i]] + b;
    TargetsConcat(a + [answer[i]], b, Fold(n));
    TargetsConcat(a, [answer[i]], Fold(n));
    NoAliasNoTargets(a, n);
    NoAliasNoTargets(b, n);
    FoldExactly(answer[i].name, n);
    var t := Fold(answer[i].rdata.target);
    assert [answer[i]][..0] == [] && Targets([answer[i]], Fold(n)) == [t];
    assert Targets(answer, Fold(n)) == [t];
    assert t in [t] && Padded([t], 0, t);
  }

  /** One alias followed: the record must be at the alias's target, and the question name does not count. */
  lemma AliasedAnswer(answer: seq<RR>, q: Question, i: nat)
    requires q.qtype != 5 && OneAliasAt(answer, q.name, i) && answer[i].rdata.target != []
    requires NoAliasAt(answer, answer[i].rdata.target)
    ensures Answered(answer, q) <==> Owns(answer, q.qtype, answer[i].rdata.target)
  {
    var t := answer[i].rdata.target;
    OneAliasStep(answer, q.name, i);
    NoAliasNoTargets(answer, t);
    assert ResolvesVia(answer, [Fold(q.name), Fold(t)], Fold(q.name), Fold(t));
    OwnsExactly(answer, q.qtype, t);
    forall n | ResolvesTo(answer, Fold(q.name), n) ensures n == Fold(t) {
      TerminalUnique(answer, Fold(q.name), n, Fold(t));
    }
  }
}
