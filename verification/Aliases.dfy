/**
The CNAME graph of an answer section (cache.go:87-129): what each owner name
aliases to, and the walk that follows the aliases.

Records come in no particular order, names compare without letter case, and the
graph may be cyclic or ambiguous. A CNAME whose record data is empty unpacks with
an empty target, and the scan reads an empty target as "none so far".
*/
module Aliases {
  import opened Dns

  predicate IsAliasAt(rr: RR, owner: Name) {
    rr.rdata.CName? && Fold(rr.name) == owner
  }

  /** The folded targets of the CNAME records at the folded name `owner`, in record order. */
  function Targets(answer: seq<RR>, owner: Name): seq<Name> {
    if answer == [] then []
    else
      var rr := answer[|answer| - 1];
      Targets(answer[..|answer| - 1], owner) + (if IsAliasAt(rr, owner) then [Fold(rr.rdata.target)] else [])
  }

  /** All folded CNAME targets of an answer section. */
  function TargetSet(answer: seq<RR>): set<Name> {
    set rr | rr in answer && rr.rdata.CName? :: Fold(rr.rdata.target)
  }

  /** What the CNAME records of one owner say. */
  datatype Reading = NoAlias | AliasOf(target: Name) | Ambiguous

  /** `k` records without a target, then only records with target `t`. */
  predicate Padded(ts: seq<Name>, k: nat, t: Name) {
    && k < |ts|
    && (forall i | 0 <= i < k :: ts[i] == [])
    && (forall i | k <= i < |ts| :: ts[i] == t)
  }

  ghost predicate OneTarget(ts: seq<Name>, t: Name) {
    exists k :: Padded(ts, k, t)
  }

  /** One target, after any number of empty ones, is an alias; anything else with a target is ambiguous. */
  ghost function Read(ts: seq<Name>): Reading {
    if forall t | t in ts :: t == [] then NoAlias
    else if OneTarget(ts, ts[|ts| - 1]) then AliasOf(ts[|ts| - 1])
    else Ambiguous
  }

  /** The reading of the folded name `n`. */
  ghost function Step(answer: seq<RR>, n: Name): Reading {
    Read(Targets(answer, n))
  }

  // ---- the scan of one owner's records ----

  lemma ReadAppend(ts: seq<Name>, t: Name)
    ensures Read(ts + [t]) ==
            match Read(ts)
            case NoAlias => if t == [] then NoAlias else AliasOf(t)
            case AliasOf(u) => if t == u then AliasOf(u) else Ambiguous
            case Ambiguous => Ambiguous
  {
    var us := ts + [t];
    assert us[|us| - 1] == t && us[..|ts|] == ts;
    assert forall x | x in ts :: x in us;
    if Read(ts).NoAlias? {
      assert forall i | 0 <= i < |ts| :: ts[i] in ts;
      if t != [] {
        assert t in us;
        assert Padded(us, |ts|, t);
      }
    } else {
      var x :| x in ts && x != [];
      assert x in us;
      if k :| Padded(us, k, t) {
        assert Padded(ts, k, t) by {
          var i :| 0 <= i < |ts| && ts[i] == x;
          assert us[i] == x;
        }
        assert ts[|ts| - 1] == us[|ts| - 1] == t;
      }
      if OneTarget(ts, t) {
        var k :| Padded(ts, k, t);
        assert Padded(us, k, t);
      }
    }
  }

  lemma {:induction false} AmbiguousForever(ts: seq<Name>, us: seq<Name>)
    requires Read(ts) == Ambiguous
    ensures Read(ts + us) == Ambiguous
    decreases |us|
  {
    if us == [] {
      assert ts + us == ts;
    } else {
      ReadAppend(ts, us[0]);
      AmbiguousForever(ts + [us[0]], us[1..]);
      assert ts + us == ts + [us[0]] + us[1..];
    }
  }

  lemma {:induction false} TargetsConcat(a: seq<RR>, b: seq<RR>, owner: Name)
    ensures Targets(a + b, owner) == Targets(a, owner) + Targets(b, owner)
  {
    if b == [] {
      assert a + b == a;
    } else {
      TargetsConcat(a, b[..|b| - 1], owner);
      assert (a + b)[..|a + b| - 1] == a + b[..|b| - 1];
    }
  }

  /** The targets listed are exactly those, in lower case, of the CNAME records of the owner. */
  lemma {:induction false} TargetsMember(answer: seq<RR>, owner: Name, t: Name)
    ensures t in Targets(answer, owner) <==>
            exists rr | rr in answer :: IsAliasAt(rr, owner) && Fold(rr.rdata.target) == t
  {
    if answer != [] {
      var init, last := answer[..|answer| - 1], answer[|answer| - 1];
      TargetsMember(init, owner, t);
      assert answer == init + [last];
      assert forall rr :: rr in answer <==> rr in init || rr == last;
    }
  }

  /** cache.go:106-118. */
  method UniqueCNAMETarget(answer: seq<RR>, owner: Name) returns (target: Name, ok: bool)
    ensures ok ==> Step(answer, Fold(owner)) == if target == [] then NoAlias else AliasOf(Fold(target))
    ensures !ok ==> Step(answer, Fold(owner)) == Ambiguous
  {
    target, ok := [], true;
    for i := 0 to |answer|
      invariant ok
      invariant Step(answer[..i], Fold(owner)) == if target == [] then NoAlias else AliasOf(Fold(target))
    {
      var rr := answer[i];
      ghost var seen := Targets(answer[..i], Fold(owner));
      assert answer[..i + 1][..i] == answer[..i];
      assert Targets(answer[..i + 1], Fold(owner)) ==
             seen + (if IsAliasAt(rr, Fold(owner)) then [Fold(rr.rdata.target)] else []);
      if !rr.rdata.CName? || Fold(rr.name) != Fold(owner) {
        assert seen + [] == seen;
        continue;
      }
      ReadAppend(seen, Fold(rr.rdata.target));
      if target != [] && Fold(target) != Fold(rr.rdata.target) {
        ok := false;
        TargetsConcat(answer[..i + 1], answer[i + 1..], Fold(owner));
        AmbiguousForever(seen + [Fold(rr.rdata.target)], Targets(answer[i + 1..], Fold(owner)));
        assert answer == answer[..i + 1] + answer[i + 1..];
        return [], false;
      }
      target := rr.rdata.target;
    }
    assert answer[..|answer|] == answer;
  }

  // ---- paths ----

  /** Each name of the path is the one alias of the name before it. */
  ghost predicate IsPath(answer: seq<RR>, p: seq<Name>) {
    && p != []
    && forall i | 0 <= i < |p| - 1 :: Step(answer, p[i]) == AliasOf(p[i + 1])
  }

  /** A path leads from `from` to `to`, and `to` has no alias. */
  ghost predicate ResolvesVia(answer: seq<RR>, p: seq<Name>, from: Name, to: Name) {
    IsPath(answer, p) && p[0] == from && p[|p| - 1] == to && Step(answer, to) == NoAlias
  }

  ghost predicate ResolvesTo(answer: seq<RR>, from: Name, to: Name) {
    exists p :: ResolvesVia(answer, p, from, to)
  }

  /** A path from `from` meets an ambiguous owner or comes back to one of its names. */
  ghost predicate StuckVia(answer: seq<RR>, p: seq<Name>, from: Name) {
    && IsPath(answer, p)
    && p[0] == from
    && (Step(answer, p[|p| - 1]) == Ambiguous || exists i, j :: 0 <= i < j < |p| && p[i] == p[j])
  }

  ghost predicate Stuck(answer: seq<RR>, from: Name) {
    exists p :: StuckVia(answer, p, from)
  }

  /** Two paths with the same start agree as far as both go. */
  lemma {:induction false} PathsAgree(answer: seq<RR>, p: seq<Name>, q: seq<Name>, i: nat)
    requires IsPath(answer, p) && IsPath(answer, q) && p[0] == q[0]
    requires i < |p| && i < |q|
    ensures p[i] == q[i]
  {
    if i > 0 {
      PathsAgree(answer, p, q, i - 1);
      assert Step(answer, p[i - 1]) == AliasOf(p[i]) && Step(answer, q[i - 1]) == AliasOf(q[i]);
    }
  }

  /** From a repeated name on, a path repeats itself. */
  lemma {:induction false} PathRepeats(answer: seq<RR>, p: seq<Name>, i: nat, j: nat, d: nat)
    requires IsPath(answer, p) && i < j && j + d < |p|
    ensures p[i] == p[j] ==> p[i + d] == p[j + d]
  {
    if d > 0 {
      PathRepeats(answer, p, i, j, d - 1);
      assert Step(answer, p[i + d - 1]) == AliasOf(p[i + d]) && Step(answer, p[j + d - 1]) == AliasOf(p[j + d]);
    }
  }

  /** A path to a name without alias visits no name twice. */
  lemma ResolvingPathDistinct(answer: seq<RR>, p: seq<Name>, from: Name, to: Name, i: nat, j: nat)
    requires ResolvesVia(answer, p, from, to) && i < j < |p|
    ensures p[i] != p[j]
  {
    var d := |p| - 1 - j;
    PathRepeats(answer, p, i, j, d);
    assert Step(answer, p[i + d]) == AliasOf(p[i + d + 1]);
  }

  /** Every path from a resolving name is a prefix of the path that resolves it. */
  lemma NoPathPastTerminal(answer: seq<RR>, p: seq<Name>, q: seq<Name>, from: Name, to: Name)
    requires ResolvesVia(answer, p, from, to) && IsPath(answer, q) && q[0] == from
    ensures q <= p
  {
    assert |q| > |p| ==> Step(answer, q[|p| - 1]) == AliasOf(q[|p|]);
    if |q| >= |p| {
      PathsAgree(answer, p, q, |p| - 1);
    }
    forall i | 0 <= i < |q| ensures q[i] == p[i] {
      PathsAgree(answer, p, q, i);
    }
  }

  lemma ResolvingPathUnique(answer: seq<RR>, p: seq<Name>, q: seq<Name>, from: Name, a: Name, b: Name)
    requires ResolvesVia(answer, p, from, a) && ResolvesVia(answer, q, from, b)
    ensures p == q
  {
    NoPathPastTerminal(answer, p, q, from, a);
    NoPathPastTerminal(answer, q, p, from, b);
  }

  lemma UnambiguousOnPath(answer: seq<RR>, p: seq<Name>, from: Name, to: Name, i: nat)
    requires ResolvesVia(answer, p, from, to) && i < |p|
    ensures Step(answer, p[i]) != Ambiguous
  {
    assert i < |p| - 1 ==> Step(answer, p[i]) == AliasOf(p[i + 1]);
  }

  lemma TerminalUnique(answer: seq<RR>, from: Name, a: Name, b: Name)
    requires ResolvesTo(answer, from, a) && ResolvesTo(answer, from, b)
    ensures a == b
  {
    var p :| ResolvesVia(answer, p, from, a);
    var q :| ResolvesVia(answer, q, from, b);
    ResolvingPathUnique(answer, p, q, from, a, b);
  }

  /** A name that resolves is not stuck. */
  lemma NeverBoth(answer: seq<RR>, from: Name, to: Name)
    requires ResolvesTo(answer, from, to)
    ensures !Stuck(answer, from)
  {
    var p :| ResolvesVia(answer, p, from, to);
    forall q | IsPath(answer, q) && q[0] == from ensures !StuckVia(answer, q, from) {
      NoPathPastTerminal(answer, p, q, from, to);
      assert q[|q| - 1] == p[|q| - 1];
      assert |q| < |p| ==> Step(answer, p[|q| - 1]) == AliasOf(p[|q|]);
      forall i, j | 0 <= i < j < |q| ensures q[i] != q[j] {
        ResolvingPathDistinct(answer, p, from, to, i, j);
      }
    }
  }

  // ---- the walk ----

  lemma AliasInTargetSet(answer: seq<RR>, n: Name, t: Name)
    requires Step(answer, n) == AliasOf(t)
    ensures t in TargetSet(answer)
  {
    var ts := Targets(answer, n);
    assert t in ts;
    TargetsMember(answer, n, t);
  }

  lemma SubsetCard<T>(a: set<T>, b: set<T>)
    requires a <= b
    ensures |a| <= |b|
  {
    if a != {} {
      var x :| x in a;
      SubsetCard(a - {x}, b - {x});
    }
  }

  /** The walk has come along the path `p` from `from` to `n`; the names before `n` have been visited. */
  ghost predicate Walked(answer: seq<RR>, p: seq<Name>, visited: set<Name>, from: Name, n: Name) {
    && IsPath(answer, p) && p[0] == from && p[|p| - 1] == n
    && forall x :: x in visited <==> x in p[..|p| - 1]
  }

  lemma WalkOn(answer: seq<RR>, p: seq<Name>, visited: set<Name>, from: Name, n: Name, t: Name)
    requires Walked(answer, p, visited, from, n) && Step(answer, n) == AliasOf(t)
    ensures Walked(answer, p + [t], visited + {n}, from, t)
  {
    var q := p + [t];
    assert forall i | 0 <= i < |p| :: q[i] == p[i];
    assert q[..|q| - 1] == p[..|p| - 1] + [n];
  }

  lemma WalkStops(answer: seq<RR>, p: seq<Name>, visited: set<Name>, from: Name, n: Name)
    requires Walked(answer, p, visited, from, n)
    ensures n in visited || Step(answer, n) == Ambiguous ==> Stuck(answer, from)
    ensures Step(answer, n) == NoAlias ==> ResolvesTo(answer, from, n) && !Stuck(answer, from)
  {
    if n in visited {
      var i :| 0 <= i < |p| - 1 && p[i] == n;
      assert StuckVia(answer, p, from);
    } else if Step(answer, n) == Ambiguous {
      assert StuckVia(answer, p, from);
    }
    if Step(answer, n) == NoAlias {
      assert ResolvesVia(answer, p, from, n);
      NeverBoth(answer, from, n);
    }
  }

  /** A walk ends or gets stuck: every new name it comes to is one of finitely many targets. */
  lemma {:induction false} WalkEnds(answer: seq<RR>, p: seq<Name>, visited: set<Name>, from: Name, n: Name)
    requires Walked(answer, p, visited, from, n)
    requires visited + {n} <= TargetSet(answer) + {from}
    ensures Stuck(answer, from) || exists to :: ResolvesTo(answer, from, to)
    decreases |TargetSet(answer) + {from}| - |visited|
  {
    WalkStops(answer, p, visited, from, n);
    if n !in visited && Step(answer, n).AliasOf? {
      var t := Step(answer, n).target;
      AliasInTargetSet(answer, n, t);
      WalkOn(answer, p, visited, from, n, t);
      SubsetCard(visited + {n}, TargetSet(answer) + {from});
      WalkEnds(answer, p + [t], visited + {n}, from, t);
    }
  }

  /** Every name either resolves or is stuck, and never both. */
  lemma ResolvesOrStuck(answer: seq<RR>, from: Name)
    ensures Stuck(answer, from) <==> !exists to :: ResolvesTo(answer, from, to)
  {
    assert Walked(answer, [from], {}, from, from);
    WalkEnds(answer, [from], {}, from, from);
    forall to | ResolvesTo(answer, from, to) ensures !Stuck(answer, from) {
      NeverBoth(answer, from, to);
    }
  }

  /** cache.go:87-104. `rounds` counts the loop's iterations. */
  method CanonicalName(answer: seq<RR>, name: Name) returns (terminal: Name, ok: bool, ghost rounds: nat)
    ensures ok ==> ResolvesTo(answer, Fold(name), Fold(terminal))
    ensures !ok <==> Stuck(answer, Fold(name))
    ensures rounds <= |TargetSet(answer)| + 2
  {
    ghost var universe := TargetSet(answer) + {Fold(name)};
    ghost var p := [Fold(name)];
    var visited: set<Name> := {};
    terminal := name;
    rounds := 0;
    while true
      invariant Walked(answer, p, visited, Fold(name), Fold(terminal))
      invariant visited <= universe && Fold(terminal) in universe
      invariant rounds == |visited|
      decreases |universe| - |visited|
    {
      rounds := rounds + 1;
      SubsetCard(visited, universe);
      WalkStops(answer, p, visited, Fold(name), Fold(terminal));
      if Fold(terminal) in visited {
        return terminal, false, rounds;
      }
      SubsetCard(visited + {Fold(terminal)}, universe);
      ghost var before := visited;
      visited := visited + {Fold(terminal)};

      var target, unique := UniqueCNAMETarget(answer, terminal);
      if !unique {
        return terminal, false, rounds;
      }
      if target == [] {
        return terminal, true, rounds;
      }
      AliasInTargetSet(answer, Fold(terminal), Fold(target));
      WalkOn(answer, p, before, Fold(name), Fold(terminal), Fold(target));
      p := p + [Fold(target)];
      terminal := target;
    }
  }
}
