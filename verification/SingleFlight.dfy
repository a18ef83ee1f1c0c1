/**
The single-flight discipline of the detached writes and evictions (cache.go:321-330,
redis_cache.go:382-396): the table of leaders and the phases of the jobs agree, so no
instance has two commands for one key under way.
*/
module SingleFlight {
  import opened Protocol

  predicate Active(p: Phase) {
    p == Leading || p == Landed
  }

  /** `keys[j]` is the instance and key of job `j`. */
  ghost predicate FlightsOk(keys: seq<(nat, string)>, phase: seq<Phase>, table: Flights) {
    && |keys| == |phase|
    && (forall k | k in table :: table[k] < |keys| && keys[table[k]] == k && Active(phase[table[k]]))
    && (forall j | 0 <= j < |keys| :: Active(phase[j]) ==> keys[j] in table && table[keys[j]] == j)
  }

  /** At most one job of an instance and key is under way. */
  lemma OneLeader(keys: seq<(nat, string)>, phase: seq<Phase>, table: Flights, i: nat, j: nat)
    requires FlightsOk(keys, phase, table)
    requires i < |keys| && j < |keys| && keys[i] == keys[j] && Active(phase[i]) && Active(phase[j])
    ensures i == j
  {
    assert table[keys[i]] == i && table[keys[j]] == j;
  }

  lemma SpawnKeeps(keys: seq<(nat, string)>, phase: seq<Phase>, table: Flights, k: (nat, string))
    requires FlightsOk(keys, phase, table)
    ensures FlightsOk(keys + [k], phase + [Queued], table)
  {
  }

  lemma LeadKeeps(keys: seq<(nat, string)>, phase: seq<Phase>, table: Flights, j: nat)
    requires FlightsOk(keys, phase, table)
    requires j < |keys| && phase[j] == Queued && keys[j] !in table
    ensures FlightsOk(keys, phase[j := Leading], table[keys[j] := j])
  {
  }

  lemma JoinKeeps(keys: seq<(nat, string)>, phase: seq<Phase>, table: Flights, j: nat)
    requires FlightsOk(keys, phase, table)
    requires j < |keys| && phase[j] == Queued
    ensures FlightsOk(keys, phase[j := Over], table)
  {
  }

  lemma LandKeeps(keys: seq<(nat, string)>, phase: seq<Phase>, table: Flights, j: nat)
    requires FlightsOk(keys, phase, table)
    requires j < |keys| && phase[j] == Leading
    ensures FlightsOk(keys, phase[j := Landed], table)
  {
  }

  lemma EndKeeps(keys: seq<(nat, string)>, phase: seq<Phase>, table: Flights, j: nat)
    requires FlightsOk(keys, phase, table)
    requires j < |keys| && Active(phase[j])
    ensures FlightsOk(keys, phase[j := Over], table - {keys[j]})
  {
    forall i | 0 <= i < |keys| && Active(phase[j := Over][i])
      ensures keys[i] in table - {keys[j]} && (table - {keys[j]})[keys[i]] == i
    {
      assert table[keys[i]] == i && table[keys[j]] == j;
    }
  }
}
