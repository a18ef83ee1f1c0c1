/**
The shared Redis store: a log of writes that the primary has applied in full and each
replica up to some point. Time is in milliseconds.
*/
module Redis {
  import opened Wrappers
  import opened Dns
  import opened Decisions

  /** Which job of which instance wrote an entry; `Foreign` is anything other than the plugin. */
  datatype Origin = FromJob(job: nat) | Foreign

  datatype Op =
    | Set(key: string, value: seq<byte>, deadline: Option<nat>, at: nat, origin: Origin)
    | Expire(key: string, at: nat, job: nat)

  /** The entry of a key after the writes of `log`, expired or not. */
  function Latest(log: seq<Op>, key: string): (r: Option<nat>)
    ensures r.Some? ==> r.value < |log| && log[r.value].Set? && log[r.value].key == key
  {
    if log == [] then None
    else
      var n := |log| - 1;
      if log[n].key != key then Latest(log[..n], key)
      else if log[n].Set? then Some(n)
      else None
  }

  /** A key is gone once its deadline has passed. */
  predicate Live(op: Op, now: nat)
    requires op.Set?
  {
    op.deadline.None? || now <= op.deadline.value
  }

  /** The entry a reader finds, on primary and replica alike. */
  function Visible(log: seq<Op>, key: string, now: nat): (r: Option<nat>)
    ensures r.Some? ==> r.value < |log| && log[r.value].Set? && log[r.value].key == key && Live(log[r.value], now)
  {
    var r := Latest(log, key);
    if r.Some? && Live(log[r.value], now) then r else None
  }

  /** The reply to GET. */
  function GetFrom(log: seq<Op>, key: string, now: nat): GetReply {
    match Visible(log, key, now)
    case None => Nil
    case Some(i) => Value(log[i].value)
  }

  /** The reply to TTL: whole seconds, rounded to nearest. */
  function TtlOf(op: Op, now: nat): int
    requires op.Set? && Live(op, now)
  {
    match op.deadline
    case None => -1
    case Some(d) => (d - now + 500) / 1000
  }

  function TtlFrom(log: seq<Op>, key: string, now: nat): int {
    match Visible(log, key, now)
    case None => -2
    case Some(i) => TtlOf(log[i], now)
  }

  /** An expired or evicted key stays away until a later SET of it. */
  lemma {:induction false} ExpireHolds(log: seq<Op>, i: nat, key: string)
    requires i < |log| && log[i].Expire? && log[i].key == key
    requires forall j | i < j < |log| :: !(log[j].Set? && log[j].key == key)
    ensures Latest(log, key) == None
  {
    var n := |log| - 1;
    if i < n && log[n].key != key {
      ExpireHolds(log[..n], i, key);
    }
  }

  /** Writes of other keys do not change the entry of a key. */
  lemma {:induction false} LatestUnwritten(log: seq<Op>, p: nat, key: string)
    requires p <= |log| && forall j | p <= j < |log| :: log[j].key != key
    ensures Latest(log, key) == Latest(log[..p], key)
    decreases |log|
  {
    if p < |log| {
      var n := |log| - 1;
      assert log[..n][..p] == log[..p];
      LatestUnwritten(log[..n], p, key);
    } else {
      assert log[..p] == log;
    }
  }
}
