# redis_cache: a verified model

`redis_cache` is a CoreDNS plugin that keeps DNS replies in a Redis shared by a fleet of
CoreDNS instances. This project models what the plugin decides and does, in Dafny, and
proves what follows for every message, every configuration and every run of the fleet.

The hash, the packing of messages and the zone test are parameters. Nothing assumes that
the hash is free of collisions. Packing is assumed to be undone by unpacking and to start
with the header of section 4.1.1 of RFC 1035 (`Payload.Faithful`; for any messages there is
such a codec, `Payload.FaithfulCodecExists`).

## The modules

| file | what it holds |
|---|---|
| `Wrappers`, `Dns`, `Messages` | optional values; messages as values, and the message object whose fields are overwritten |
| `Aliases`, `Cacheability`, `RecordOrder` | the CNAME walk, the decision whether a reply may be cached, and what it depends on |
| `Ttl` | the lifetime of a reply and the TTLs written back into it |
| `Keys`, `Payload` | Redis keys and Redis values |
| `Decisions`, `Plugin` | what one instance makes of one request and one reply, as functions and as the code that changes messages, counters and queues |
| `Redis`, `Protocol` | the store with lagging replicas, and the fleet as a state machine |
| `SingleFlight`, `Invariants`, `Counting`, `Theorems`, `Progress` | what every step keeps, what therefore holds in every run, and what the steps bring about |
| `Setup`, `DirectiveOrder`, `Topology`, `Fields`, `Configured`, `Lifecycle` | the configuration block, which blocks are accepted and what they set, the fleet they make, and the Redis clients from building to closing |

In the state machine a request's GET and TTL are two steps, each on the primary or on a replica
that lags arbitrarily; an upstream reply, a detached SET or eviction entering single-flight,
its command reaching Redis and its end are steps of their own; so are the clock, replication
and writes by anything other than the plugin. Steps of all instances interleave freely. The
object methods of `Plugin` are specified by the same functions the steps use.

## Where a property needs a condition

- The cacheability decision depends on the order of the answer records when a CNAME without
  target (empty record data) stands beside CNAMEs with one target. `RecordOrder.OrderTheorem`
  gives the exact condition, `RecordOrder.OrderExample` an instance, and
  `RecordOrder.TargetsPresent` the usual case in which no CNAME lacks a target.
- The plugin's README promises `max(min, min(record_TTL, max))` for each response. The code starts
  its scan from one hour whatever the configured maximum, takes five seconds for a reply without
  answer and authority, the first SOA minimum for a denial, and zero for any other type.
  `Ttl.DocumentedClamp` says for every type and every message with a record exactly when the
  promise holds; `Ttl.HourExample`, `Ttl.DenialExample`, `Ttl.FailSafeExample` and
  `Ttl.OtherTypeExample` break it in the four ways. A server failure is therefore cached only
  with a positive floor, and then for exactly the floor (`Decisions.OtherTypePlan`).
- The TTL sent to the first client equals the expiry given to Redis exactly when the floor is
  below 2^32 seconds (`Ttl.FirstClientTTLExact`, `Theorems.FirstClientSeesExpiry`;
  `Ttl.FirstClientTTLExample` is a floor beyond).
- Redis rounds its TTL reply to the nearest second, so a served TTL can outlive its entry by up
  to half a second, exactly when the time left rounds up (`Theorems.TtlRounding` for one reply,
  `Theorems.TtlNoDrift` for every lookup, `Theorems.TtlRoundingExample` for an instance).
- A bare integer TTL is multiplied in 64 bits. `Setup.BareTTL` gives exactly which integers are
  accepted and as what; `Setup.BareTTLFaithful` when as themselves.
- Repeating `success` or `denial` can put the cap below the floor, and the lifetime above the
  cap: `DirectiveOrder.AcceptedBounds`, `DirectiveOrder.RepeatedSuccessExample`,
  `Ttl.LifetimeBounds`. The theorems about the fleet hold for such configurations too.
- A lookup that finds a value of another slot reports the value's first question. It comes down
  exactly on a value that decodes to no question at all (`Decisions.CrashExactly`), as any packed
  response without question does (`Decisions.QuestionlessCrashes`). The plugin never writes one
  (`Theorems.NoCrash`).
- Names longer than 256 octets share a key with others: `Keys.PreimageEqual`, `Keys.LongNamesCollide`.
- The plugin's README.md:136 says that `endpoint` is ignored in cluster mode, against its line 92,
  which says that it is rejected. It is rejected, whatever else the block holds
  (`Topology.EndpointRefused`, `Topology.EndpointRefusedExample`).
- The plugin's README.md:137 says that `read_from` is valid only with `cluster`. An accepted block
  with `read_from` has a `cluster` directive if and only if its last `sentinel` names no master
  (`Topology.ReadFromMode`, `Topology.ReadFromExample`).
- The plugin's README.md:92-96 says that cluster mode rejects `sentinel`, and that `sentinel`
  rejects `endpoint`. Once the last `sentinel` names a master that is so
  (`Topology.SentinelRefused`); one with an empty name is accepted beside either
  (`Topology.EmptyMasterExample`). `Topology.AcceptedExactly` is the exact condition.

## Model

| member | source | states |
|---|---|---|
| Dns.FoldExactly | cache.go:79-129 | two names fold to one exactly if they agree letter by letter, a capital with its small letter |
| Dns.EdnsIsLast | serialization.go:32-78 | the OPT record in force is the one after which no other comes |
| Dns.DoBitExactly | serialization.go:32-34 | the DO bit is bit 15 of the TTL field of an OPT record, whatever the others are |
| Aliases.UniqueCNAMETarget | cache.go:106-118 | the result is the reading of the owner's CNAME targets up to letter case: none, one target after any number of empty ones, or ambiguous |
| Aliases.CanonicalName | cache.go:87-104 | ok exactly when a path of unambiguous aliases ends at a name without alias, and then that name; not ok exactly when a path meets an ambiguous owner or a name again; at most distinct targets + 2 rounds |
| Aliases.ResolvesOrStuck | cache.go:87-104 | every name either resolves or is stuck, and never both |
| Aliases.TerminalUnique | cache.go:87-104 | a name resolves to at most one name |
| Aliases.ResolvingPathDistinct | cache.go:88-93 | a resolving path visits no name twice |
| Cacheability.HasSOA | cache.go:47-54 | true exactly when the authority section has an SOA record |
| Cacheability.IsNODATA | cache.go:58-85 | true exactly for a non-empty answer, type not ANY, without a record of the queried type where the aliases lead (at the question name for CNAME questions) |
| Cacheability.Cacheable | cache.go:28-45 | the decision is the declarative one, for every message and type |
| Cacheability.AcceptsUpToCase | cache.go:28-129 | respelling question, owner names and targets, capitals for small letters anywhere, does not change the decision |
| Cacheability.PlainAnswer | cache.go:58-85 | without an alias at the question name, or for a CNAME question, the answer counts exactly if it has a record of the type at that name in some spelling |
| Cacheability.AliasedAnswer | cache.go:58-118 | with one alias there, exactly if it has one at the target |
| RecordOrder.OrderTheorem | cache.go:28-129 | all orders of the answer get one decision if and only if no targetless CNAME decides it |
| RecordOrder.OrderIrrelevant | cache.go:58-118 | where no targetless CNAME decides, every order of the answer is judged alike |
| RecordOrder.OrderRelevant | cache.go:106-118 | where one does, one extreme order is accepted and the other refused |
| RecordOrder.OrderExample | cache.go:106-118 | two orders of the same three records with different decisions |
| RecordOrder.TargetsPresent | cache.go:28-129 | if every CNAME has a target, every order of the answer is judged alike |
| Ttl.MinMsgTTL | ttl.go:11-45 | one hour or the least non-OPT TTL for NoError and Delegation; the first SOA minimum, else one hour, for NameError and NoData; five seconds without answer and authority; else zero |
| Ttl.ScanSection | ttl.go:27-42 | one section continues the scan, or it stops at the section's first SOA record of a denial |
| Ttl.MsgTTLUnique | ttl.go:11-45 | that value is unique, a whole number of seconds and below 2^32 seconds |
| Ttl.MsgTTLByType | ttl.go:11-45 | which of the four the message TTL is, type by type, over answer, authority and additional records in that order |
| Ttl.LifetimeByType | cache.go:264-279 | denials are clamped into the denial bounds, every other reply into the success bounds |
| Ttl.ClampedTTL | cache.go:264-279 | the lifetime is max(floor, min(cap, message TTL)) of the denial bounds exactly for NameError and NoData, else of the success bounds |
| Ttl.LifetimeBounds | cache.go:271-279 | a lifetime is a whole number of seconds, at least the floor, and at most the cap if and only if the floor is |
| Ttl.FirstClientTTLExact | cache.go:306-310 | the 32-bit seconds sent to the client are the lifetime if and only if the floor is below 2^32 seconds |
| Ttl.FirstClientTTLExample | cache.go:306-310 | a floor beyond that, under which the client sees another TTL than Redis |
| Ttl.DocumentedClamp | ttl.go:11-45 | for every type and every message with a record, the documented clamp holds if and only if the hour, the five seconds, the first SOA minimum or the zero that the scan takes instead is clamped alike |
| Ttl.HourExample | ttl.go:25-40 | a record of two hours under a cap of a day, cached for one hour |
| Ttl.DenialExample | ttl.go:33-36 | a denial with an SOA record of one minute, cached for the ten minutes of its minimum |
| Ttl.FailSafeExample | ttl.go:16-19 | an additional record of two hours alone, cached for five seconds |
| Ttl.OtherTypeExample | ttl.go:12-14 | a record of two hours in a server failure, which without a floor has no lifetime |
| Ttl.OtherTypeLifetime | ttl.go:12-14 | a reply neither positive nor a denial lives for exactly the floor |
| Ttl.SetMsgTTL | ttl.go:51-63 | every answer and authority record and every non-OPT additional record gets the TTL, all else stays |
| Ttl.EdnsSurvives | ttl.go:58-62 | setting TTLs leaves the OPT record in force, and so the DO bit, alone |
| Keys.LowerCased | cache.go:189-203 | the buffer holds the first 256 octets of the name, letter by letter, without capitals |
| Keys.Key | cache.go:175-212 | the key is prefix, colon and the hex of the hash of header and folded name, without colon for an empty prefix |
| Keys.PreimageEqual | cache.go:176-203 | hashed bytes are equal if and only if class, type, DO, CD and the folded, cut names are |
| Keys.PreimageLayout | cache.go:176-203 | class and type in two octets each, high first, then DO, CD and the name in small letters, cut at 256 octets |
| Keys.KeyUpToCase | cache.go:189-203 | spellings of one name hash the same bytes and share a key |
| Keys.PreimageInjective | cache.go:176-203 | for names of at most 256 octets, equal hashed bytes are equal slots |
| Keys.LongNamesCollide | cache.go:191-195 | names that differ only beyond 256 octets share a key under every hash |
| Keys.KeyStringInjective | cache.go:205-211 | a key determines its prefix and its hash sum |
| Keys.KeyStringLayout | cache.go:205-211 | a key is the prefix and a colon, unless the prefix is empty, and the sum in sixteen small hexadecimal digits, high first |
| Keys.SharedKey | cache.go:175-212 | one key used by two instances means one prefix and one hash sum |
| Payload.CompactOPT | serialization.go:46-52 | the in-place compaction leaves the non-OPT records, in order, at the front |
| Payload.MsgWithoutOPT | serialization.go:40-54 | a new message without OPT records; the given one is unchanged |
| Payload.WithoutOPTFilters | serialization.go:46-52 | OPT records go, every other record stays as often as it occurred |
| Payload.WithoutOPTInOrder | serialization.go:46-52 | the records kept stand at strictly increasing places, exactly those without an OPT record |
| Payload.ToBytes | serialization.go:23-38 | prefix, flag byte with the DO bit, packed message without OPT; failure exactly when packing fails |
| Payload.FromBytes | serialization.go:60-82 | prefixed values yield the flag's DO bit, others the OPT record's; all TTLs replaced; failure exactly on a bare prefix or when unpacking fails |
| Payload.EncodedLayout | serialization.go:14-38 | "RCD2", a flag byte that is 1 for DO, and the packed message without OPT |
| Payload.PrefixedDecoded | serialization.go:61-75 | with that prefix, the low bit of the flag byte is the DO bit and the rest is unpacked; nothing after the prefix is an error |
| Payload.BareDecoded | serialization.go:71-81 | without it, the whole is unpacked and its own OPT record has the DO bit |
| Payload.RoundTrip | serialization.go:23-82 | what is read back is the reply without OPT with the given TTL, and the reply's DO bit |
| Payload.LegacyResponse | serialization.go:9-16 | a packed response never starts with the prefix and is read as itself, with its own DO bit |
| Payload.FaithfulCodecExists | serialization.go:23-82 | the assumption on packing can be met for any messages |
| Decisions.StoredExactly | cache.go:28-45 | a reply is stored if and only if it has one question, the request's in some spelling, is a whole response with the request's CD bit, is cacheable by its type, packs, and has a positive message TTL or floor |
| Decisions.OtherTypePlan | cache.go:271-304 | of the types neither positive nor denials only server failures are stored, exactly with a positive floor, and for that floor |
| Decisions.HitIsStoredReply | redis_cache.go:409-441 | a hit on a stored reply is that reply without OPT, and reply and request have one slot |
| Decisions.StoredReplyJudged | redis_cache.go:404-437 | reading a stored reply is a hit if the request is for its slot and a collision otherwise |
| Decisions.HitExactly | redis_cache.go:427-441 | a value is served if and only if it decodes to a response to the request's question, in some spelling, with the request's CD and DO bits |
| Decisions.CrashExactly | redis_cache.go:428-431 | a lookup comes down exactly on a value that decodes to no question |
| Decisions.QuestionlessCrashes | redis_cache.go:428-431 | every packed response without question brings down every lookup that finds it |
| Decisions.HitTTL | redis_cache.go:355-371 | every record of a hit carries the TTL read from Redis |
| Plugin.SetReplyTo | handler.go:33 | the message in place becomes a reply to the request |
| Plugin.Cache.Get | redis_cache.go:320-372 | message, miss or failure by what Redis answered, and an eviction exactly for empty and undecodable values |
| Plugin.Cache.Lookup | redis_cache.go:409-441 | hit, crash, counters and eviction are those of the judged outcome |
| Plugin.Cache.ResponseMatchesRequest | cache.go:346-350 | true exactly when the reply has one question, equal in name up to case, type and class, the response bit and the request's CD bit |
| Plugin.Cache.ReplyKey | cache.go:242-262 | a key exactly for a cacheable reply: the request's question and CD bit with the reply's DO bit |
| Plugin.Cache.Snapshot | cache.go:259-304 | what is to be stored, from the reply before it is overwritten, and the counters of refusals |
| Plugin.Cache.WriteMsg | cache.go:241-335 | the client gets the reply with its lifetime as TTL; the detached write has the bytes of the reply as it came |
| Plugin.Cache.ServeDNS | handler.go:14-58 | out of zone nothing but the next plugin; in zone one cached message on a hit, else the next plugin with the caching writer |
| Redis.ExpireHolds | redis_cache.go:374-396 | after an EXPIRE 0 a key is absent until a later SET of it |
| SingleFlight.OneLeader | redis_cache.go:35-47 | one table entry per instance and key leaves at most one job under way |
| Invariants.LookupEnds | redis_cache.go:320-372 | a lookup saw live entries of its own key, and the plugin's only after the reply they hold |
| Invariants.UpstreamKeeps | cache.go:241-335 | a reply is recorded and, if to be stored, gets a job with its plan |
| Invariants.LandSetKeeps | redis_cache.go:298-304 | a landing SET stores its job's plan with the plan's expiry |
| Invariants.LandEvictKeeps | redis_cache.go:382-396 | a landing eviction is of the key of its bad read, and the lookup that read it had ended before this write |
| Invariants.StepKeeps | redis_cache.go:320-441 | every step of the fleet keeps the invariant |
| Invariants.Always | redis_cache.go:320-441 | the invariant holds in every state of every run |
| Theorems.StoredEntryConsistent | cache.go:248-303 | every entry the plugin wrote decodes to one question, whose slot with stored DO and CD hashes to the entry's key |
| Theorems.ServeSafety | redis_cache.go:398-441 | whatever is served from an entry of the plugin answers the request's id, opcode and first question with an earlier cacheable reply, TTLs and OPT aside, to the same name letter by letter up to case, type, class and CD, whose DO is the request's; AA is set, and AD only if the reply had it and the request wants it |
| Theorems.ServeSafetyPluginOnly | redis_cache.go:398-441 | without foreign writes that holds of everything ever served |
| Theorems.LiveEntryServed | redis_cache.go:409-441 | a request whose slot has a live entry for that slot is served the reply in it by two reads of the primary |
| Progress.StoreLands | cache.go:241-335 | from any state of any run, a reply to store, its write entering single-flight and its SET leave the reply visible under the key of its slot |
| Progress.CachedIsServed | handler.go:14-58 | after that a request for the slot, at any instance with the same prefix and seed, is served that reply |
| Theorems.PureCollisionCheck | redis_cache.go:404-437 | on an entry of the plugin a lookup hits exactly if the reply in that entry is for the request's slot, collides exactly if the two are different slots with one prefix and one hash sum, and ends in no other way |
| Theorems.NoCollisionNoMismatch | cache.go:251-258 | if no reply so far collides with the request, a lookup that reads an entry of the plugin hits |
| Theorems.TtlRounding | redis_cache.go:355-359 | the rounded TTL is within half a second of the deadline, and not past it exactly if the time left rounds down |
| Theorems.TtlRoundingExample | redis_cache.go:355-359 | an entry of one second read halfway, served for half a second longer than it lives |
| Theorems.ExpiryIsLifetime | cache.go:271-285 | the seconds given to SET are the reply's lifetime, exactly and positive |
| Theorems.FirstClientSeesExpiry | cache.go:306-325 | the first client's TTL is the expiry given to SET, if and only if the floor is below 2^32 seconds, and then every record sent to the client carries it |
| Theorems.TtlNoDrift | redis_cache.go:328-364 | the TTL served is zero if the key was gone, else at most the duration of the entry TTL saw, ending with it up to half a second either way, and not after it exactly if the time left rounded down |
| Theorems.SameEntryUnlessWritten | redis_cache.go:328-337 | TTL sees the entry GET saw, or none once it expired, unless a write of the key lies between what the two nodes had applied |
| Theorems.ServedRecordsTTL | redis_cache.go:355-371 | every record of a served message has the TTL of its lookup |
| Theorems.ServedEndsWithItsEntry | redis_cache.go:328-371 | unless a write of the key lies between the two reads, every record served has TTL zero or one that ends with the very entry the message was read from |
| Theorems.SetAfterReply | cache.go:312-332 | a SET of the plugin comes after the reply it stores |
| Theorems.EntryOutlivesFirstClient | cache.go:306-332 | an entry outlives the TTL given to its first client by exactly the delay of its detached SET, if the floor is below 2^32 seconds |
| Theorems.Drains | cache.go:281-332 | without foreign writes, primary and replicas are empty once the longest duration has passed since the last SET |
| Theorems.OnlySetsAdd | redis_cache.go:298-396 | no step but a SET makes an entry visible on the primary or changes one |
| Theorems.OneInFlight | redis_cache.go:35-47 | no instance ever has two SETs or two evictions of one key under way |
| Counting.StepCounted | cache.go:312-332 | every step keeps one job per reply to store and per bad read, and one command at most per job |
| Counting.ReplyStored | cache.go:312-332 | a reply to store starts exactly one detached write, by its own plan and instance, and no other reply starts one |
| Counting.BadReadEvicts | redis_cache.go:346-435 | a lookup that finds an empty, an undecodable or a colliding value starts exactly one eviction, of its key and by its instance, and no other lookup starts one |
| Counting.SentOnce | redis_cache.go:298-396 | the SET or EXPIRE of a job reaches Redis at most once |
| Counting.CommandsBounded | cache.go:312-332 | Redis never gets more SETs than there were replies to store, nor more evictions than there were bad reads |
| Theorems.EvictionCaused | redis_cache.go:346-370 | every eviction was sent by the instance, and for the key, of a lookup that had ended in a bad read before it and saw no later write; without foreign writes that read was a collision |
| Theorems.EvictionHolds | redis_cache.go:374-396 | an evicted key is absent on the primary until a later SET |
| Progress.BadEntryGoes | redis_cache.go:346-435 | from any state of any run, such a lookup, its eviction entering single-flight and its EXPIRE leave the key absent |
| Theorems.OutcomeOfRead | redis_cache.go:340-370 | a lookup fails exactly if GET failed, misses exactly if nothing was under the key, and tells empty and undecodable values apart |
| Theorems.LookupIsCounted | redis_cache.go:410-439 | each lookup is counted at its instance once, as a hit, as an error for a failed or undecodable read, or as a collision |
| Theorems.OutcomesAddUp | redis_cache.go:409-441 | an instance's lookups are its hits, errors, collisions, misses and, only with foreign writes, crashes |
| Theorems.NoCrash | redis_cache.go:428-431 | without foreign writes no lookup comes down |
| Theorems.RequestFate | handler.go:14-58 | a request in zone is served once without the next plugin or calls it once with the caching writer; out of zone it calls it once, not caching |
| Theorems.PrefixIsolation | cache.go:131-139 | an instance only reads entries written under its own prefix |
| Theorems.WritePrefixIsolation | cache.go:131-139 | two SETs or EXPIREs of one key were sent by instances with one prefix |
| Setup.BareTTL | setup.go:579-592 | a bare integer is accepted as s seconds exactly when it is s plus a multiple of 2^55 and s seconds fit in 64 bits |
| Setup.BareTTLFaithful | setup.go:582-587 | it is accepted as itself exactly when the product does not overflow |
| Setup.BareTTLExample | setup.go:582-587 | an overflowing integer accepted as thirty seconds |
| Setup.TTLExactly | setup.go:579-592 | a TTL text is read as a duration of whole seconds, or as the seconds a bare integer stands for, and as nothing else |
| Setup.ParseBounds | setup.go:111-165 | bounds are accepted exactly with a positive cap and a floor between zero and the cap, and a missing floor keeps the old one |
| Setup.ParseAddrs | setup.go:184-190 | all addresses are appended in order, or the directive fails on a malformed one |
| Setup.ParseRetries | setup.go:332-377 | the block is accepted exactly when every value is, and no retries becomes -1 |
| Setup.ParseDirective | setup.go:110-503 | one directive is accepted exactly when valid on its own and then writes its fields |
| Fields.DirectiveExactly | setup.go:110-503 | which directives are valid on their own, kind by kind |
| Setup.Parse | setup.go:93-559 | the block is the fold of its directives, then the checks across directives |
| Fields.AcceptedFields | setup.go:93-503 | in an accepted configuration the write endpoint, key prefix and seed, read strategy, master, database and credentials are those of the last directive of their kind, the address lists are all addresses in order, the retry fields those of the last lines, and the rest are the defaults |
| Fields.AcceptedBoundsRead | setup.go:111-165 | the bounds are the last cap and the last floor given, with caps of one hour and half an hour by default |
| DirectiveOrder.ParsedAnyOrder | setup.go:109-542 | with no directive repeated, acceptance and configuration do not depend on the order |
| DirectiveOrder.AcceptedBounds | setup.go:111-165 | accepted bounds are whole seconds with positive cap, and valid exactly if the last floor given is at most the last cap |
| DirectiveOrder.RepeatedSuccessExample | setup.go:124-137 | a repeated `success` that leaves the cap below the floor |
| DirectiveOrder.UnrepeatedBounds | setup.go:111-165 | with no directive repeated, accepted bounds are valid |
| Topology.AcceptedExactly | setup.go:506-542 | a block is accepted if and only if each directive is, none belongs to another topology than the one it chooses, and the backoffs of all `retries` lines are in order |
| Topology.EndpointRefused | setup.go:510-516 | a block with `cluster` and `endpoint` is refused, whatever else it holds |
| Topology.EndpointRefusedExample | setup.go:510-516 | a block that is accepted, and refused with an `endpoint` |
| Topology.ReadFromMode | setup.go:509-538 | an accepted block with `read_from` is in cluster mode if and only if it has a `cluster` directive, which is if and only if its last `sentinel` names no master |
| Topology.ReadFromExample | setup.go:523-538 | a `read_from` accepted in sentinel mode |
| Topology.SentinelRefused | setup.go:509-528 | a block whose last `sentinel` names a master is refused with `cluster`, `endpoint` or `read_endpoint`, whatever else it holds |
| Topology.EmptyMasterExample | setup.go:509-528 | a `sentinel` with an empty master name, accepted beside `cluster` and beside `endpoint` |
| Configured.ConfiguredFleet | setup.go:93-165 | instances with accepted blocks, whatever is repeated in them, form a fleet for which the theorems hold |
| Lifecycle.ReadPool.Pick | readpool.go:22-24 | a drawn number below the number of clients picks one of them, and each client has one number |
| Lifecycle.ReadPool.Close | readpool.go:44-55 | every client of the pool is closed once, and a failure reported exactly if one fails |
| Lifecycle.Connections.BuildClients | redis_cache.go:194-246 | a write client, for the configured endpoint outside cluster and sentinel mode, and exactly one of read client and pool of at least two, as the topology says, all new; nothing on a TLS error |
| Lifecycle.Connections.VerifyConnectivity | redis_cache.go:253-272 | every client is pinged once if the write client answers, and the index of the one read endpoint is in range |
| Lifecycle.Connections.Close | redis_cache.go:275-296 | every client is closed exactly once, and a failure reported exactly if one fails |

## Left out

- The Redis client library: connections, timeouts, pool waits, dialers and retries. A command reaches Redis once or fails; a SET that a retry applies twice is not modelled.
- The loss of acknowledged writes when a replica is promoted.
- The wire format with compression: packing and unpacking are assumed to be faithful.
- The classification of replies (`response.Typify`) is an input, with the OPT record in force as the library picks it.
- Records are values: two places of a message that share one record object are not modelled.
- Names outside ASCII, which the message library escapes.
- TLS configuration, log throttling, the error classes of `errReason` and the registration of metrics.
- The directives that only set connection options (`username`, `password`, `timeout`, `pool`, `tcp_keepalive`, `tls*`, `resolver`), address normalisation, zone arguments and the refusal of a second block of a server.
- The raw `Write` of the response writer, which only forwards its bytes, and the insertion of the plugin into the directive list.
