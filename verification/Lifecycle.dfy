/**
The Redis clients of an instance (redis_cache.go:187-296, readpool.go): which are built
for which topology, and that each of them is closed once. Whether a client answers a ping
and whether closing it fails are given with the client.
*/
module Lifecycle {
  import opened Setup

  class RedisClient {
    const addr: string
    const up: bool
    const closeFails: bool
    var closes: nat

    constructor (addr: string, up: bool, closeFails: bool)
      ensures this.addr == addr && this.up == up && this.closeFails == closeFails && closes == 0
    {
      this.addr, this.up, this.closeFails := addr, up, closeFails;
      closes := 0;
    }

    method Close() returns (failed: bool)
      modifies this
      ensures closes == old(closes) + 1 && failed == closeFails
    {
      closes := closes + 1;
      failed := closeFails;
    }
  }

  /** A client per place, all different. */
  ghost predicate Distinct(cs: seq<RedisClient>) {
    forall i, j | 0 <= i < j < |cs| :: cs[i] != cs[j]
  }

  ghost predicate SomeFails(cs: set<RedisClient>) {
    exists c | c in cs :: c.closeFails
  }

  class ReadPool {
    const clients: seq<RedisClient>

    ghost predicate Valid() {
      |clients| >= 2 && Distinct(clients)
    }

    constructor (cs: seq<RedisClient>)
      requires |cs| >= 2 && Distinct(cs)
      ensures Valid() && clients == cs
    {
      clients := cs;
    }

    /** readpool.go:22-24, for a number drawn below the number of clients: each client has its own number. */
    method Pick(n: nat) returns (c: RedisClient)
      requires Valid() && n < |clients|
      ensures c == clients[n] && forall k | 0 <= k < |clients| :: clients[k] == c ==> k == n
    {
      c := clients[n];
    }

    /** readpool.go:44-55. */
    method Close() returns (failed: bool)
      requires Valid()
      modifies set c | c in clients
      ensures forall c | c in clients :: c.closes == old(c.closes) + 1
      ensures failed <==> SomeFails(set c | c in clients)
    {
      var errs := 0;
      for i := 0 to |clients|
        invariant forall j | 0 <= j < i :: clients[j].closes == old(clients[j].closes) + 1
        invariant forall j | i <= j < |clients| :: clients[j].closes == old(clients[j].closes)
        invariant errs > 0 <==> exists j | 0 <= j < i :: clients[j].closeFails
      {
        var f := clients[i].Close();
        if f {
          errs := errs + 1;
        }
      }
      failed := errs > 0;
    }
  }

  class Connections {
    var writeClient: RedisClient?
    var readClient: RedisClient?
    var readPool: ReadPool?

    constructor ()
      ensures writeClient == null && readClient == null && readPool == null
    {
      writeClient, readClient, readPool := null, null, null;
    }

    /** Every client there is. */
    ghost function Clients(): set<RedisClient>
      reads this
    {
      (if writeClient == null then {} else {writeClient}) +
      (if readClient == null then {} else {readClient}) +
      (if readPool == null then {} else set c | c in readPool.clients)
    }

    /** Writes have a client; reads have a client or a pool, not both; the pool's clients are its own. */
    ghost predicate Built()
      reads this
    {
      && writeClient != null
      && (readClient == null) != (readPool == null)
      && (readPool != null ==> readPool.Valid() && writeClient !in readPool.clients)
    }

    /** The clients are those of the configured topology. */
    ghost predicate BuiltFor(c: Config)
      reads this
    {
      && Built()
      && if c.clusterAddrs != [] || c.masterName != "" then
           readClient == writeClient
         else
           && writeClient.addr == c.addr
           && (c.readEndpoints == [] ==> readClient == writeClient)
           && (|c.readEndpoints| == 1 ==>
                 readClient != null && readClient != writeClient && readClient.addr == c.readEndpoints[0])
           && (|c.readEndpoints| > 1 ==>
                 && readPool != null && |readPool.clients| == |c.readEndpoints|
                 && forall i | 0 <= i < |c.readEndpoints| :: readPool.clients[i].addr == c.readEndpoints[i])
    }

    /**
    redis_cache.go:194-246. `up` and `closeFails` say how the client of an address will
    behave; the cluster and sentinel clients find their nodes themselves.
    */
    method BuildClients(c: Config, tlsOk: bool, up: string -> bool, closeFails: string -> bool) returns (ok: bool)
      requires writeClient == null && readClient == null && readPool == null
      modifies this
      ensures ok <==> tlsOk
      ensures !ok ==> Clients() == {}
      ensures ok ==> BuiltFor(c) && forall x | x in Clients() :: fresh(x) && x.closes == 0
    {
      if !tlsOk {
        return false;
      }
      if |c.clusterAddrs| > 0 {
        var client := new RedisClient(c.clusterAddrs[0], up(c.clusterAddrs[0]), closeFails(c.clusterAddrs[0]));
        writeClient := client;
        readClient := client;
      } else if c.masterName != "" {
        var client := new RedisClient(c.masterName, up(c.masterName), closeFails(c.masterName));
        writeClient := client;
        readClient := client;
      } else if |c.readEndpoints| > 0 {
        writeClient := new RedisClient(c.addr, up(c.addr), closeFails(c.addr));
        if |c.readEndpoints| == 1 {
          var ep := c.readEndpoints[0];
          readClient := new RedisClient(ep, up(ep), closeFails(ep));
        } else {
          var clients: seq<RedisClient> := [];
          for i := 0 to |c.readEndpoints|
            invariant writeClient != null && fresh(writeClient) && writeClient.addr == c.addr && writeClient.closes == 0
            invariant readClient == null && readPool == null
            invariant |clients| == i && Distinct(clients) && writeClient !in clients
            invariant forall j | 0 <= j < i ::
                        fresh(clients[j]) && clients[j].closes == 0 && clients[j].addr == c.readEndpoints[j]
          {
            var ep := c.readEndpoints[i];
            var client := new RedisClient(ep, up(ep), closeFails(ep));
            clients := clients + [client];
          }
          readPool := new ReadPool(clients);
        }
      } else {
        var client := new RedisClient(c.addr, up(c.addr), closeFails(c.addr));
        writeClient := client;
        readClient := client;
      }
      return true;
    }

    /** redis_cache.go:253-272. A client that does not answer on the read side is only reported. */
    method VerifyConnectivity(c: Config) returns (ok: bool, pinged: seq<RedisClient>)
      requires BuiltFor(c)
      ensures ok == writeClient.up
      ensures (set x | x in pinged) == if ok then Clients() else {writeClient}
      ensures Distinct(pinged)
    {
      pinged := [writeClient];
      if !writeClient.up {
        return false, pinged;
      }
      if readClient != null && readClient != writeClient {
        var readAddr := c.readEndpoints[0];
        assert readAddr == readClient.addr;
        pinged := pinged + [readClient];
      }
      if readPool != null {
        pinged := pinged + readPool.clients;
      }
      return true, pinged;
    }

    /** redis_cache.go:275-296. Every client is closed exactly once, and every failure is reported. */
    method Close() returns (failed: bool)
      requires writeClient == null || Built()
      requires writeClient == null ==> readClient == null && readPool == null
      modifies Clients()
      ensures forall c | c in Clients() :: c.closes == old(c.closes) + 1
      ensures failed <==> SomeFails(Clients())
    {
      var errs := 0;
      if writeClient != null {
        var f := writeClient.Close();
        if f {
          errs := errs + 1;
        }
      }
      if readClient != null && readClient != writeClient {
        var f := readClient.Close();
        if f {
          errs := errs + 1;
        }
      }
      if readPool != null {
        var f := readPool.Close();
        if f {
          errs := errs + 1;
        }
      }
      failed := errs > 0;
    }
  }
}
