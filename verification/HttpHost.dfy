/**
 The hostname parameter of a probe: it is put into a copy of the module's headers, and from there
 becomes the request host and the default TLS server name.

 Go maps are references, so header maps are objects here: a module copy shares them.
 */
module HttpHost {
  import opened Wrappers

  class HeaderMap {
    var entries: map<string, string>

    constructor (entries: map<string, string>)
      ensures this.entries == entries
    {
      this.entries := entries;
    }
  }

  /** The part of a module that probes edit; the record is copied for each probe, the map behind it is not. */
  datatype Module = Module(headers: HeaderMap?, serverName: string)

  /** Canonicalises to "Host". */
  predicate IsHost(name: string) {
    |name| == 4 && name[0] in {'h', 'H'} && name[1] in {'o', 'O'} && name[2] in {'s', 'S'} && name[3] in {'t', 'T'}
  }

  /** In any mixture of cases. */
  lemma IsHostIff(name: string)
    ensures IsHost(name) <==> |name| == 4 && forall i :: 0 <= i < 4 ==> name[i] == "host"[i] || name[i] == "HOST"[i]
  {
  }

  ghost function EntriesOf(m: Module): map<string, string>
    reads m.headers
  {
    if m.headers == null then map[] else m.headers.entries
  }

  predicate Conflicts(entries: map<string, string>, hostname: string) {
    exists k :: k in entries && IsHost(k) && entries[k] != hostname
  }

  /**
   setHTTPHost: copy the headers one by one, in any order, and add the host. It fails exactly if the
   module already names another host, and never writes to the shared map.
   */
  method SetHTTPHost(hostname: string, m: Module) returns (r: Option<Module>)
    ensures r.None? <==> Conflicts(EntriesOf(m), hostname)
    ensures r.Some? ==> r.value.headers != null && fresh(r.value.headers) && r.value.serverName == m.serverName
    ensures r.Some? ==> r.value.headers.entries == EntriesOf(m)["Host" := hostname]
  {
    var headers := new HeaderMap(map[]);
    if m.headers != null {
      var left := m.headers.entries.Keys;
      while left != {}
        invariant left <= m.headers.entries.Keys
        invariant headers.entries == map k | k in m.headers.entries && k !in left :: m.headers.entries[k]
        invariant forall k :: k in headers.entries && IsHost(k) ==> headers.entries[k] == hostname
        decreases |left|
      {
        var name :| name in left;
        var value := m.headers.entries[name];
        if IsHost(name) && value != hostname {
          return None;
        }
        headers.entries := headers.entries[name := value];
        left := left - {name};
      }
      assert headers.entries == m.headers.entries;
    }
    headers.entries := headers.entries["Host" := hostname];
    return Some(m.(headers := headers));
  }

  // ----- what a probe makes of the headers -----

  /** An enumeration of a map's keys, in the order in which a loop happens to visit them. */
  ghost predicate Enumerates(order: seq<string>, entries: map<string, string>) {
    (forall k :: k in order <==> k in entries) && forall i, j :: 0 <= i < j < |order| ==> order[i] != order[j]
  }

  /** The loops over the headers that set the request host and the server name: the last Host key visited wins. */
  function HostFrom(order: seq<string>, entries: map<string, string>, default: string): string
    requires forall k :: k in order ==> k in entries
  {
    if order == [] then default
    else
      var last := order[|order| - 1];
      if IsHost(last) then entries[last] else HostFrom(order[..|order| - 1], entries, default)
  }

  function ServerNameFrom(
    order: seq<string>, entries: map<string, string>, configured: string, targetHost: string): string
    requires forall k :: k in order ==> k in entries
  {
    if configured != "" then configured else HostFrom(order, entries, targetHost)
  }

  lemma {:induction false} HostFromUniform(
    order: seq<string>, entries: map<string, string>, default: string, host: string)
    requires forall k :: k in order ==> k in entries
    requires forall k :: k in order && IsHost(k) ==> entries[k] == host
    ensures HostFrom(order, entries, default) == if exists k :: k in order && IsHost(k) then host else default
  {
    if order != [] {
      var front, last := order[..|order| - 1], order[|order| - 1];
      assert order == front + [last];
      if IsHost(last) {
        assert last in order;
      } else {
        HostFromUniform(front, entries, default, host);
      }
    }
  }

  /**
   After setHTTPHost succeeds, every key that canonicalises to Host holds the requested hostname, so
   the request host is that hostname for every iteration order, and so is the server name unless one
   is configured.
   */
  lemma HostnameReachesRequest(
    entries: map<string, string>, hostname: string, order: seq<string>, configured: string, default: string)
    requires !Conflicts(entries, hostname) && Enumerates(order, entries["Host" := hostname])
    ensures HostFrom(order, entries["Host" := hostname], default) == hostname
    ensures ServerNameFrom(order, entries["Host" := hostname], configured, default) ==
              if configured == "" then hostname else configured
  {
    var updated := entries["Host" := hostname];
    forall k | k in order && IsHost(k) ensures updated[k] == hostname {
      assert k in updated;
    }
    assert "Host" in order;
    HostFromUniform(order, updated, default, hostname);
  }

  /** In general the host does not depend on the iteration order exactly if all Host keys hold the same value. */
  lemma OrderIrrelevantIff(entries: map<string, string>, order: seq<string>, default: string)
    requires Enumerates(order, entries)
    ensures (forall other :: Enumerates(other, entries) ==>
                              HostFrom(other, entries, default) == HostFrom(order, entries, default))
            <==> forall a, b :: a in entries && b in entries && IsHost(a) && IsHost(b) ==> entries[a] == entries[b]
  {
    if forall a, b :: a in entries && b in entries && IsHost(a) && IsHost(b) ==> entries[a] == entries[b] {
      if k :| k in entries && IsHost(k) {
        forall other | Enumerates(other, entries) ensures HostFrom(other, entries, default) == entries[k] {
          HostFromUniform(other, entries, default, entries[k]);
          assert k in other;
        }
      } else {
        forall other | Enumerates(other, entries) ensures HostFrom(other, entries, default) == default {
          HostFromUniform(other, entries, default, default);
        }
      }
    } else {
      var a, b :| a in entries && b in entries && IsHost(a) && IsHost(b) && entries[a] != entries[b];
      MoveLast(order, entries, a, default);
      MoveLast(order, entries, b, default);
    }
  }

  function SwapLast(order: seq<string>, i: nat): seq<string>
    requires i < |order|
  {
    order[i := order[|order| - 1]][|order| - 1 := order[i]]
  }

  lemma SwapLastEnumerates(order: seq<string>, entries: map<string, string>, i: nat)
    requires Enumerates(order, entries) && i < |order|
    ensures Enumerates(SwapLast(order, i), entries)
  {
    var n, other := |order|, SwapLast(order, i);
    forall x ensures x in other <==> x in order {
      if x in order {
        var p :| 0 <= p < n && order[p] == x;
        assert x == other[if p == i then n - 1 else if p == n - 1 then i else p];
      }
    }
  }

  /** Any key can come last. */
  lemma MoveLast(order: seq<string>, entries: map<string, string>, k: string, default: string)
    requires Enumerates(order, entries) && k in entries && IsHost(k)
    ensures exists other :: Enumerates(other, entries) && HostFrom(other, entries, default) == entries[k]
  {
    assert k in order;
    var i :| 0 <= i < |order| && order[i] == k;
    var other := SwapLast(order, i);
    SwapLastEnumerates(order, entries, i);
    assert other[|other| - 1] == k;
    assert HostFrom(other, entries, default) == entries[k];
  }

  /** Any number of probes, each on its own copy of the shared module: the shared headers never change. */
  method Probes(shared: Module, hostnames: seq<string>) returns (hosts: seq<Option<string>>)
    ensures EntriesOf(shared) == old(EntriesOf(shared))
    ensures |hosts| == |hostnames|
    ensures forall i :: 0 <= i < |hosts| ==>
              hosts[i] == if Conflicts(EntriesOf(shared), hostnames[i]) then None else Some(hostnames[i])
  {
    hosts := [];
    for i := 0 to |hostnames|
      invariant |hosts| == i
      invariant forall k :: 0 <= k < i ==>
                  hosts[k] == if Conflicts(EntriesOf(shared), hostnames[k]) then None else Some(hostnames[k])
    {
      var copy := SetHTTPHost(hostnames[i], shared);
      hosts := hosts + [if copy.None? then None else Some(copy.value.headers.entries["Host"])];
    }
  }
}
