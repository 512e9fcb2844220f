/** Reading the tenant's subdomain off the `Host` header. */
module Hosts {
  import opened Text

  /** The development hosts the middleware serves without a subdomain. */
  const LocalHosts: seq<string> := ["localhost", "127.0.0.1"]

  /** `request.get_host().split(':')[0]`: the host with any port removed. */
  function HostName(rawHost: string): (h: string)
    ensures ':' !in h
    ensures IsPrefix(h, rawHost)
    ensures ':' in rawHost ==> rawHost[|h|] == ':'
    ensures ':' !in rawHost ==> h == rawHost
  {
    FirstFieldIsPrefix(rawHost, ':');
    FirstField(rawHost, ':')
  }

  /** `host.split('.')[0]` on the port-stripped host: the parse of the login backend and form. */
  function FirstLabel(rawHost: string): (sd: string)
    ensures '.' !in sd && ':' !in sd
    ensures IsPrefix(sd, HostName(rawHost))
  {
    var h := HostName(rawHost);
    FirstFieldIsPrefix(h, '.');
    FirstField(h, '.')
  }

  /** Splitting `head.rest` at its first dot gives `head`. */
  lemma FirstLabelOfDotted(head: string, rest: string)
    requires '.' !in head && ':' !in head && ':' !in rest
    ensures FirstLabel(head + "." + rest) == head
  {
    var raw := head + "." + rest;
    assert ':' !in raw by {
      forall k | 0 <= k < |raw| ensures raw[k] != ':' {
        if k < |head| { assert raw[k] == head[k]; }
        else if k > |head| { assert raw[k] == rest[k - |head| - 1]; }
      }
    }
    assert raw == head + ("." + rest);
    IndexOfAbsent(head, '.');
    IndexOfAfterPrefix(head, "." + rest, '.');
    assert raw[..|head|] == head;
  }

  /** A port after the host is dropped. */
  lemma HostNameWithPort(h: string, port: string)
    requires ':' !in h
    ensures HostName(h + ":" + port) == h
  {
    assert h + ":" + port == h + (":" + port);
    IndexOfAfterPrefix(h, ":" + port, ':');
    assert (h + ":" + port)[..|h|] == h;
  }
}
