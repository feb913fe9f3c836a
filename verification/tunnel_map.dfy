/**
 Which proxy a host goes through: the map is searched for the host and then for its parent
 domains, and what is found for a parent is remembered under the host.
 */
module Tunnel {
  import opened Wrappers
  import opened Strings

  /** Only whether the URL names a host matters here. */
  datatype Url = Url(host: string, other: string)

  type Proxies = map<string, Url>

  /** The parent domain, or nothing. */
  function Parent(hostname: string): (p: string)
    ensures hostname != "" ==> |p| < |hostname|
    ensures hostname == "" ==> p == ""
  {
    Cut(hostname, '.').after
  }

  function Lookup(data: Proxies, hostname: string): Option<Url>
    decreases |hostname|
  {
    if hostname in data then Some(data[hostname])
    else if Parent(hostname) == "" then None
    else Lookup(data, Parent(hostname))
  }

  /** The host itself, or what is behind one of its dots. */
  predicate IsDomainOf(d: string, hostname: string) {
    || d == hostname
    || (0 < |d| < |hostname| && hostname[|hostname| - |d|..] == d && hostname[|hostname| - |d| - 1] == '.')
  }

  /** The longest domain of the host that has an entry. */
  ghost predicate IsLongest(data: Proxies, hostname: string, d: string) {
    && IsDomainOf(d, hostname) && d in data
    && forall other :: IsDomainOf(other, hostname) && |other| > |d| ==> other !in data
  }

  lemma {:induction false} DomainBehind(front: string, parent: string, d: string)
    requires '.' !in front
    ensures IsDomainOf(d, front + ['.'] + parent) <==>
            d == front + ['.'] + parent || (parent != "" && IsDomainOf(d, parent))
  {
    var h := front + ['.'] + parent;
    var i := |h| - |d|;
    if 0 < |d| <= |parent| {
      assert h[i..] == parent[|parent| - |d|..];
      assert |d| < |parent| ==> h[i - 1] == parent[|parent| - |d| - 1];
    } else if |parent| < |d| < |h| {
      assert i > 0 && h[i - 1] == front[i - 1];
    }
  }

  /** The domains of a host are itself and those of its parent. */
  lemma {:induction false} ParentDomains(hostname: string, d: string)
    ensures IsDomainOf(d, hostname) <==> d == hostname || (Parent(hostname) != "" && IsDomainOf(d, Parent(hostname)))
  {
    var at := IndexOf(hostname, '.');
    if at < |hostname| {
      AroundIndex(hostname, at);
      DomainBehind(hostname[..at], hostname[at + 1..], d);
    } else {
      assert forall k :: 0 <= k < |hostname| ==> hostname[k] != '.';
    }
  }

  lemma {:induction false} LongestOfParent(data: Proxies, hostname: string, d: string)
    requires hostname !in data
    ensures IsLongest(data, hostname, d) <==> Parent(hostname) != "" && IsLongest(data, Parent(hostname), d)
  {
    forall other
      ensures IsDomainOf(other, hostname) <==>
              other == hostname || (Parent(hostname) != "" && IsDomainOf(other, Parent(hostname)))
    {
      ParentDomains(hostname, other);
    }
  }

  /** The search finds the entry of the longest such domain, and nothing if none has an entry. */
  lemma {:induction false} LookupIsLongest(data: Proxies, hostname: string, url: Url)
    ensures Lookup(data, hostname) == Some(url) <==> exists d :: IsLongest(data, hostname, d) && data[d] == url
    decreases |hostname|
  {
    if hostname in data {
      assert IsLongest(data, hostname, hostname);
      forall d | IsLongest(data, hostname, d) ensures d == hostname {
        assert IsDomainOf(hostname, hostname);
      }
    } else {
      forall d ensures IsLongest(data, hostname, d) <==>
                       Parent(hostname) != "" && IsLongest(data, Parent(hostname), d) {
        LongestOfParent(data, hostname, d);
      }
      if Parent(hostname) != "" {
        LookupIsLongest(data, Parent(hostname), url);
      }
    }
  }

  /** Remembering what was found for a host changes no search, not even for hosts below it. This
      holds for each write on its own, so also when other goroutines write between a search and
      its write. */
  lemma {:induction false} RememberingIsTransparent(data: Proxies, hostname: string, other: string)
    requires Lookup(data, hostname).Some?
    ensures Lookup(data[hostname := Lookup(data, hostname).value], other) == Lookup(data, other)
    decreases |other|
  {
    if other !in data && other != hostname && Parent(other) != "" {
      RememberingIsTransparent(data, hostname, Parent(other));
    }
  }

  class TunnelMap {
    var data: Proxies
    ghost const configured: Proxies

    /** The map answers like the configuration. */
    ghost predicate Valid()
      reads this
    {
      forall h :: Lookup(data, h) == Lookup(configured, h)
    }

    constructor (data: Proxies)
      ensures this.data == configured == data && Valid()
    {
      this.data := data;
      configured := data;
    }

    method SetProxy(hostname: string, proxy: Url)
      modifies this
      ensures data == old(data)[hostname := proxy]
    {
      data := data[hostname := proxy];
    }

    /** Every answer is that of the configuration, whatever was looked up before. */
    method GetProxy(hostname: string) returns (r: Option<Url>)
      requires Valid()
      modifies this
      ensures Valid() && r == Lookup(configured, hostname)
      ensures data == if r.Some? then old(data)[hostname := r.value] else old(data)
    {
      var hn := hostname;
      while true
        invariant data == old(data) && Lookup(data, hn) == Lookup(data, hostname)
        invariant hn == hostname || hostname !in data
        decreases |hn|
      {
        if hn in data {
          var proxy := data[hn];
          if hn != hostname {
            forall other ensures Lookup(data[hostname := proxy], other) == Lookup(data, other) {
              RememberingIsTransparent(data, hostname, other);
            }
            SetProxy(hostname, proxy);
          }
          return Some(proxy);
        }
        hn := Parent(hn);
        if hn == "" {
          return None;
        }
      }
    }

    method GetDefaultProxyHost() returns (host: string)
      requires Valid()
      modifies this
      ensures Valid()
      ensures host == match Lookup(configured, "*") { case Some(p) => p.host case None => "" }
    {
      var proxy := GetProxy("*");
      host := if proxy.Some? && proxy.value.host != "" then proxy.value.host else "";
    }

    /** `environment` is what the standard library would choose. */
    method AutoProxy(hostname: string, environment: Option<Url>) returns (r: Option<Url>)
      requires Valid()
      modifies this
      ensures Valid()
      ensures r == match Lookup(configured, hostname)
                   case None => environment
                   case Some(p) => if p.host == "" then None else Some(p)
    {
      var proxy := GetProxy(hostname);
      if proxy.None? {
        return environment;
      }
      r := if proxy.value.host == "" then None else proxy;
    }

    /** The host's own proxy, or the default one; `NO_PROXY` has no say. */
    method ForcedProxy(hostname: string) returns (r: Option<Url>)
      requires Valid()
      modifies this
      ensures Valid()
      ensures var own, fallback := Lookup(configured, hostname), Lookup(configured, "*");
              r == if own.Some? && own.value.host != "" then own
                   else if fallback.Some? && fallback.value.host != "" then fallback
                   else None
    {
      r := GetProxy(hostname);
      if r.Some? && r.value.host != "" {
        return;
      }
      r := GetProxy("*");
      if r.Some? && r.value.host != "" {
        return;
      }
      r := None;
    }

    /** An entry for the host decides, even one that says "no proxy". */
    method NewzNzbGrabProxy(hostname: string) returns (r: Option<Url>)
      requires Valid()
      modifies this
      ensures Valid()
      ensures var own, grab := Lookup(configured, hostname), Lookup(configured, "[newz_nzb_grab]");
              var chosen := if own.Some? then own else grab;
              r == if chosen.Some? && chosen.value.host != "" then chosen else None
    {
      r := GetProxy(hostname);
      if r.None? {
        r := GetProxy("[newz_nzb_grab]");
      }
      if r.Some? && r.value.host == "" {
        r := None;
      }
    }
  }
}
