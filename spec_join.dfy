/**
  The cross-reference of an application descriptor's links against the
  application ports declared in the kots application spec: the realized
  links shown to the user and the ports to forward. Both are nested-loop
  joins on `link.url == port.applicationURL`.
 */
module SpecJoin {
  import opened Outcomes
  import opened GoText

  /** A descriptor link: `Spec.Descriptor.Links[i]` of the sig-application `Application`. */
  datatype Link = Link(description: string, url: string)

  /** One entry of `Spec.ApplicationPorts` of the kots `Application`. */
  datatype AppPort = AppPort(serviceName: string, servicePort: int, localPort: int, applicationURL: string)

  datatype RealizedLink = RealizedLink(title: string, uri: string)

  datatype ForwardedPort = ForwardedPort(serviceName: string, servicePort: int, localPort: int, applicationURL: string)

  /** The URI a matched link is rewritten to: `http://localhost:<localPort>`. */
  function LocalhostURI(localPort: int): string {
    "http://localhost:" + IntToDecimal(localPort)
  }

  /** The port text of a rewritten URI reads back through `strconv.Atoi` as the local port. */
  lemma LocalhostURIReadsBack(localPort: int)
    requires MinInt64 <= localPort <= MaxInt64
    ensures |LocalhostURI(localPort)| > |"http://localhost:"|
    ensures LocalhostURI(localPort)[..|"http://localhost:"|] == "http://localhost:"
    ensures Atoi(LocalhostURI(localPort)[|"http://localhost:"|..]) == Some(localPort)
  {
    var uri := LocalhostURI(localPort);
    assert uri[|"http://localhost:"|..] == IntToDecimal(localPort);
    AtoiReadsDecimal(localPort);
  }

  /** A forwarded port carries the fields of the port entry verbatim. */
  function Forward(p: AppPort): (f: ForwardedPort)
    ensures f.serviceName == p.serviceName && f.servicePort == p.servicePort
    ensures f.localPort == p.localPort && f.applicationURL == p.applicationURL
  {
    ForwardedPort(p.serviceName, p.servicePort, p.localPort, p.applicationURL)
  }

  // ---------------------------------------------------------------------
  // Realized links

  /** The last port entry whose application URL equals `url`: the inner loop keeps overwriting its choice. */
  function LastMatchingPort(ports: seq<AppPort>, url: string): (r: Option<AppPort>)
    ensures r.None? <==> forall j :: 0 <= j < |ports| ==> ports[j].applicationURL != url
    ensures r.Some? ==> exists j :: 0 <= j < |ports| && ports[j] == r.value && ports[j].applicationURL == url &&
                                    forall k :: j < k < |ports| ==> ports[k].applicationURL != url
  {
    if ports == [] then None
    else if ports[|ports| - 1].applicationURL == url then Some(ports[|ports| - 1])
    else
      var r := LastMatchingPort(ports[..|ports| - 1], url);
      LastMatchSkipsUnmatched(ports, url, r);
      r
  }

  /** A choice that is last among all but the final entry stays last when the final entry does not match. */
  lemma LastMatchSkipsUnmatched(ports: seq<AppPort>, url: string, r: Option<AppPort>)
    requires |ports| > 0 && ports[|ports| - 1].applicationURL != url
    requires var front := ports[..|ports| - 1];
             (r.None? <==> forall j :: 0 <= j < |front| ==> front[j].applicationURL != url) &&
             (r.Some? ==> exists j :: 0 <= j < |front| && front[j] == r.value && front[j].applicationURL == url &&
                                      forall k :: j < k < |front| ==> front[k].applicationURL != url)
    ensures r.None? <==> forall j :: 0 <= j < |ports| ==> ports[j].applicationURL != url
    ensures r.Some? ==> exists j :: 0 <= j < |ports| && ports[j] == r.value && ports[j].applicationURL == url &&
                                    forall k :: j < k < |ports| ==> ports[k].applicationURL != url
  {
    var front := ports[..|ports| - 1];
    assert forall j :: 0 <= j < |front| ==> front[j] == ports[j];
    if r.Some? {
      var j :| 0 <= j < |front| && front[j] == r.value && front[j].applicationURL == url &&
               forall k :: j < k < |front| ==> front[k].applicationURL != url;
      assert forall k :: j < k < |ports| ==> ports[k].applicationURL != url;
    }
  }

  /** The URI shown for a link: the last matching port's localhost URI, otherwise the link's own URL. */
  function RewrittenURL(url: string, ports: seq<AppPort>): string {
    match LastMatchingPort(ports, url)
    case Some(p) => LocalhostURI(p.localPort)
    case None => url
  }

  function Realize(link: Link, ports: seq<AppPort>): RealizedLink {
    RealizedLink(link.description, RewrittenURL(link.url, ports))
  }

  /** The realized links, in the order the outer loop appends them. */
  function RealizedLinks(links: seq<Link>, ports: seq<AppPort>): seq<RealizedLink> {
    if links == [] then []
    else RealizedLinks(links[..|links| - 1], ports) + [Realize(links[|links| - 1], ports)]
  }

  /**
    One realized link per descriptor link, in descriptor order; its title is
    the link's description and its URI is the localhost URI of the LAST
    matching port, or the link's URL when no port matches.
   */
  lemma {:induction false} RealizedLinksAt(links: seq<Link>, ports: seq<AppPort>, i: nat)
    requires i < |links|
    ensures |RealizedLinks(links, ports)| == |links|
    ensures RealizedLinks(links, ports)[i].title == links[i].description
    ensures (forall j :: 0 <= j < |ports| ==> ports[j].applicationURL != links[i].url) ==>
              RealizedLinks(links, ports)[i].uri == links[i].url
    ensures forall j :: 0 <= j < |ports| && ports[j].applicationURL == links[i].url &&
                        (forall k :: j < k < |ports| ==> ports[k].applicationURL != links[i].url) ==>
              RealizedLinks(links, ports)[i].uri == LocalhostURI(ports[j].localPort)
  {
    RealizedLinksLength(links, ports);
    RealizedLinkIs(links, ports, i);
    forall j | 0 <= j < |ports| && ports[j].applicationURL == links[i].url &&
               (forall k :: j < k < |ports| ==> ports[k].applicationURL != links[i].url)
      ensures RewrittenURL(links[i].url, ports) == LocalhostURI(ports[j].localPort)
    {
      RewrittenToLastMatch(links[i].url, ports, j);
    }
  }

  /** The `i`-th realized link is the `i`-th descriptor link realized on its own. */
  lemma {:induction false} RealizedLinkIs(links: seq<Link>, ports: seq<AppPort>, i: nat)
    requires i < |links|
    ensures i < |RealizedLinks(links, ports)| && RealizedLinks(links, ports)[i] == Realize(links[i], ports)
  {
    var n := |links| - 1;
    RealizedLinksLength(links[..n], ports);
    if i < n {
      RealizedLinkIs(links[..n], ports, i);
      assert links[..n][i] == links[i];
    }
  }

  /** A matching port with no later match is the one whose localhost URI the link is rewritten to. */
  lemma RewrittenToLastMatch(url: string, ports: seq<AppPort>, j: int)
    requires 0 <= j < |ports| && ports[j].applicationURL == url
    requires forall k :: j < k < |ports| ==> ports[k].applicationURL != url
    ensures RewrittenURL(url, ports) == LocalhostURI(ports[j].localPort)
  {
    var r := LastMatchingPort(ports, url);
    var j' :| 0 <= j' < |ports| && ports[j'] == r.value && ports[j'].applicationURL == url &&
              forall k :: j' < k < |ports| ==> ports[k].applicationURL != url;
    assert j == j';
  }

  lemma {:induction false} RealizedLinksLength(links: seq<Link>, ports: seq<AppPort>)
    ensures |RealizedLinks(links, ports)| == |links|
  {
    if links != [] {
      RealizedLinksLength(links[..|links| - 1], ports);
    }
  }

  /** The nested loop of `GetRealizedLinksFromAppSpec` over already-decoded specs. */
  method RealizeLinks(links: seq<Link>, ports: seq<AppPort>) returns (realized: seq<RealizedLink>)
    ensures realized == RealizedLinks(links, ports)
  {
    realized := [];
    for i := 0 to |links|
      invariant realized == RealizedLinks(links[..i], ports)
    {
      var link := links[i];
      var rewrittenURL := RewriteURL(link.url, ports);
      realized := realized + [RealizedLink(link.description, rewrittenURL)];
      assert links[..i + 1][..i] == links[..i];
    }
    assert links[..|links|] == links;
  }

  /** The inner loop of `GetRealizedLinksFromAppSpec`: every matching port overwrites the URL. */
  method RewriteURL(url: string, ports: seq<AppPort>) returns (rewrittenURL: string)
    ensures rewrittenURL == RewrittenURL(url, ports)
  {
    rewrittenURL := url;
    for j := 0 to |ports|
      invariant rewrittenURL == RewrittenURL(url, ports[..j])
    {
      if ports[j].applicationURL == url {
        rewrittenURL := LocalhostURI(ports[j].localPort);
      }
      assert ports[..j + 1][..j] == ports[..j];
    }
    assert ports[..|ports|] == ports;
  }

  // ---------------------------------------------------------------------
  // Forwarded ports

  /** The inner loop for one link: every matching port, in port order. */
  function MatchingPorts(ports: seq<AppPort>, url: string): seq<ForwardedPort> {
    if ports == [] then []
    else
      MatchingPorts(ports[..|ports| - 1], url) +
      (if ports[|ports| - 1].applicationURL == url then [Forward(ports[|ports| - 1])] else [])
  }

  /** The forwarded ports: link-major, then port-minor, duplicates kept. */
  function ForwardedPorts(links: seq<Link>, ports: seq<AppPort>): seq<ForwardedPort> {
    if links == [] then []
    else ForwardedPorts(links[..|links| - 1], ports) + MatchingPorts(ports, links[|links| - 1].url)
  }

  /** An entry is forwarded exactly when some link's URL equals its port's application URL. */
  lemma {:induction false} MatchingPortsMembership(ports: seq<AppPort>, url: string, f: ForwardedPort)
    ensures f in MatchingPorts(ports, url) <==>
              exists j :: 0 <= j < |ports| && ports[j].applicationURL == url && f == Forward(ports[j])
  {
    if ports != [] {
      var n := |ports| - 1;
      MatchingPortsMembership(ports[..n], url, f);
      assert forall j :: 0 <= j < n ==> ports[..n][j] == ports[j];
      if f in MatchingPorts(ports[..n], url) {
        var j :| 0 <= j < n && ports[..n][j].applicationURL == url && f == Forward(ports[..n][j]);
        assert ports[j] == ports[..n][j];
      }
    }
  }

  lemma {:induction false} ForwardedPortsMembership(links: seq<Link>, ports: seq<AppPort>, f: ForwardedPort)
    ensures f in ForwardedPorts(links, ports) <==>
              exists i, j :: 0 <= i < |links| && 0 <= j < |ports| &&
                             ports[j].applicationURL == links[i].url && f == Forward(ports[j])
  {
    if links != [] {
      var n := |links| - 1;
      var front := links[..n];
      ForwardedPortsMembership(front, ports, f);
      MatchingPortsMembership(ports, links[n].url, f);
      assert ForwardedPorts(links, ports) == ForwardedPorts(front, ports) + MatchingPorts(ports, links[n].url);
      if f in ForwardedPorts(front, ports) {
        var i, j :| 0 <= i < n && 0 <= j < |ports| &&
                    ports[j].applicationURL == front[i].url && f == Forward(ports[j]);
        assert links[i] == front[i];
      } else if f in MatchingPorts(ports, links[n].url) {
        var j :| 0 <= j < |ports| && ports[j].applicationURL == links[n].url && f == Forward(ports[j]);
        assert 0 <= n < |links|;
      } else {
        forall i, j | 0 <= i < |links| && 0 <= j < |ports| && ports[j].applicationURL == links[i].url
          ensures f != Forward(ports[j])
        {
          if i < n {
            assert front[i] == links[i];
          }
        }
      }
    }
  }

  /** The indices of the port entries whose application URL is `url`. */
  function MatchingIndices(ports: seq<AppPort>, url: string): set<int> {
    set j | 0 <= j < |ports| && ports[j].applicationURL == url
  }

  /** The (link, port) index pairs whose URLs are equal. */
  function MatchingPairs(links: seq<Link>, ports: seq<AppPort>): set<(int, int)> {
    set i, j | 0 <= i < |links| && 0 <= j < |ports| && ports[j].applicationURL == links[i].url :: (i, j)
  }

  /** One forwarded entry per matching port of a link. */
  lemma {:induction false} MatchingPortsCount(ports: seq<AppPort>, url: string)
    ensures |MatchingPorts(ports, url)| == |MatchingIndices(ports, url)|
  {
    if ports != [] {
      var n := |ports| - 1;
      MatchingPortsCount(ports[..n], url);
      var front := MatchingIndices(ports[..n], url);
      if ports[n].applicationURL == url {
        assert MatchingIndices(ports, url) == front + {n};
      } else {
        assert MatchingIndices(ports, url) == front;
      }
    }
  }

  /** One forwarded entry per matching (link, port) pair: nothing is deduplicated. */
  lemma {:induction false} ForwardedPortsCount(links: seq<Link>, ports: seq<AppPort>)
    ensures |ForwardedPorts(links, ports)| == |MatchingPairs(links, ports)|
  {
    if links != [] {
      var n := |links| - 1;
      ForwardedPortsCount(links[..n], ports);
      MatchingPortsCount(ports, links[n].url);
      PairsWithFirst(n, ports, links[n].url);
      MatchingPairsOfLastLink(links, ports);
    }
  }

  /** The pairs of a non-empty run of links: those of all but the last link, and those of the last one. */
  lemma MatchingPairsOfLastLink(links: seq<Link>, ports: seq<AppPort>)
    requires |links| > 0
    ensures var n := |links| - 1;
            var front := MatchingPairs(links[..n], ports);
            var last := set j | j in MatchingIndices(ports, links[n].url) :: (n, j);
            MatchingPairs(links, ports) == front + last && front * last == {}
  {
    var n := |links| - 1;
    var front := MatchingPairs(links[..n], ports);
    var last := set j | j in MatchingIndices(ports, links[n].url) :: (n, j);
    forall p | p in MatchingPairs(links, ports) ensures p in front + last {
      if p.0 < n {
        assert links[..n][p.0] == links[p.0];
      }
    }
    forall p | p in front ensures p in MatchingPairs(links, ports) && p.0 < n {
      assert links[..n][p.0] == links[p.0];
    }
  }

  /** Pairing each port index that matches one URL with a fixed link index keeps their number. */
  lemma {:induction false} PairsWithFirst(n: int, ports: seq<AppPort>, url: string)
    ensures |set j | j in MatchingIndices(ports, url) :: (n, j)| == |MatchingIndices(ports, url)|
  {
    if ports != [] {
      var m := |ports| - 1;
      PairsWithFirst(n, ports[..m], url);
      var front := MatchingIndices(ports[..m], url);
      if ports[m].applicationURL == url {
        assert MatchingIndices(ports, url) == front + {m};
        PairsWithOneMore(n, front, m);
      } else {
        assert MatchingIndices(ports, url) == front;
      }
    }
  }

  /** Adding a new element to a set adds exactly one new pair to its image. */
  lemma PairsWithOneMore(n: int, s: set<int>, m: int)
    requires m !in s
    ensures (set j | j in s + {m} :: (n, j)) == (set j | j in s :: (n, j)) + {(n, m)}
    ensures (n, m) !in (set j | j in s :: (n, j))
  {
  }

  /** Link-major order: the ports for a run of links followed by another run are the two results concatenated. */
  lemma {:induction false} ForwardedPortsAppend(links1: seq<Link>, links2: seq<Link>, ports: seq<AppPort>)
    ensures ForwardedPorts(links1 + links2, ports) == ForwardedPorts(links1, ports) + ForwardedPorts(links2, ports)
  {
    if links2 != [] {
      var n := |links2| - 1;
      ForwardedPortsAppend(links1, links2[..n], ports);
      assert (links1 + links2)[..|links1 + links2| - 1] == links1 + links2[..n];
    } else {
      assert links1 + links2 == links1;
    }
  }

  /** Port-minor order: the matches among two runs of ports are the two match lists concatenated. */
  lemma {:induction false} MatchingPortsAppend(ports1: seq<AppPort>, ports2: seq<AppPort>, url: string)
    ensures MatchingPorts(ports1 + ports2, url) == MatchingPorts(ports1, url) + MatchingPorts(ports2, url)
  {
    if ports2 != [] {
      var n := |ports2| - 1;
      MatchingPortsAppend(ports1, ports2[..n], url);
      assert (ports1 + ports2)[..|ports1 + ports2| - 1] == ports1 + ports2[..n];
    } else {
      assert ports1 + ports2 == ports1;
    }
  }

  /** With no declared ports nothing is forwarded: the early return for zero ports agrees with the join. */
  lemma {:induction false} ForwardedPortsWithoutPorts(links: seq<Link>)
    ensures ForwardedPorts(links, []) == []
  {
    if links != [] {
      ForwardedPortsWithoutPorts(links[..|links| - 1]);
    }
  }

  /** Duplicates are kept: two links to the same URL forward one matching port twice. */
  lemma DuplicateLinksForwardTwice(l1: Link, l2: Link, p: AppPort)
    requires l1.url == l2.url == p.applicationURL
    ensures ForwardedPorts([l1, l2], [p]) == [Forward(p), Forward(p)]
  {
    assert [l1, l2][..1] == [l1];
    assert [l1][..0] == [];
    assert [p][..0] == [];
    assert MatchingPorts([p], p.applicationURL) == [Forward(p)];
    assert ForwardedPorts([l1], [p]) == [Forward(p)];
  }

  /**
    The two joins agree: a link's URL is rewritten exactly when it has a
    forwarded port, and it is rewritten to the LAST of those ports.
   */
  lemma {:induction false} RewriteUsesLastForwardedPort(ports: seq<AppPort>, url: string)
    ensures LastMatchingPort(ports, url).None? <==> MatchingPorts(ports, url) == []
    ensures LastMatchingPort(ports, url).Some? ==>
              var m := MatchingPorts(ports, url);
              |m| > 0 && m[|m| - 1] == Forward(LastMatchingPort(ports, url).value)
  {
    if ports != [] {
      RewriteUsesLastForwardedPort(ports[..|ports| - 1], url);
    }
  }

  /** The nested loop of `GetForwardedPortsFromAppSpec` over already-decoded specs. */
  method ForwardPorts(links: seq<Link>, ports: seq<AppPort>) returns (forwarded: seq<ForwardedPort>)
    ensures forwarded == ForwardedPorts(links, ports)
  {
    forwarded := [];
    for i := 0 to |links|
      invariant forwarded == ForwardedPorts(links[..i], ports)
    {
      var link := links[i];
      ghost var before := forwarded;
      for j := 0 to |ports|
        invariant forwarded == before + MatchingPorts(ports[..j], link.url)
      {
        if ports[j].applicationURL == link.url {
          forwarded := forwarded + [Forward(ports[j])];
        }
        assert ports[..j + 1][..j] == ports[..j];
      }
      assert ports[..|ports|] == ports;
      assert links[..i + 1][..i] == links[..i];
    }
    assert links[..|links|] == links;
  }
}
