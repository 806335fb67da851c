/**
 The host check at the top of the guard script: a fixed allow-list and the
 `some` / `endsWith` predicate evaluated over it. Hosts are compared exactly
 as given: there is no case folding, no trailing-dot stripping and no other
 normalisation, because the script does none.
 */
module Domains {

  /** The domains the script accepts, in the order it lists them. */
  const AllowedDomains: seq<string> := ["healthhub.sg", "www.healthhub.sg", "eservices.healthhub.sg"]

  /** JavaScript's `s.endsWith(t)`: the last |t| characters of `s` are `t`. */
  predicate EndsWith(s: string, t: string): (ends: bool)
    ensures ends <==> |t| <= |s| && forall i :: 0 <= i < |t| ==> s[|s| - |t| + i] == t[i]
  {
    |t| <= |s| && s[|s| - |t|..] == t
  }

  /** The callback handed to `some`: the host is the domain itself, or ends
      with a dot followed by the domain. */
  predicate Matches(host: string, domain: string): (matches: bool)
    ensures matches <==> (host == domain
                          || (|host| > |domain|
                              && host[|host| - |domain| - 1] == '.'
                              && EndsWith(host, domain)))
  {
    host == domain || EndsWith(host, "." + domain)
  }

  /** Suffixes compose: a suffix of a suffix is a suffix. */
  lemma {:induction false} EndsWithTransitive(s: string, t: string, u: string)
    requires EndsWith(s, t) && EndsWith(t, u)
    ensures EndsWith(s, u)
  {
    forall i | 0 <= i < |u|
      ensures s[|s| - |u| + i] == u[i]
    {
      assert t[|t| - |u| + i] == u[i];
      assert s[|s| - |t| + (|t| - |u| + i)] == t[|t| - |u| + i];
    }
  }

  /** `domains.some(d => Matches(host, d))`: scans the list from the front
      and stops at the first domain that matches. */
  function IsAllowed(host: string, domains: seq<string>): (allowed: bool)
    ensures allowed <==> exists d :: d in domains && Matches(host, d)
  {
    if |domains| == 0 then false
    else if Matches(host, domains[0]) then true
    else
      var rest := IsAllowed(host, domains[1..]);
      assert forall d :: d in domains <==> d == domains[0] || d in domains[1..];
      rest
  }

  /** A host spelled exactly like an allow-listed domain is allowed. */
  lemma {:induction false} ExactHostAllowed(host: string, domains: seq<string>)
    requires host in domains
    ensures IsAllowed(host, domains)
  {
    assert Matches(host, host);
  }

  /** Putting any prefix and a dot in front of a domain gives a host that
      matches it: subdomains of every depth are accepted. */
  lemma {:induction false} SubdomainMatches(prefix: string, domain: string)
    ensures Matches(prefix + "." + domain, domain)
  {
    var host := prefix + "." + domain;
    assert host == prefix + ("." + domain);
    assert host[|host| - |"." + domain|..] == "." + domain;
  }

  /** Every `prefix.D` host is allowed when `D` is on the list. */
  lemma {:induction false} SubdomainAllowed(prefix: string, domain: string, domains: seq<string>)
    requires domain in domains
    ensures IsAllowed(prefix + "." + domain, domains)
  {
    SubdomainMatches(prefix, domain);
  }

  /** A match is aligned on a label boundary: the host is the domain itself,
      or it is some prefix, a dot, and then the domain. With
      SubdomainMatches this characterises Matches exactly. */
  lemma {:induction false} MatchIsLabelAligned(host: string, domain: string)
    requires Matches(host, domain)
    ensures host == domain
         || (|host| > |domain| && host == host[..|host| - |domain| - 1] + "." + domain)
  {
    if host != domain {
      var cut := |host| - |domain| - 1;
      assert host[cut..] == "." + domain;
      assert host == host[..cut] + host[cut..];
    }
  }

  /** Soundness of the check: an allowed host is some listed domain, or is
      a prefix, a dot and some listed domain. */
  lemma {:induction false} AllowedIsDomainOrSubdomain(host: string, domains: seq<string>)
    requires IsAllowed(host, domains)
    ensures exists d :: d in domains
                     && (host == d || (|host| > |d| && host == host[..|host| - |d| - 1] + "." + d))
  {
    var d :| d in domains && Matches(host, d);
    MatchIsLabelAligned(host, d);
  }

  /** A host that ends with the domain but has no dot right before it (such
      as `evilhealthhub.sg` against `healthhub.sg`) does not match it. */
  lemma {:induction false} UndottedPrefixDoesNotMatch(prefix: string, domain: string)
    requires |prefix| > 0 && prefix[|prefix| - 1] != '.'
    ensures !Matches(prefix + domain, domain)
  {
    var host := prefix + domain;
    assert host[|prefix| - 1] == prefix[|prefix| - 1];
  }

  /** Adding domains never withdraws an authorisation: `some` is an
      existential, so a larger list accepts at least the same hosts. */
  lemma {:induction false} AllowedIsMonotone(host: string, domains: seq<string>, more: seq<string>)
    requires forall d :: d in domains ==> d in more
    requires IsAllowed(host, domains)
    ensures IsAllowed(host, more)
  {
    var d :| d in domains && Matches(host, d);
    assert d in more;
  }

  /** The script's own list accepts its three domains and a subdomain two
      levels deep. */
  lemma AllowListAcceptsScenarios()
    ensures IsAllowed("healthhub.sg", AllowedDomains)
    ensures IsAllowed("www.healthhub.sg", AllowedDomains)
    ensures IsAllowed("eservices.healthhub.sg", AllowedDomains)
    ensures IsAllowed("a.b.healthhub.sg", AllowedDomains)
  {
    ExactHostAllowed("healthhub.sg", AllowedDomains);
    ExactHostAllowed("www.healthhub.sg", AllowedDomains);
    ExactHostAllowed("eservices.healthhub.sg", AllowedDomains);
    SubdomainAllowed("a.b", "healthhub.sg", AllowedDomains);
  }

  /** The script's own list refuses `evilhealthhub.sg` and
      `nothealthhub.sg`, which end with a listed domain but have no dot
      before it. */
  lemma AllowListRejectsUndottedLookAlikes()
    ensures !IsAllowed("evilhealthhub.sg", AllowedDomains)
    ensures !IsAllowed("nothealthhub.sg", AllowedDomains)
  {
    var evil := "evilhealthhub.sg";
    UndottedPrefixDoesNotMatch("evil", "healthhub.sg");
    assert !Matches(evil, "www.healthhub.sg") by {
      assert evil[0] != "www.healthhub.sg"[0];
    }
    UndottedPrefixDoesNotMatch("not", "healthhub.sg");
  }

  /** The script's own list refuses `healthhub.sg.attacker.net`, which
      carries a listed domain at the front rather than the end. */
  lemma AllowListRejectsPrefixLookAlike()
    ensures !IsAllowed("healthhub.sg.attacker.net", AllowedDomains)
  {
    var host := "healthhub.sg.attacker.net";
    assert host[|host| - 1] == 't';
    forall d | d in AllowedDomains
      ensures !Matches(host, d)
    {
      assert d[|d| - 1] == 'g';
      assert ("." + d)[|"." + d| - 1] == 'g';
    }
  }

  /** A match against a subdomain of `zone` is a match against `zone`. */
  lemma {:induction false} SubdomainMatchIsZoneMatch(host: string, sub: string, zone: string)
    requires EndsWith(sub, "." + zone) && Matches(host, sub)
    ensures Matches(host, zone)
  {
    if host != sub {
      assert EndsWith("." + sub, "." + zone) by {
        assert ("." + sub)[1..] == sub;
        EndsWithTransitive("." + sub, sub, "." + zone) by {
          assert ("." + sub)[|"." + sub| - |sub|..] == sub;
        }
      }
      EndsWithTransitive(host, "." + sub, "." + zone);
    }
  }

  /** The two longer listed domains lie inside `healthhub.sg`. */
  lemma ListedSubdomainsInZone()
    ensures EndsWith(AllowedDomains[1], "." + AllowedDomains[0])
    ensures EndsWith(AllowedDomains[2], "." + AllowedDomains[0])
  {
    var zone := "." + AllowedDomains[0];
    assert AllowedDomains[1][3..] == zone;
    assert AllowedDomains[2][9..] == zone;
  }

  /** The script's list is one zone: `www.healthhub.sg` and
      `eservices.healthhub.sg` are themselves subdomains of `healthhub.sg`,
      so the list accepts exactly `healthhub.sg` and its subdomains. */
  lemma AllowListIsOneZone(host: string)
    ensures IsAllowed(host, AllowedDomains) <==> Matches(host, "healthhub.sg")
  {
    if IsAllowed(host, AllowedDomains) {
      AllowedHostIsInZone(host);
    } else {
      assert "healthhub.sg" in AllowedDomains;
    }
  }

  /** The hard direction of AllowListIsOneZone. */
  lemma AllowedHostIsInZone(host: string)
    requires IsAllowed(host, AllowedDomains)
    ensures Matches(host, "healthhub.sg")
  {
    var d :| d in AllowedDomains && Matches(host, d);
    var i :| 0 <= i < |AllowedDomains| && AllowedDomains[i] == d;
    if i > 0 {
      ListedSubdomainsInZone();
      SubdomainMatchIsZoneMatch(host, d, AllowedDomains[0]);
    }
  }
}
