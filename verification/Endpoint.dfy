/** The URL a cluster is served at. Source: pkg/rbacprovider/provider.go (endpointFor). */
module Endpoint {
  import opened GraphSpec

  predicate HasSuffix(s: string, suffix: string) {
    |suffix| <= |s| && s[|s| - |suffix|..] == suffix
  }

  function UrlPrefix(base: string): string {
    if base != "" && !HasSuffix(base, "/") then base + "/" else base
  }

  function EndpointFor(base: string, c: Cluster): string {
    UrlPrefix(base) + c
  }

  /** The URL as text: one slash between a base and the cluster, whether the base is written with it or without, and the
      cluster alone if there is no base. */
  lemma EndpointText(base: string, c: Cluster)
    ensures base != "" && base[|base| - 1] != '/' ==> EndpointFor(base, c) == base + "/" + c
    ensures base != "" && base[|base| - 1] == '/' ==> EndpointFor(base, c) == base + c
    ensures EndpointFor("", c) == c
    ensures base != "" && base[|base| - 1] != '/' ==> EndpointFor(base + "/", c) == EndpointFor(base, c)
  {
    if base != "" {
      var last := [base[|base| - 1]];
      assert base[|base| - 1..] == last;
      assert (base + "/")[|base + "/"| - 1..] == "/";
      assert last[0] == base[|base| - 1] && "/"[0] == '/';
    }
    assert "" + c == c;
  }

  /** Distinct clusters are served at distinct URLs. */
  lemma EndpointsAreDistinct(base: string, c: Cluster, d: Cluster)
    requires EndpointFor(base, c) == EndpointFor(base, d)
    ensures c == d
  {
    var prefix := UrlPrefix(base);
    assert c == (prefix + c)[|prefix|..] == (prefix + d)[|prefix|..] == d;
  }

  /** Only the nameless cluster under an empty base URL is left without an endpoint. */
  lemma EmptyEndpoint(base: string, c: Cluster)
    ensures EndpointFor(base, c) == "" <==> base == "" && c == ""
  {
    assert |EndpointFor(base, c)| == |UrlPrefix(base)| + |c|;
  }
}
