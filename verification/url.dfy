/** The command line's handling of the target URL: `main` prefixes a URL
    that does not already start with the plain-HTTP scheme. */
module Url {

  const Scheme: string := "http://"

  /** The URL `main` hands to the benchmark. */
  function Normalize(url: string): (r: string)
    ensures Scheme <= r
    ensures |url| <= |r| && r[|r| - |url|..] == url
    ensures r == url <==> Scheme <= url
    ensures r != url ==> |r| == |Scheme| + |url| && r[..|Scheme|] == Scheme
  {
    if Scheme <= url then url else Scheme + url
  }

  /** Normalizing twice is normalizing once: the result already starts with
      the scheme, so the second pass leaves it alone. */
  lemma NormalizeIdempotent(url: string)
    ensures Normalize(Normalize(url)) == Normalize(url)
  {
    var r := Normalize(url);
    assert Scheme <= r;
  }

  /** Two URLs normalize to the same string exactly when they are equal or
      one is the other, lacking the scheme, with the scheme put in front. */
  lemma NormalizeSame(a: string, b: string)
    ensures Normalize(a) == Normalize(b) <==>
              || a == b
              || (a == Scheme + b && !(Scheme <= b))
              || (b == Scheme + a && !(Scheme <= a))
  {
    if a == Scheme + b {
      assert Scheme <= a;
    }
    if b == Scheme + a {
      assert Scheme <= b;
    }
  }

}
