/** Reading the Prometheus service's namespace and name out of its URL. */
module ServiceUrl {

  /** The pieces between separators, as Go's strings.Split gives them. */
  function Split(s: string, sep: string): (r: seq<string>)
    requires sep != ""
    ensures |r| > 0
  {
    if |s| < |sep| then [s]
    else if s[..|sep|] == sep then [""] + Split(s[|sep|..], sep)
    else
      var rest := Split(s[1..], sep);
      [[s[0]] + rest[0]] + rest[1..]
  }

  datatype Target = Target(namespace: string, name: string)

  /** The namespace and name of the service a URL points to. */
  function GetPromSvcNamespacedNamedBySvcURL(url: string): Target {
    var sps := Split(url, ".");
    if |sps| < 2 then Target("", "")
    else
      var parts := Split(sps[0], "//");
      var svcName := parts[|parts| - 1];
      var svcNS := Split(sps[1], ":")[0];
      if |sps| == 2 then Target(svcNS, svcName)
      else
        var svcStr := Split(sps[2], ":")[0];
        if svcStr != "svc" then Target(svcStr, svcNS) else Target(svcNS, svcName)
  }

  // ------------------------------------------------------------------------- splitting

  lemma {:induction false} SplitNone(s: string, sep: string)
    requires sep != "" && sep[0] !in s
    ensures Split(s, sep) == [s]
  {
    if |s| >= |sep| {
      assert s[..|sep|][0] == s[0] && s[0] in s;
      SplitNone(s[1..], sep);
      assert [s[0]] + s[1..] == s;
    }
  }

  lemma {:induction false} SplitFirst(a: string, sep: string, b: string)
    requires sep != "" && sep[0] !in a
    ensures Split(a + sep + b, sep) == [a] + Split(b, sep)
  {
    var s := a + sep + b;
    if a == "" {
      assert s == sep + b;
      assert s[..|sep|] == sep && s[|sep|..] == b;
    } else {
      assert s[0] == a[0] && a[0] in a;
      assert s[..|sep|][0] == s[0];
      assert s[1..] == a[1..] + sep + b;
      SplitFirst(a[1..], sep, b);
      var rest := Split(s[1..], sep);
      assert rest[0] == a[1..] && rest[1..] == Split(b, sep);
      assert [a[0]] + a[1..] == a;
    }
  }

  /** The first piece, up to a separator or the end. */
  lemma FirstPiece(a: string, sep: char, rest: string)
    requires sep !in a && (rest == "" || rest[0] == sep)
    ensures Split(a + rest, [sep])[0] == a
  {
    if rest == "" {
      assert a + rest == a;
      SplitNone(a, [sep]);
    } else {
      assert a + rest == a + [sep] + rest[1..];
      SplitFirst(a, [sep], rest[1..]);
    }
  }

  // ----------------------------------------------------------------- the forms of a URL

  /** A name as Kubernetes allows it, as far as the parsing is concerned. */
  predicate Plain(s: string) {
    '.' !in s && ':' !in s && '/' !in s
  }

  /** What precedes the host: nothing, or a scheme. */
  predicate IsPrefix(prefix: string) {
    prefix == "" || (|prefix| >= 3 && prefix[|prefix| - 3..] == "://" && Plain(prefix[..|prefix| - 3]))
  }

  /** What follows it: nothing, or a port, with anything behind. */
  predicate IsSuffix(suffix: string) {
    suffix == "" || suffix[0] == ':'
  }

  /** Nothing, or a port or more of a domain name, with anything behind. */
  predicate IsRest(rest: string) {
    rest == "" || rest[0] == '.' || rest[0] == ':'
  }

  lemma HostAfterPrefix(prefix: string, host: string)
    requires IsPrefix(prefix) && Plain(host)
    ensures '.' !in prefix + host
    ensures var parts := Split(prefix + host, "//"); parts[|parts| - 1] == host
  {
    SplitNone(host, "//");
    if prefix == "" {
      assert prefix + host == host;
    } else {
      HostAfterScheme(prefix[..|prefix| - 3], host);
      assert prefix == prefix[..|prefix| - 3] + "://";
    }
  }

  lemma HostAfterScheme(scheme: string, host: string)
    requires Plain(scheme) && Plain(host)
    ensures Split(scheme + "://" + host, "//") == [scheme + ":", host]
  {
    assert scheme + "://" + host == (scheme + ":") + "//" + host;
    SplitFirst(scheme + ":", "//", host);
    SplitNone(host, "//");
  }

  lemma Dots3(a: string, b: string, c: string)
    requires '.' !in a && '.' !in b
    ensures Split(a + "." + (b + "." + c), ".") == [a, b] + Split(c, ".")
  {
    SplitFirst(a, ".", b + "." + c);
    SplitFirst(b, ".", c);
    assert [a] + ([b] + Split(c, ".")) == [a, b] + Split(c, ".");
  }

  /** What follows the first dot. */
  function FromDot(s: string): string {
    if s == "" then "" else if s[0] == '.' then s[1..] else FromDot(s[1..])
  }

  /** What precedes the first dot or colon. */
  function UpToStop(s: string): string {
    if s == "" || s[0] == '.' || s[0] == ':' then "" else [s[0]] + UpToStop(s[1..])
  }

  lemma {:induction false} SplitAtDot(s: string)
    ensures '.' !in s ==> |Split(s, ".")| == 1
    ensures '.' in s ==> Split(s, ".")[1..] == Split(FromDot(s), ".")
  {
    if s != "" {
      SplitAtDot(s[1..]);
      assert s == [s[0]] + s[1..] && s[..1] == [s[0]];
    }
  }

  lemma {:induction false} SplitUpToStop(s: string)
    ensures Split(Split(s, ".")[0], ":")[0] == UpToStop(s)
  {
    if s != "" && s[0] != '.' {
      SplitUpToStop(s[1..]);
      var first := Split(s[1..], ".")[0];
      assert s[..1] == [s[0]] && Split(s, ".")[0] == [s[0]] + first;
      assert ([s[0]] + first)[..1] == [s[0]] && ([s[0]] + first)[1..] == first;
    }
  }

  lemma {:induction false} SplitHead(a: string, s: string)
    requires '.' !in a
    ensures Split(a + s, ".") == [a + Split(s, ".")[0]] + Split(s, ".")[1..]
  {
    if a == "" {
      assert a + s == s && a + Split(s, ".")[0] == Split(s, ".")[0];
    } else {
      assert (a + s)[1..] == a[1..] + s && (a + s)[..1] == [a[0]];
      SplitHead(a[1..], s);
      assert [a[0]] + (a[1..] + Split(s, ".")[0]) == a + Split(s, ".")[0];
    }
  }

  lemma ShortFormPieces(prefix: string, svc: string, ns: string, suffix: string) returns (second: string)
    requires IsPrefix(prefix) && Plain(svc) && Plain(ns) && IsSuffix(suffix)
    ensures Split(prefix + svc + "." + (ns + suffix), ".") == [prefix + svc, second] + Split(suffix, ".")[1..]
    ensures Split(second, ":")[0] == ns
  {
    second := ns + Split(suffix, ".")[0];
    HostAfterPrefix(prefix, svc);
    SplitFirst(prefix + svc, ".", ns + suffix);
    SplitHead(ns, suffix);
    FirstPiece(ns, ':', Split(suffix, ".")[0]);
  }

  /** [scheme://]svc.ns[:port...] is read back exactly if no dot follows, or what follows the
      first dot is "svc", or it is the namespace and that is the service's name too. */
  lemma ShortFormRoundTripIff(prefix: string, svc: string, ns: string, suffix: string)
    requires IsPrefix(prefix) && Plain(svc) && Plain(ns) && IsSuffix(suffix)
    ensures
      var third := UpToStop(FromDot(suffix));
      GetPromSvcNamespacedNamedBySvcURL(prefix + svc + "." + (ns + suffix)) == Target(ns, svc)
      <==> '.' !in suffix || third == "svc" || (third == ns && ns == svc)
  {
    HostAfterPrefix(prefix, svc);
    var second := ShortFormPieces(prefix, svc, ns, suffix);
    SplitAtDot(suffix);
    SplitUpToStop(FromDot(suffix));
  }

  /** [scheme://]svc.ns.svc, alone or with a port or a domain behind, is always read back. */
  lemma SvcFormRoundTrip(prefix: string, svc: string, ns: string, rest: string)
    requires IsPrefix(prefix) && Plain(svc) && Plain(ns) && IsRest(rest)
    ensures GetPromSvcNamespacedNamedBySvcURL(prefix + svc + "." + (ns + "." + ("svc" + rest))) == Target(ns, svc)
  {
    HostAfterPrefix(prefix, svc);
    Dots3(prefix + svc, ns, "svc" + rest);
    SplitNone(ns, ":");
    ThirdPiece("svc", rest);
  }

  lemma ThirdPiece(host: string, rest: string)
    requires Plain(host) && IsRest(rest)
    ensures Split(Split(host + rest, ".")[0], ":")[0] == host
  {
    SplitHead(host, rest);
    FirstPiece(host, ':', Split(rest, ".")[0]);
  }

  /** [scheme://]pod.svc.ns, alone or with a port or a domain behind, is read back exactly
      unless the namespace is itself called "svc"; then it is only if all three labels are. */
  lemma PodFormRoundTripIff(prefix: string, pod: string, svc: string, ns: string, rest: string)
    requires IsPrefix(prefix) && Plain(pod) && Plain(svc) && Plain(ns) && IsRest(rest)
    ensures GetPromSvcNamespacedNamedBySvcURL(prefix + pod + "." + (svc + "." + (ns + rest))) == Target(ns, svc)
       <==> ns != "svc" || (svc == "svc" && pod == "svc")
  {
    HostAfterPrefix(prefix, pod);
    Dots3(prefix + pod, svc, ns + rest);
    SplitNone(svc, ":");
    ThirdPiece(ns, rest);
  }

  /** Without a dot there is nothing to read. */
  lemma NoDotNoTarget(url: string)
    requires '.' !in url
    ensures GetPromSvcNamespacedNamedBySvcURL(url) == Target("", "")
  {
    SplitNone(url, ".");
  }
}
