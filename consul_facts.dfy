/**
 * What the request builder of lib/consul/index.js promises about URLs: the
 * token is one more query parameter after those the URI already has, and
 * the base URL gives back the host and the port.
 */
module ConsulClientFacts {
  import opened Wrappers
  import opened ConsulClient

  /** Text appended after a first c leaves what comes before it alone. */
  lemma AppendAfterFirst(u: string, t: string, c: char)
    requires c in u
    ensures Before(u + t, c) == Before(u, c)
    ensures After(u + t, c) == Some(After(u, c).value + t)
  {
    var b, a := Before(u, c), After(u, c).value;
    assert u == b + [c] + a;
    Regroup(b, [c], a, t);
    SplitAtFirst(b, a + t, c);
  }

  /** Concatenation regrouped; kept apart so that the lemma above stays small. */
  lemma Regroup(x: string, y: string, z: string, t: string)
    ensures x + y + z + t == x + y + (z + t)
  {
  }

  /** When b has no c, the first c of b + [c] + t is the one after b. */
  lemma {:induction false} SplitAtFirst(b: string, t: string, c: char)
    requires c !in b
    ensures Before(b + [c] + t, c) == b
    ensures After(b + [c] + t, c) == Some(t)
    decreases |b|
  {
    if b != [] {
      assert (b + [c] + t)[1..] == b[1..] + [c] + t;
      SplitAtFirst(b[1..], t, c);
    }
  }

  /** Cutting at c after appending c and a piece without c adds that piece. */
  lemma {:induction false} SplitAppend(x: string, y: string, c: char)
    requires c !in y
    ensures Split(x + [c] + y, c) == Split(x, c) + [y]
    decreases |x|
  {
    assert After(y, c) == None;
    if c in x {
      var b, t := Before(x, c), After(x, c).value;
      assert x + [c] + y == b + [c] + (t + [c] + y);
      SplitAtFirst(b, t + [c] + y, c);
      SplitAppend(t, y, c);
    } else {
      SplitAtFirst(x, y, c);
    }
  }

  /**
   * With an ACL token set, the URL keeps the URI's path and query parameters
   * and has `token=<acl>` as one more, last parameter, whether or not the URI
   * had a query (a token holding `&` would itself be cut into parameters).
   */
  lemma TokenIsLastParameter(uri: string, acl: string)
    requires acl != [] && '&' !in acl
    ensures Before(WithToken(uri, Some(acl)), '?') == Before(uri, '?')
    ensures Params(WithToken(uri, Some(acl))) == Params(uri) + ["token=" + acl]
  {
    var token := "token=" + acl;
    assert '&' !in token by {
      assert forall i :: 6 <= i < |token| ==> token[i] == acl[i - 6];
    }
    if '?' in uri {
      assert WithToken(uri, Some(acl)) == uri + ['&'] + token;
      ParameterAppended(uri, token);
    } else {
      assert WithToken(uri, Some(acl)) == uri + ['?'] + token;
      QueryStarted(uri, token);
    }
  }

  /** After a URI that has a query, `&` and a piece without `&` is one more parameter. */
  lemma ParameterAppended(uri: string, p: string)
    requires '?' in uri && '&' !in p
    ensures Before(uri + ['&'] + p, '?') == Before(uri, '?')
    ensures Params(uri + ['&'] + p) == Params(uri) + [p]
  {
    assert uri + ['&'] + p == uri + (['&'] + p);
    AppendAfterFirst(uri, ['&'] + p, '?');
    var q := After(uri, '?').value;
    assert q + (['&'] + p) == q + ['&'] + p;
    SplitAppend(q, p, '&');
  }

  /** After a URI without a query, `?` and a piece without `&` is its only parameter. */
  lemma QueryStarted(uri: string, p: string)
    requires '?' !in uri && '&' !in p
    ensures Before(uri + ['?'] + p, '?') == Before(uri, '?')
    ensures Params(uri + ['?'] + p) == Params(uri) + [p]
  {
    SplitAtFirst(uri, p, '?');
    assert After(p, '&') == None;
  }

  /** Without a token set, requests go to the URI exactly as given. */
  lemma NoTokenNoChange(uri: string, acl: Option<string>)
    requires acl == None || acl == Some([])
    ensures WithToken(uri, acl) == uri
    ensures Params(WithToken(uri, acl)) == Params(uri)
  {
  }

  /** The host and the port can be read back from the base URL when the host holds no `:`. */
  lemma BaseURLHostPort(host: string, port: string)
    requires ':' !in host
    ensures Before(BaseURL(host, port)[7..], ':') == host
    ensures After(BaseURL(host, port)[7..], ':') == Some(port)
  {
    assert BaseURL(host, port)[7..] == host + [':'] + port;
    SplitAtFirst(host, port, ':');
  }
}
