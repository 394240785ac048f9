/**
 * The 401 reply of `sendError`: an error body whose identifier is always
 * "401" and whose link and code come from the second to fourth segments of
 * the request path, and the `WWW-Authenticate` challenge of section 3 of
 * RFC 6750 with the realm `<service>/<version>`.
 */
module ErrorReply {
  import opened Wrappers
  import opened Ascii
  import opened Reasons

  /** `strings.Split(s, string(sep))`. */
  function SplitOn(s: string, sep: char): (r: seq<string>)
    ensures |r| >= 1
  {
    if s == [] then [[]]
    else if s[0] == sep then [[]] + SplitOn(s[1..], sep)
    else
      var rest := SplitOn(s[1..], sep);
      [[s[0]] + rest[0]] + rest[1..]
  }

  /** `strings.Join(parts, string(sep))`, the inverse of `SplitOn`. */
  function Join(parts: seq<string>, sep: char): string
    requires |parts| >= 1
  {
    if |parts| == 1 then parts[0] else parts[0] + [sep] + Join(parts[1..], sep)
  }

  /** `strings.Count(s, string(c))`. */
  function Count(s: string, c: char): nat {
    if s == [] then 0 else (if s[0] == c then 1 else 0) + Count(s[1..], c)
  }

  /**
   * The segments of a split are the text between separators: joining them
   * gives the text back, none contains the separator, and there is one more
   * segment than separators.
   */
  lemma {:induction false} SplitOnJoin(s: string, sep: char)
    ensures Join(SplitOn(s, sep), sep) == s
    ensures forall k :: 0 <= k < |SplitOn(s, sep)| ==> sep !in SplitOn(s, sep)[k]
    ensures |SplitOn(s, sep)| == Count(s, sep) + 1
  {
    if s != [] {
      SplitOnJoin(s[1..], sep);
      var rest := SplitOn(s[1..], sep);
      if s[0] == sep {
        assert ([[]] + rest)[1..] == rest;
      } else {
        var r := [[s[0]] + rest[0]] + rest[1..];
        assert r[1..] == rest[1..];
        if |rest| > 1 {
          assert rest[0] + [sep] + Join(rest[1..], sep) == Join(rest, sep);
        }
        forall k | 1 <= k < |r| ensures sep !in r[k] {
          assert r[k] == rest[k];
        }
      }
    }
  }

  /** The error body the `errors` package builder is given; the status is 401. */
  datatype ErrorBody = ErrorBody(id: string, href: Option<string>, code: Option<string>, reason: Reason)

  /** The reply: the body and the value of the `WWW-Authenticate` header. */
  datatype Reply = Reply(body: ErrorBody, wwwAuthenticate: string)

  /** `<service>/<version>` when the path has at least four segments, else empty. */
  function Realm(path: string): (r: string)
    ensures r == "" <==> Count(path, '/') < 3
    ensures var seg := SplitOn(path, '/');
      |seg| >= 4 ==> r == seg[2] + "/" + seg[3] && '/' !in seg[2] && '/' !in seg[3]
  {
    SplitOnJoin(path, '/');
    var seg := SplitOn(path, '/');
    if |seg| >= 4 then seg[2] + "/" + seg[3] else ""
  }

  /**
   * `sendError`. With segments `["", prefix, service, version, ...]` the link
   * is `/prefix/service/version/errors/401` and the code is the service with
   * `_` turned into `-`, upper-cased, followed by `-401`. A path with fewer
   * than three slashes has neither.
   */
  function ErrorFor(path: string, reason: Reason): (r: Reply)
    ensures r.body.id == "401" && r.body.reason == reason
    ensures r.body.href.Some? <==> Count(path, '/') >= 3
    ensures r.body.code.Some? <==> Count(path, '/') >= 3
    ensures var seg := SplitOn(path, '/');
      |seg| >= 4 ==>
      && r.body.href == Some("/" + seg[1] + "/" + seg[2] + "/" + seg[3] + "/errors/401")
      && r.body.code == Some(UpperCase(ReplaceChar(seg[2], '_', '-')) + "-401")
    ensures r.wwwAuthenticate == "Bearer realm=\"" + Realm(path) + "\""
  {
    SplitOnJoin(path, '/');
    var seg := SplitOn(path, '/');
    if |seg| >= 4 then
      Reply(
        ErrorBody(
          "401",
          Some("/" + seg[1] + "/" + seg[2] + "/" + seg[3] + "/errors/401"),
          Some(UpperCase(ReplaceChar(seg[2], '_', '-')) + "-401"),
          reason),
        "Bearer realm=\"" + seg[2] + "/" + seg[3] + "\"")
    else
      Reply(ErrorBody("401", None, None, reason), "Bearer realm=\"\"")
  }

  /**
   * For a path `/<prefix>/<service>/<version>` followed by nothing or by
   * further segments, the link, the code and the realm are made of those
   * three segments.
   */
  lemma ErrorForServicePath(prefix: string, service: string, version: string, rest: string, reason: Reason)
    requires '/' !in prefix && '/' !in service && '/' !in version
    requires rest == [] || rest[0] == '/'
    ensures var r := ErrorFor("/" + prefix + "/" + service + "/" + version + rest, reason);
      && r.body.href == Some("/" + prefix + "/" + service + "/" + version + "/errors/401")
      && r.body.code == Some(UpperCase(ReplaceChar(service, '_', '-')) + "-401")
      && r.wwwAuthenticate == "Bearer realm=\"" + service + "/" + version + "\""
  {
    var path := "/" + prefix + "/" + service + "/" + version + rest;
    var seg := SplitOn(path, '/');
    SplitOnServicePath(prefix, service, version, rest);
    assert |seg| >= 4 && seg[1] == prefix && seg[2] == service && seg[3] == version;
  }

  /** The segments of `/<prefix>/<service>/<version><rest>`. */
  lemma SplitOnServicePath(prefix: string, service: string, version: string, rest: string)
    requires '/' !in prefix && '/' !in service && '/' !in version
    requires rest == [] || rest[0] == '/'
    ensures var seg := SplitOn("/" + prefix + "/" + service + "/" + version + rest, '/');
      |seg| >= 4 && seg[0] == [] && seg[1] == prefix && seg[2] == service && seg[3] == version
  {
    var s2 := version + rest;
    if rest == [] {
      SplitOnLast(version, '/');
      assert s2 == version;
    } else {
      assert s2 == version + ['/'] + rest[1..];
      SplitOnWord(version, rest[1..], '/');
    }
    var s1 := service + ['/'] + s2;
    var s0 := prefix + ['/'] + s1;
    SplitOnWord(service, s2, '/');
    SplitOnWord(prefix, s1, '/');
    SplitOnWord([], s0, '/');
    assert [] + ['/'] + s0 == "/" + prefix + "/" + service + "/" + version + rest;
  }

  /** A separator-free text is a single segment. */
  lemma {:induction false} SplitOnLast(w: string, sep: char)
    requires sep !in w
    ensures SplitOn(w, sep) == [w]
  {
    if w != [] {
      SplitOnLast(w[1..], sep);
      assert [w[0]] + w[1..] == w;
    }
  }

  /** A separator-free word followed by the separator becomes the first segment. */
  lemma {:induction false} SplitOnWord(w: string, rest: string, sep: char)
    requires sep !in w
    ensures SplitOn(w + [sep] + rest, sep) == [w] + SplitOn(rest, sep)
  {
    if w != [] {
      assert (w + [sep] + rest)[1..] == w[1..] + [sep] + rest;
      SplitOnWord(w[1..], rest, sep);
      assert [w[0]] + w[1..] == w;
    } else {
      assert (w + [sep] + rest)[1..] == rest;
    }
  }
}
