/**
  `Request#authorization` (lib/aliyun/mns/request.rb): the text that is
  signed and the `Authorization` header value built from its signature.
*/
module Signing {
  import opened Wrappers
  import opened RubyHash
  import opened Text
  import opened Sorting
  import opened Foreign

  /** `[uri.path, uri.query].compact.join("?")` */
  function CanonicalResource(path: string, query: Option<string>): (r: string)
    ensures query.None? ==> r == path
    ensures query.Some? ==> r == path + "?" + query.value
  {
    var parts := [path] + (if query.Some? then [query.value] else []);
    if query.Some? then
      JoinCons("?", parts);
      assert parts[1..] == [query.value];
      Join("?", parts)
    else
      Join("?", parts)
  }

  /** `"#{k.downcase}:#{v}"` */
  function HeaderLine(p: (string, string)): string {
    Downcase(p.0) + ":" + p.1
  }

  /**
    `mns_headers.sort.collect { ... }`: one line per header, ordered by the
    header's key as given (the downcasing happens after sorting).
  */
  function HeaderLines(h: Hash<string>): (lines: seq<string>)
    ensures |lines| == |h|
    ensures var s := SortByKey(h);
            forall i :: 0 <= i < |h| ==> lines[i] == HeaderLine(s[i])
  {
    var s := SortByKey(h);
    seq(|s|, i requires 0 <= i < |s| => HeaderLine(s[i]))
  }

  /** Every header of the hash has its line among the header lines. */
  lemma LineOfEachHeader(h: Hash<string>, p: (string, string))
    requires p in h
    ensures HeaderLine(p) in HeaderLines(h)
  {
    var s := SortByKey(h);
    assert p in multiset(s);
    var i :| 0 <= i < |s| && s[i] == p;
    assert HeaderLines(h)[i] == HeaderLine(p);
  }

  /** The canonical header block: the header lines joined by newlines. */
  function CanonicalHeaders(h: Hash<string>): string {
    Join("\n", HeaderLines(h))
  }

  /**
    The header lines list every header once, as its downcased key, a colon
    and its value, with the original keys strictly ascending.
  */
  lemma HeaderLinesAscending(h: Hash<string>)
    ensures var s := SortByKey(h);
            && multiset(s) == multiset(h)
            && (forall i, j :: 0 <= i < j < |s| ==> Below(s[i].0, s[j].0))
            && HeaderLines(h) == seq(|s|, i requires 0 <= i < |s| => Downcase(s[i].0) + ":" + s[i].1)
  {
    var s := SortByKey(h);
    assert forall i, j :: 0 <= i < j < |s| ==> Below(s[i].0, s[j].0);
  }

  /** Two header hashes with the same contents sign the same, whatever order they were filled in. */
  lemma CanonicalHeadersIgnoreInsertionOrder(h1: Hash<string>, h2: Hash<string>)
    requires forall k :: Lookup(h1, k) == Lookup(h2, k)
    ensures CanonicalHeaders(h1) == CanonicalHeaders(h2)
  {
    SortIgnoresInsertionOrder(h1, h2);
  }

  /** The text signed: six fields joined by newlines. */
  function StringToSign(methodName: string, contentMd5: Option<string>, contentType: Option<string>,
                        date: string, mnsHeaders: Hash<string>, path: string, query: Option<string>): (r: string)
    ensures r == (Upcase(methodName) + "\n") + ((contentMd5.GetOr("") + "\n") + ((contentType.GetOr("") + "\n")
                 + ((date + "\n") + ((CanonicalHeaders(mnsHeaders) + "\n") + CanonicalResource(path, query)))))
  {
    var fields := [Upcase(methodName), contentMd5.GetOr(""), contentType.GetOr(""), date,
                   CanonicalHeaders(mnsHeaders), CanonicalResource(path, query)];
    JoinCons("\n", fields);
    JoinCons("\n", fields[1..]);
    JoinCons("\n", fields[2..]);
    JoinCons("\n", fields[3..]);
    JoinCons("\n", fields[4..]);
    assert fields[1..][1..] == fields[2..] && fields[2..][1..] == fields[3..];
    assert fields[3..][1..] == fields[4..] && fields[4..][1..] == [fields[5]];
    Join("\n", fields)
  }

  /** `Base64.encode64(OpenSSL::HMAC.digest(sha1, key, text)).chop` */
  function Signature(lib: Library, key: string, text: string): string {
    Chop(lib.encode64(lib.hmacSha1(key, text)))
  }

  /** `"MNS #{access_id}:#{signature}"`; a nil access id prints as nothing. */
  function Authorization(accessId: Option<string>, signature: string): string {
    "MNS " + accessId.GetOr("") + ":" + signature
  }

  /**
    When Base64 ends its output with its usual single newline, the header
    carries the encoded HMAC exactly, newline removed.
  */
  lemma AuthorizationCarriesEncodedHmac(lib: Library, accessId: string, key: string, text: string, encoded: string)
    requires lib.encode64(lib.hmacSha1(key, text)) == encoded + "\n"
    requires encoded == [] || encoded[|encoded| - 1] != '\r'
    ensures Authorization(Some(accessId), Signature(lib, key, text)) == "MNS " + accessId + ":" + encoded
  {
    ChopNewline(encoded);
  }

  /** Text that differs only in one newline-free field, followed by a newline, differs. */
  lemma {:induction false} FieldSeparates(pre: string, a: string, b: string, post: string)
    requires a != b && '\n' !in a && '\n' !in b
    ensures pre + ((a + "\n") + post) != pre + ((b + "\n") + post)
  {
    var x, y := pre + ((a + "\n") + post), pre + ((b + "\n") + post);
    if |a| == |b| {
      var k :| 0 <= k < |a| && a[k] != b[k];
      assert x[|pre| + k] == a[k] && y[|pre| + k] == b[k];
    } else if |a| < |b| {
      assert x[|pre| + |a|] == '\n' && y[|pre| + |a|] == b[|a|];
    } else {
      assert y[|pre| + |b|] == '\n' && x[|pre| + |b|] == a[|b|];
    }
  }

  /**
    Two requests that differ only in their Content-MD5 sign different text,
    so a different body gives a different signature input.
  */
  lemma DigestIsSigned(methodName: string, md5a: string, md5b: string, contentType: Option<string>,
                       date: string, mnsHeaders: Hash<string>, path: string, query: Option<string>)
    requires md5a != md5b && '\n' !in md5a && '\n' !in md5b
    ensures StringToSign(methodName, Some(md5a), contentType, date, mnsHeaders, path, query)
         != StringToSign(methodName, Some(md5b), contentType, date, mnsHeaders, path, query)
  {
    var pre := Upcase(methodName) + "\n";
    var post := (contentType.GetOr("") + "\n")
                + ((date + "\n") + ((CanonicalHeaders(mnsHeaders) + "\n") + CanonicalResource(path, query)));
    FieldSeparates(pre, md5a, md5b, post);
  }

  /**
    Two requests signed on different dates sign different text, so the
    signature binds the `Date` header it travels with.
  */
  lemma DateIsSigned(methodName: string, contentMd5: Option<string>, contentType: Option<string>,
                     dateA: string, dateB: string, mnsHeaders: Hash<string>, path: string, query: Option<string>)
    requires dateA != dateB && '\n' !in dateA && '\n' !in dateB
    ensures StringToSign(methodName, contentMd5, contentType, dateA, mnsHeaders, path, query)
         != StringToSign(methodName, contentMd5, contentType, dateB, mnsHeaders, path, query)
  {
    var a, b, c := Upcase(methodName) + "\n", contentMd5.GetOr("") + "\n", contentType.GetOr("") + "\n";
    var post := (CanonicalHeaders(mnsHeaders) + "\n") + CanonicalResource(path, query);
    FieldSeparates(a + (b + c), dateA, dateB, post);
    assert forall x: string :: a + (b + (c + x)) == (a + (b + c)) + x;
  }

  /** The sample headers `{"X-B" => "2", "x-a" => "1"}` are already in ascending order. */
  lemma SampleAscends()
    ensures SortByKey([("X-B", "2"), ("x-a", "1")]) == [("X-B", "2"), ("x-a", "1")]
  {
    var h: Hash<string> := [("X-B", "2"), ("x-a", "1")];
    assert Below(h[0].0, h[1].0);
    SortedStays(h);
  }

  /** Downcasing the sample keys: only the "X" changes. */
  lemma SampleKeysDowncased()
    ensures Downcase("X-B") == "x-b" && Downcase("x-a") == "x-a"
  {
    assert Downcase("X-B") == "x-b";
    DowncaseLower("x-a");
  }

  /** The sample's header lines: "X-B" first, each key downcased only afterwards. */
  lemma SampleLines()
    ensures HeaderLines([("X-B", "2"), ("x-a", "1")]) == ["x-b:2", "x-a:1"]
  {
    var h: Hash<string> := [("X-B", "2"), ("x-a", "1")];
    SampleAscends();
    SampleKeysDowncased();
    var lines := HeaderLines(h);
    assert lines[0] == HeaderLine(h[0]) == "x-b" + ":" + "2" == "x-b:2";
    assert lines[1] == HeaderLine(h[1]) == "x-a" + ":" + "1" == "x-a:1";
  }

  /**
    The keys are sorted before they are downcased, so "X-B" (upper-case X)
    comes before "x-a".
  */
  lemma SortedBeforeDowncasing()
    ensures CanonicalHeaders([("X-B", "2"), ("x-a", "1")]) == "x-b:2\nx-a:1"
  {
    SampleLines();
    assert ["x-b:2", "x-a:1"][1..] == ["x-a:1"];
  }
}
