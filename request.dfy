/**
  `Aliyun::Mns::Request` and `Aliyun::Mns::RequestException`
  (lib/aliyun/mns/request.rb): building a request, giving it an XML body,
  signing it and handing it to the HTTP client.
*/
module Requests {
  import opened Wrappers
  import opened RubyHash
  import opened Text
  import opened Sorting
  import opened Signing
  import opened Foreign
  import opened Settings
  import X = XmlTree

  const ApiVersion: string := "2015-06-06"
  const VersionHeader: string := "x-mns-version"
  const Namespace: string := "http://mns.aliyuncs.com/doc/v1/"
  const XmlContentType: string := "text/xml;charset=utf-8"

  /** The HTTP verbs the class-level helpers define. */
  datatype Verb = Get | Delete | Put | Post {
    /** `method.to_s`: the verb's symbol name. */
    function Name(): string {
      match this
      case Get => "get"
      case Delete => "delete"
      case Put => "put"
      case Post => "post"
    }
  }

  /** What `URI::HTTP.build` is given: host, path and, only for non-empty params, a query. */
  datatype Uri = Uri(host: Option<string>, path: string, query: Option<string>)

  /** A value in the outgoing header table: nil, a String or an Integer. */
  datatype Value = Nil | Str(s: string) | Num(n: int)

  /** The fields of a Request object, as a value. */
  datatype Descriptor = Descriptor(
    uri: Uri,
    verb: Verb,
    mnsHeaders: Hash<string>,
    body: Option<string>,
    contentMd5: Option<string>,
    contentLength: Option<nat>,
    contentType: Option<string>)

  /** What RestClient is called with: `[method, uri.to_s, body, headers].compact`. */
  datatype Call = Call(verb: Verb, uri: Uri, body: Option<string>, headers: Hash<Value>)

  /** What RestClient does with a call: return the response body, or raise with a text and a message. */
  datatype Response = Delivered(body: string) | Refused(text: string, message: string)

  /** `RequestException`: its content is what `ex[...]` looks into. */
  datatype RequestException = RequestException(content: X.Node)

  /** How `execute` ends. */
  datatype Outcome =
    | Returned(body: string)             // RestClient's result
    | Failed(exception: RequestException) // a RestClient::Exception, re-raised
    | Raised(error: RubyError)           // raised before anything is sent

  function Lift(v: Option<string>): Value {
    match v
    case Some(s) => Str(s)
    case None => Nil
  }

  /** The URI `initialize` builds: the query only when `params` is not empty. */
  function BuildUri(lib: Library, host: Option<string>, path: string, params: Hash<string>): Uri {
    Uri(host, path, if params == [] then None else Some(lib.toQuery(params)))
  }

  /** The resource that is signed: the path, with `?` and the query only when there are params. */
  lemma SignedResource(lib: Library, host: Option<string>, path: string, params: Hash<string>)
    ensures var u := BuildUri(lib, host, path, params);
            && (params == [] ==> CanonicalResource(u.path, u.query) == path)
            && (params != [] ==> CanonicalResource(u.path, u.query) == path + "?" + lib.toQuery(params))
  {
  }

  /** `initialize`: the caller's headers with `x-mns-version` pinned, and no body yet. */
  function Build(lib: Library, host: Option<string>, verb: Verb, path: string,
                 mnsHeaders: Hash<string>, params: Hash<string>): (d: Descriptor)
    ensures d.verb == verb
    ensures d.uri.host == host && d.uri.path == path
    ensures d.uri.query.Some? <==> params != []
    ensures Lookup(d.mnsHeaders, VersionHeader) == Some(ApiVersion)
    ensures forall k :: k != VersionHeader ==> Lookup(d.mnsHeaders, k) == Lookup(mnsHeaders, k)
    ensures Keys(d.mnsHeaders) == Keys(mnsHeaders) + {VersionHeader}
    ensures d.body.None? && d.contentMd5.None? && d.contentLength.None? && d.contentType.None?
  {
    Descriptor(BuildUri(lib, host, path, params), verb, Store(mnsHeaders, VersionHeader, ApiVersion),
               None, None, None, None)
  }

  /** `Base64::encode64(Digest::MD5.hexdigest(body)).chop` */
  function ContentMd5(lib: Library, body: string): string {
    Chop(lib.encode64(lib.md5HexDigest(body)))
  }

  /** `content(type, values)`: the XML body and the three fields derived from it. */
  function WithContent(lib: Library, d: Descriptor, rootTag: string, values: Hash<string>): (e: Descriptor)
    ensures e.body == Some(lib.toXml(Envelope(rootTag, Namespace, values)))
    ensures e.contentMd5 == Some(ContentMd5(lib, e.body.value))
    ensures e.contentLength == Some(|e.body.value|)
    ensures e.contentType == Some(XmlContentType)
    ensures e.uri == d.uri && e.verb == d.verb && e.mnsHeaders == d.mnsHeaders
  {
    var body := lib.toXml(Envelope(rootTag, Namespace, values));
    d.(body := Some(body), contentMd5 := Some(ContentMd5(lib, body)),
       contentLength := Some(|body|), contentType := Some(XmlContentType))
  }

  /** The text a request signs on a given date. */
  function SigningText(d: Descriptor, date: string): string {
    StringToSign(d.verb.Name(), d.contentMd5, d.contentType, date, d.mnsHeaders, d.uri.path, d.uri.query)
  }

  /** `authorization(date)` for a configuration whose key is set. */
  function AuthorizationFor(lib: Library, d: Descriptor, accessId: Option<string>, key: string, date: string): string {
    Authorization(accessId, Signature(lib, key, SigningText(d, date)))
  }

  const StandardKeys: set<string> := {"Authorization", "Content-Length", "Content-Type", "Content-MD5", "Date", "Host"}

  /**
    The hash literal in `execute`, before the merge: nil where a field is
    unset. A literal keeps its pairs in the order written.
  */
  function StandardHeaders(d: Descriptor, authorization: string, date: string): (h: Hash<Value>)
    ensures Keys(h) == StandardKeys
  {
    var h := [("Authorization", Str(authorization)),
              ("Content-Length", Num(d.contentLength.GetOr(0))),
              ("Content-Type", Lift(d.contentType)),
              ("Content-MD5", Lift(d.contentMd5)),
              ("Date", Str(date)),
              ("Host", Lift(d.uri.host))];
    assert Keys(h[5..]) == {"Host"};
    assert Keys(h[4..]) == {"Date", "Host"};
    assert Keys(h[3..]) == {"Content-MD5", "Date", "Host"};
    assert Keys(h[2..]) == {"Content-Type", "Content-MD5", "Date", "Host"};
    assert Keys(h[1..]) == {"Content-Length", "Content-Type", "Content-MD5", "Date", "Host"};
    assert DistinctKeys(h[5..]);
    assert DistinctKeys(h[4..]);
    assert DistinctKeys(h[3..]);
    assert DistinctKeys(h[2..]);
    assert DistinctKeys(h[1..]);
    h
  }

  /** Under each standard key the literal holds the field it names. */
  lemma StandardValues(d: Descriptor, authorization: string, date: string)
    ensures var h := StandardHeaders(d, authorization, date);
            && Lookup(h, "Authorization") == Some(Str(authorization))
            && Lookup(h, "Content-Length") == Some(Num(d.contentLength.GetOr(0)))
            && Lookup(h, "Content-Type") == Some(Lift(d.contentType))
            && Lookup(h, "Content-MD5") == Some(Lift(d.contentMd5))
            && Lookup(h, "Date") == Some(Str(date))
            && Lookup(h, "Host") == Some(Lift(d.uri.host))
  {
    var h := StandardHeaders(d, authorization, date);
    forall i | 0 <= i < |h| ensures Lookup(h, h[i].0) == Some(h[i].1) {
      MemberIffGet(h, h[i]);
    }
    assert h[0] == ("Authorization", Str(authorization));
    assert h[1] == ("Content-Length", Num(d.contentLength.GetOr(0)));
    assert h[2] == ("Content-Type", Lift(d.contentType));
    assert h[3] == ("Content-MD5", Lift(d.contentMd5));
    assert h[4] == ("Date", Str(date));
    assert h[5] == ("Host", Lift(d.uri.host));
  }

  /**
    The header table `execute` sends: the six standard headers, merged with
    the mns headers (which win on a shared key), nil entries dropped.
  */
  function HeaderTable(d: Descriptor, authorization: string, date: string): (t: Hash<Value>)
    ensures forall i :: 0 <= i < |t| ==> t[i].1 != Nil
    ensures forall k :: k in Keys(d.mnsHeaders) ==> Lookup(t, k) == Some(Str(Lookup(d.mnsHeaders, k).value))
    ensures forall k :: k !in Keys(d.mnsHeaders) ==>
              Lookup(t, k) == var v := Lookup(StandardHeaders(d, authorization, date), k);
                              if v == Some(Nil) then None else v
  {
    var merged := Merge(StandardHeaders(d, authorization, date), MapValues(d.mnsHeaders, s => Str(s)));
    var drop := (v: Value) => v == Nil;
    RejectKeepsHash(merged, drop);
    RejectDropsAll(merged, drop);
    forall k ensures Lookup(Reject(merged, drop), k) == if Lookup(merged, k) == Some(Nil) then None else Lookup(merged, k) {
      RejectLookup(merged, drop, k);
    }
    Reject(merged, drop)
  }

  /** What the table holds under each standard key that no mns header overrides. */
  lemma StandardEntries(d: Descriptor, authorization: string, date: string)
    ensures var t := HeaderTable(d, authorization, date);
            var m := Keys(d.mnsHeaders);
            && ("Authorization" !in m ==> Lookup(t, "Authorization") == Some(Str(authorization)))
            && ("Content-Length" !in m ==> Lookup(t, "Content-Length") == Some(Num(d.contentLength.GetOr(0))))
            && ("Content-Type" !in m ==> Lookup(t, "Content-Type") == if d.contentType.Some? then Some(Str(d.contentType.value)) else None)
            && ("Content-MD5" !in m ==> Lookup(t, "Content-MD5") == if d.contentMd5.Some? then Some(Str(d.contentMd5.value)) else None)
            && ("Date" !in m ==> Lookup(t, "Date") == Some(Str(date)))
            && ("Host" !in m ==> Lookup(t, "Host") == if d.uri.host.Some? then Some(Str(d.uri.host.value)) else None)
            && (forall k :: k !in StandardKeys && k !in m ==> Lookup(t, k) == None)
  {
    StandardValues(d, authorization, date);
    var h := StandardHeaders(d, authorization, date);
    forall k | k !in StandardKeys ensures Lookup(h, k) == None {
    }
  }

  /** The call `execute` hands to RestClient once the request is signed. */
  function Outgoing(lib: Library, d: Descriptor, accessId: Option<string>, key: string, date: string): Call {
    Call(d.verb, d.uri, d.body, HeaderTable(d, AuthorizationFor(lib, d, accessId, key, date), date))
  }

  /**
    `RequestException.new(ex)`: the `Error` element parsed from the
    exception's text, or `{"Message" => ex.message}` when parsing or the
    lookup raises.
  */
  function NewRequestException(lib: Library, text: string, message: string): RequestException {
    match X.XmlObject(lib.fromXml(text), ["Error"])
    case Ok(n) => RequestException(n)
    case Raise(_) => RequestException(X.Map(Single("Message", X.Leaf(message))))
  }

  /** `ex[k]`, delegated to the content. */
  function Field(e: RequestException, k: string): Result<X.Node> {
    X.Index(e.content, k)
  }

  /** `execute` as a function of the request's fields and the configuration it reads. */
  function Dispatch(lib: Library, d: Descriptor, accessId: Option<string>, key: Option<string>,
                    date: string, send: Call -> Response): Outcome {
    match key
    case None => Raised(TypeError)
    case Some(k) =>
      match send(Outgoing(lib, d, accessId, k, date))
      case Delivered(b) => Returned(b)
      case Refused(text, message) => Failed(NewRequestException(lib, text, message))
  }

  /**
    How `execute` ends: without a key it raises `TypeError` whatever the
    HTTP client would do; with one it returns RestClient's body exactly when
    the signed call is delivered, and re-raises a refusal as a
    `RequestException` built from the fault's text and message.
  */
  lemma DispatchOutcome(lib: Library, d: Descriptor, accessId: Option<string>, key: Option<string>,
                        date: string, send: Call -> Response)
    ensures Dispatch(lib, d, accessId, key, date, send).Raised? <==> key.None?
    ensures key.None? ==> Dispatch(lib, d, accessId, key, date, send) == Raised(TypeError)
    ensures key.Some? ==>
              forall b :: (Dispatch(lib, d, accessId, key, date, send) == Returned(b)
                           <==> send(Outgoing(lib, d, accessId, key.value, date)) == Delivered(b))
    ensures key.Some? ==>
              forall text, message :: send(Outgoing(lib, d, accessId, key.value, date)) == Refused(text, message)
                                      ==> Dispatch(lib, d, accessId, key, date, send)
                                          == Failed(NewRequestException(lib, text, message))
  {
  }

  /** `self.method.to_s.upcase`: the verb as it appears in the signed text. */
  lemma VerbUpcase(v: Verb)
    ensures Upcase(v.Name()) == match v
                                case Get => "GET"
                                case Delete => "DELETE"
                                case Put => "PUT"
                                case Post => "POST"
  {
  }

  /** The version header's line: its key is already lower case. */
  lemma VersionLine()
    ensures HeaderLine((VersionHeader, ApiVersion)) == VersionHeader + ":" + ApiVersion
  {
    DowncaseLower(VersionHeader);
  }

  /**
    Every request signs the pinned version: its canonical header block has
    the line `x-mns-version:2015-06-06`, whatever headers the caller gave.
  */
  lemma VersionIsSigned(lib: Library, host: Option<string>, verb: Verb, path: string,
                        mnsHeaders: Hash<string>, params: Hash<string>)
    ensures VersionHeader + ":" + ApiVersion in HeaderLines(Build(lib, host, verb, path, mnsHeaders, params).mnsHeaders)
  {
    var h := Build(lib, host, verb, path, mnsHeaders, params).mnsHeaders;
    MemberIffGet(h, (VersionHeader, ApiVersion));
    LineOfEachHeader(h, (VersionHeader, ApiVersion));
    VersionLine();
  }

  /**
    The request that is sent carries the date it signed: the `Date` header
    and the date inside the signed text are the same `date`, unless the
    caller's mns headers override those keys.
  */
  lemma SentDateIsSigned(lib: Library, d: Descriptor, accessId: Option<string>, key: string, date: string)
    requires "Date" !in Keys(d.mnsHeaders) && "Authorization" !in Keys(d.mnsHeaders)
    ensures var c := Outgoing(lib, d, accessId, key, date);
            && Lookup(c.headers, "Date") == Some(Str(date))
            && Lookup(c.headers, "Authorization")
               == Some(Str(Authorization(accessId, Signature(lib, key, SigningText(d, date)))))
  {
    StandardEntries(d, AuthorizationFor(lib, d, accessId, key, date), date);
  }

  /** With no caller headers the canonical header block is the version line alone. */
  lemma VersionOnlyHeaders()
    ensures CanonicalHeaders(Store([], VersionHeader, ApiVersion)) == VersionHeader + ":" + ApiVersion
  {
    var h := Store([], VersionHeader, ApiVersion);
    StoreOrder([], VersionHeader, ApiVersion);
    assert h == [(VersionHeader, ApiVersion)];
    assert SortByKey(h) == h by {
      var s := SortByKey(h);
      assert |s| == 1 && s[0] in multiset(h);
    }
    VersionLine();
    assert HeaderLines(h) == [VersionHeader + ":" + ApiVersion];
  }

  /** The text signed for a GET of "/queueA" that has only the version header and no content. */
  lemma QueueGetText(date: string)
    ensures StringToSign("get", None, None, date, Store([], VersionHeader, ApiVersion), "/queueA", None)
         == "GET\n" + ("\n" + ("\n" + ((date + "\n") + ((VersionHeader + ":" + ApiVersion + "\n") + "/queueA"))))
  {
    VersionOnlyHeaders();
    assert Upcase("get") + "\n" == "GET\n" by {
      assert Upcase("get") == "GET";
    }
    assert "" + "\n" == "\n";
  }

  /**
    `Request.get("/queueA")` with no options and no content signs the verb,
    two empty content fields, the date, the version line and the path.
  */
  lemma QueueGetSigns(lib: Library, host: Option<string>, date: string)
    ensures var d := Build(lib, host, Get, "/queueA", [], []);
            && SigningText(d, date)
               == "GET\n" + ("\n" + ("\n" + ((date + "\n") + ((VersionHeader + ":" + ApiVersion + "\n") + "/queueA"))))
            && d.body.None? && d.uri.query.None?
  {
    var d := Build(lib, host, Get, "/queueA", [], []);
    assert d.mnsHeaders == Store([], VersionHeader, ApiVersion);
    assert SigningText(d, date) == StringToSign("get", None, None, date, d.mnsHeaders, "/queueA", None);
    QueueGetText(date);
  }

  /**
    A fault whose text parses and holds an `Error` element: the exception's
    content is that element, and it answers `ex[k]` from it.
  */
  lemma ExceptionFromErrorElement(lib: Library, text: string, message: string,
                                  fault: Hash<X.Node>, error: X.Node)
    requires lib.fromXml(text) == Ok(X.Map(fault))
    requires Lookup(fault, "Error") == Some(error) && error != X.Nil
    ensures NewRequestException(lib, text, message).content == error
    ensures forall k :: Field(NewRequestException(lib, text, message), k) == X.Index(error, k)
  {
    assert X.Descend(X.Map(fault), ["Error"]) == Ok(error) by {
      assert ["Error"][1..] == [];
    }
  }

  /**
    A fault whose text does not parse: the exception holds only the
    message, under "Message".
  */
  lemma ExceptionFromMessage(lib: Library, text: string, message: string)
    requires lib.fromXml(text).Raise?
    ensures NewRequestException(lib, text, message).content == X.Map(Single("Message", X.Leaf(message)))
    ensures Field(NewRequestException(lib, text, message), "Message") == Ok(X.Leaf(message))
    ensures forall k :: k != "Message" ==> Field(NewRequestException(lib, text, message), k) == Ok(X.Nil)
  {
  }

  /**
    A fault that parses but has no `Error` element does not fall back to the
    message: the lookup yields `{}`, nothing raises, and the message is lost.
  */
  lemma ExceptionWithoutErrorElement(lib: Library, text: string, message: string, fault: Hash<X.Node>)
    requires lib.fromXml(text) == Ok(X.Map(fault))
    requires Lookup(fault, "Error") in {None, Some(X.Nil)}
    ensures NewRequestException(lib, text, message).content == X.Empty
    ensures Field(NewRequestException(lib, text, message), "Message") == Ok(X.Nil)
  {
    assert X.Descend(X.Map(fault), ["Error"]) == Ok(X.Empty) by {
      assert ["Error"][1..] == [];
    }
  }

  /** The options the class-level helpers accept as their second argument; absent keys keep the defaults. */
  datatype Options = Options(verb: Option<Verb>, path: Option<string>, mnsHeaders: Option<Hash<string>>, params: Option<Hash<string>>)

  /**
    The `get`/`delete`/`put`/`post` helpers: `{method:, path:, mns_headers: {}, params: {}}`
    merged with the options given.
  */
  function Prepared(lib: Library, host: Option<string>, verb: Verb, path: string, given: Options,
                    content: Option<(string, Hash<string>)>): (d: Descriptor)
    ensures d.verb == given.verb.GetOr(verb) && d.uri.path == given.path.GetOr(path) && d.uri.host == host
    ensures d.uri.query.Some? <==> given.params.Some? && given.params.value != []
    ensures Lookup(d.mnsHeaders, VersionHeader) == Some(ApiVersion)
    ensures forall k :: k != VersionHeader ==> Lookup(d.mnsHeaders, k) == Lookup(given.mnsHeaders.GetOr([]), k)
    ensures content.None? ==> d.body.None? && d.contentLength.None?
    ensures content.Some? ==> d.body == Some(lib.toXml(Envelope(content.value.0, Namespace, content.value.1)))
                              && d.contentType == Some(XmlContentType)
  {
    var d := Build(lib, host, given.verb.GetOr(verb), given.path.GetOr(path),
                   given.mnsHeaders.GetOr([]), given.params.GetOr([]));
    match content
    case None => d
    case Some(c) => WithContent(lib, d, c.0, c.1)
  }

  class Request {
    var uri: Uri
    var verb: Verb
    var mnsHeaders: Hash<string>
    var body: Option<string>
    var contentMd5: Option<string>
    var contentLength: Option<nat>
    var contentType: Option<string>

    function State(): Descriptor
      reads this
    {
      Descriptor(uri, verb, mnsHeaders, body, contentMd5, contentLength, contentType)
    }

    /** `initialize`, reading the host from the configuration. */
    constructor (lib: Library, config: Configuration, verb: Verb, path: string,
                 mnsHeaders: Hash<string>, params: Hash<string>)
      ensures State() == Build(lib, config.host, verb, path, mnsHeaders, params)
    {
      uri := BuildUri(lib, config.host, path, params);
      this.verb := verb;
      this.mnsHeaders := Store(mnsHeaders, VersionHeader, ApiVersion);
      body, contentMd5, contentLength, contentType := None, None, None, None;
    }

    /** `content(type, values)` */
    method Content(lib: Library, rootTag: string, values: Hash<string>)
      modifies this
      ensures State() == WithContent(lib, old(State()), rootTag, values)
    {
      var xml := lib.toXml(Envelope(rootTag, Namespace, values));
      body := Some(xml);
      contentMd5 := Some(ContentMd5(lib, xml));
      contentLength := Some(|xml|);
      contentType := Some(XmlContentType);
    }

    /** `execute` on the given date, with RestClient as `send`. */
    method Execute(lib: Library, config: Configuration, date: string, send: Call -> Response) returns (r: Outcome)
      ensures r == Dispatch(lib, State(), config.accessId, config.key, date, send)
    {
      if config.key.None? {
        return Raised(TypeError);
      }
      var authorization := AuthorizationFor(lib, State(), config.accessId, config.key.value, date);
      var headers := HeaderTable(State(), authorization, date);
      var response := send(Call(verb, uri, body, headers));
      match response {
        case Delivered(b) => r := Returned(b);
        case Refused(text, message) => r := Failed(NewRequestException(lib, text, message));
      }
    }

    /**
      `Request.get(path, options) { |request| request.content(...) }` and its
      siblings; the block is the optional `content` call.
    */
    static method Perform(lib: Library, config: Configuration, verb: Verb, path: string, given: Options,
                          content: Option<(string, Hash<string>)>, date: string, send: Call -> Response)
      returns (r: Outcome)
      ensures r == Dispatch(lib, Prepared(lib, config.host, verb, path, given, content),
                            config.accessId, config.key, date, send)
    {
      var request := new Request(lib, config, given.verb.GetOr(verb), given.path.GetOr(path),
                                 given.mnsHeaders.GetOr([]), given.params.GetOr([]));
      ghost var built := request.State();
      if content.Some? {
        request.Content(lib, content.value.0, content.value.1);
        assert request.State() == WithContent(lib, built, content.value.0, content.value.1);
      }
      assert request.State() == Prepared(lib, config.host, verb, path, given, content);
      r := request.Execute(lib, config, date, send);
    }
  }

  /**
    A helper call after `configure`: the request reads the memoised
    configuration (request.rb's `delegate ... to: :configuration`), so it is
    built for the configured host and signed with the configured id and key.
  */
  method ConfigureThenPerform(m: Mns, env: Environment, accessId: string, key: string, host: string,
                              lib: Library, verb: Verb, path: string, given: Options,
                              content: Option<(string, Hash<string>)>, date: string, send: Call -> Response)
    returns (r: Outcome)
    requires m.Valid()
    modifies m, m.configuration
    ensures m.Valid() && m.built == 1
    ensures r == Dispatch(lib, Prepared(lib, Some(host), verb, path, given, content),
                          Some(accessId), Some(key), date, send)
  {
    m.Configure(env, accessId, key, host);
    var config := m.GetConfiguration(env);
    r := Request.Perform(lib, config, verb, path, given, content, date, send);
  }
}
