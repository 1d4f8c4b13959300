# aliyun-mns: the signed-request layer, in Dafny

This project models the core of the `aliyun-mns` Ruby client for Aliyun's
Message Service (MNS):

- `Aliyun::Mns::Request` (lib/aliyun/mns/request.rb) is the object every
  queue and message operation goes through.
  - `initialize` builds the URI and pins the `x-mns-version` header.
  - `content` turns a root tag and a hash of values into the XML body and
    derives Content-MD5, Content-Length and Content-Type from it.
  - `execute` signs the request for the current date, assembles the header
    table and hands the call to RestClient.
  - The class-level `get`/`delete`/`put`/`post` helpers fill in the
    default options, run the optional content block and execute.
- `Aliyun::Mns::RequestException` wraps a RestClient fault. Its content
  is the parsed `Error` element, or `{"Message" => ex.message}` when that
  lookup raises.
- `Hash.xml_object` and `Hash.xml_array` (lib/aliyun/mns.rb) walk a
  parsed XML document along a path of tag names.
- `Aliyun::Mns.configuration` and `.configure` memoise one configuration
  object for the process.

The modules follow the program's structure:

| module | file | what it holds |
|---|---|---|
| `Wrappers` | wrappers.dfy | `Option`, and `Result` with the Ruby exception classes the core can raise |
| `RubyHash` | ruby_hash.dfy | a Ruby `Hash` as an insertion-ordered list of distinct keys: `[]`, `[]=`, `merge`, `reject` |
| `Text` | text.dfy | `join`, `chop`, `downcase`, `upcase`, and Ruby's `String#<=>` |
| `Sorting` | sorting.dfy | `Hash#sort` on string keys |
| `XmlTree` | xml_tree.dfy | the parsed document, `xml_object`, `xml_array` |
| `Settings` | settings.dfy | the memoised configuration, as classes with mutable fields |
| `Foreign` | foreign.dfy | the library calls the core makes: MD5, Base64, HMAC-SHA1, `to_query`, Nokogiri, `from_xml` |
| `Signing` | signing.dfy | the private `authorization` method: the canonical resource, the header block, the string to sign, the header value |
| `Requests` | request.dfy | the `Request` class, the header table, `execute`, the class-level helpers, `RequestException` |

The request is a class whose fields `initialize` and `content` assign.
`State()` reads those fields as a `Descriptor` value. Each method is proved
against a function of that value: `Build`, `WithContent` and `Dispatch`.
The properties are proved as lemmas about those functions and about the
ones they are built from: `Outgoing`, `HeaderTable` and `StringToSign`.

Ruby exceptions are values. `Result` is either `Ok` or `Raise` carrying
`TypeError`, `NoMethodError` or `ParseError`. `Outcome` says how `execute`
ends: it returns the body, it raises a `RequestException`, or it raises
before anything is sent.

The library calls are the fields of a `Foreign.Library` value that every
operation takes as a parameter. Every property proved here therefore
holds for any MD5, Base64, HMAC, query encoder, XML serialiser and XML
parser. Other inputs are parameters too:

- the clock, as `date`;
- the environment, as `Settings.Environment`;
- the HTTP client, as `send: Call -> Response`.

## Behaviour of the code worth noting

- **Header order.** `mns_headers.sort` orders the headers by their keys
  as given, and only then downcases them (lib/aliyun/mns/request.rb:80).
  So `{"X-B" => "2", "x-a" => "1"}` signs as `x-b:2\nx-a:1`, because
  `"X-B"` sorts before `"x-a"`. See `Signing.SortedBeforeDowncasing`.
- **Every mns header is signed.** The header block holds one line for each
  entry of `mns_headers`, and nothing else.
- **Fault without an `Error` element.** When the fault text parses but
  has no `Error` element, `xml_object` yields `{}` and nothing raises, so
  the `rescue` is not taken. The exception's content is `{}` and
  `ex.message` is not kept. See `Requests.ExceptionWithoutErrorElement`.

## Model

| member | source | states |
|---|---|---|
| RubyHash.Lookup | lib/aliyun/mns.rb:18 | `h[k]` is present exactly when `k` is a key of the hash, and then the pair `(k, h[k])` is in the hash |
| RubyHash.MemberIffGet | lib/aliyun/mns/request.rb:80 | in a hash, a pair is present exactly when looking up its key yields its value |
| RubyHash.Single | lib/aliyun/mns/request.rb:11 | the literal `{k => v}` answers `v` for `k` and nil for every other key |
| RubyHash.Store | lib/aliyun/mns/request.rb:40 | `h[k] = v` makes `h[k]` equal to `v` and leaves every other key's value alone. The key set gains `k` |
| RubyHash.StoreOrder | lib/aliyun/mns/request.rb:40 | `h[k] = v` appends a new key at the end, and an existing key keeps its position with the length unchanged |
| RubyHash.Merge | lib/aliyun/mns/request.rb:58-65 | `a.merge(b)` answers `b[k]` for a key of `b` and `a[k]` otherwise. Its keys are the union |
| RubyHash.MergeKeepsPositions | lib/aliyun/mns/request.rb:58-65 | `a`'s keys keep their positions at the front of `a.merge(b)` |
| RubyHash.Reject | lib/aliyun/mns/request.rb:65 | `reject` never lengthens the list |
| RubyHash.RejectDropsAll | lib/aliyun/mns/request.rb:65 | no pair that survives `reject` carries a dropped value |
| RubyHash.RejectKeepsHash | lib/aliyun/mns/request.rb:65 | `reject` adds no key, and a hash stays a hash (its keys stay distinct) |
| RubyHash.RejectLookup | lib/aliyun/mns/request.rb:65 | after `reject`, `h[k]` is nil when its value was dropped and is unchanged otherwise |
| RubyHash.RejectKeepsOrder | lib/aliyun/mns/request.rb:65 | `reject` distributes over concatenation, so the pairs it keeps stay in their order |
| RubyHash.MapValues | lib/aliyun/mns/request.rb:65 | each value is mapped in place: same length, same keys in the same order |
| Text.Chop | lib/aliyun/mns/request.rb:51 | `chop` makes a non-empty string strictly shorter |
| Text.ChopNewline | lib/aliyun/mns/request.rb:85 | `chop` removes exactly the trailing newline that Base64 appends, unless the text before it ends in `\r` |
| Text.DowncaseLower | lib/aliyun/mns/request.rb:80 | a key without upper-case letters, such as `x-mns-version`, is its own downcase |
| Text.BelowIrreflexive | lib/aliyun/mns/request.rb:80 | no key sorts before itself |
| Text.BelowAsymmetric | lib/aliyun/mns/request.rb:80 | two keys never sort before each other |
| Text.BelowTransitive | lib/aliyun/mns/request.rb:80 | the key order is transitive |
| Text.BelowTotal | lib/aliyun/mns/request.rb:80 | of two different keys, one sorts before the other |
| Sorting.Insert | lib/aliyun/mns/request.rb:80 | inserting a pair with a new key into a strictly ascending list keeps it strictly ascending and adds exactly that pair |
| Sorting.SortByKey | lib/aliyun/mns/request.rb:80 | `h.sort` is a permutation of the hash's pairs with keys strictly ascending |
| Sorting.SortedUnique | lib/aliyun/mns/request.rb:80 | two strictly ascending lists with the same pairs are equal |
| Sorting.SortedStays | lib/aliyun/mns/request.rb:80 | a hash whose keys already ascend sorts to itself |
| Sorting.SortIgnoresInsertionOrder | lib/aliyun/mns/request.rb:80 | two hashes that agree on every key sort to the same list, whatever their insertion order |
| XmlTree.Step | lib/aliyun/mns.rb:18 | `memo[node]`, falling back to `{}`, selects the child a Hash holds under the tag when it is present and not nil. Otherwise a missing key yields `{}`. The step never yields nil |
| XmlTree.Descend | lib/aliyun/mns.rb:18 | the fold over an empty path returns the start node. Over a non-empty path it never yields nil |
| XmlTree.XmlObject | lib/aliyun/mns.rb:16-19 | a parse error propagates. An empty path returns the whole document. A non-empty path never yields nil |
| XmlTree.DescendFinds | lib/aliyun/mns.rb:18 | along a path whose every tag is present with a non-nil value, the fold reaches the element the path names |
| XmlTree.XmlObjectFinds | lib/aliyun/mns.rb:16-19 | for a parsed document, `xml_object(content, *path)` returns the element that a path of present tags names |
| XmlTree.EmptyStaysEmpty | lib/aliyun/mns.rb:18 | from `{}`, every path leads to `{}` |
| XmlTree.DescendAppend | lib/aliyun/mns.rb:18 | descending along `p + q` is descending along `p`, then along `q` from there; an error on `p` stops the walk |
| XmlTree.MissingTagEmpties | lib/aliyun/mns.rb:18 | once a step's key is missing, the result of the whole path is `{}` |
| XmlTree.IsEmpty | lib/aliyun/mns.rb:13 | `n.empty?` raises exactly on nil |
| XmlTree.RejectEmpty | lib/aliyun/mns.rb:13 | `reject(&:empty?)` raises `NoMethodError` exactly when a nil is present. Otherwise no kept element is empty |
| XmlTree.RejectEmptyKeepsOrder | lib/aliyun/mns.rb:13 | the filter distributes over concatenation, so the kept elements keep their relative order |
| XmlTree.RejectEmptyMembers | lib/aliyun/mns.rb:13 | an element is kept exactly when it was present and is not empty |
| XmlTree.XmlArrayElements | lib/aliyun/mns.rb:11-14 | `xml_array` filters the list itself when the looked-up value is a list, and `[value]` otherwise |
| XmlTree.MissingPathNoElements | lib/aliyun/mns.rb:11-19 | when a path prefix is missing, `xml_array` yields `[]` |
| Settings.Configuration.constructor | lib/aliyun/mns.rb:41 | the first configuration takes `access_id`, `key` and `host` from `OSS_ACCESS_ID`, `OSS_ACCESS_KEY` and `MNS_HOST` |
| Settings.Mns.constructor | lib/aliyun/mns.rb:38-40 | before the first `configuration` call, `@configuration` is unset and nothing has been built |
| Settings.Mns.GetConfiguration | lib/aliyun/mns.rb:39-43 | the memoised `@configuration`: the object is built once, from the environment, and every later call returns that same object |
| Settings.Mns.Configure | lib/aliyun/mns.rb:45-47 | `configure` assigns into the memoised object: the object is kept, and access id, key and host are set |
| Settings.ConfigureThenRead | lib/aliyun/mns.rb:39-47 | what `configure` sets is what later `configuration` calls see, and only one object is ever built |
| Signing.CanonicalResource | lib/aliyun/mns/request.rb:79 | the canonical resource is the path alone without a query, and `path + "?" + query` with one |
| Signing.LineOfEachHeader | lib/aliyun/mns/request.rb:80 | every mns header has its line in the header block |
| Signing.HeaderLinesAscending | lib/aliyun/mns/request.rb:80 | each line is `downcase(key) + ":" + value`. The lines come from a permutation of the headers with the original keys strictly ascending |
| Signing.CanonicalHeadersIgnoreInsertionOrder | lib/aliyun/mns/request.rb:80 | the header block depends only on the hash's contents, not on insertion order |
| Requests.VerbUpcase | lib/aliyun/mns/request.rb:81 | `self.method.to_s.upcase` gives `GET`, `DELETE`, `PUT` and `POST` for the four helper verbs |
| Signing.StringToSign | lib/aliyun/mns/request.rb:81-82 | the signed text is, separated by newlines: the upper-cased verb, Content-MD5 or "", Content-Type or "", the date, the header block and the canonical resource |
| Signing.AuthorizationCarriesEncodedHmac | lib/aliyun/mns/request.rb:83-85 | the header value is `"MNS " + access_id + ":"` followed by the Base64 HMAC-SHA1 of the signed text, with its newline chopped |
| Signing.FieldSeparates | lib/aliyun/mns/request.rb:82 | two texts that differ only in one newline-free field, followed by a newline, differ |
| Signing.DigestIsSigned | lib/aliyun/mns/request.rb:82 | two requests that differ only in Content-MD5 sign different text |
| Signing.DateIsSigned | lib/aliyun/mns/request.rb:82 | two requests that differ only in their date sign different text |
| Signing.SampleAscends | lib/aliyun/mns/request.rb:80 | `{"X-B" => "2", "x-a" => "1"}.sort` leaves the pairs in place, since `"X-B"` sorts before `"x-a"` |
| Signing.SampleLines | lib/aliyun/mns/request.rb:80 | the same hash gives the header lines `["x-b:2", "x-a:1"]` |
| Signing.SortedBeforeDowncasing | lib/aliyun/mns/request.rb:80 | `{"X-B" => "2", "x-a" => "1"}` signs as `x-b:2\nx-a:1`, because the sort sees the keys before they are downcased |
| Requests.SignedResource | lib/aliyun/mns/request.rb:32-37 | the signed resource is the path when params are empty, and `path + "?" + params.to_query` otherwise |
| Requests.Build | lib/aliyun/mns/request.rb:31-41 | after `initialize`: the URI has a query exactly when params are not empty, and `x-mns-version` is `2015-06-06` even when the caller gave another value. Every other caller header is kept, and nothing else is set |
| Requests.Request.constructor | lib/aliyun/mns/request.rb:31-41 | the object's fields after `initialize` are those `Build` gives, with the host taken from the configuration |
| Requests.WithContent | lib/aliyun/mns/request.rb:43-54 | after `content`, the body is the namespaced XML envelope and Content-MD5 is the chopped Base64 of the body's MD5 hex digest. Content-Length is the body's size and Content-Type is `text/xml;charset=utf-8`. URI, verb and headers are unchanged |
| Requests.Request.Content | lib/aliyun/mns/request.rb:43-54 | the method changes the object's fields as `WithContent` says |
| Requests.StandardHeaders | lib/aliyun/mns/request.rb:58-64 | the header literal has exactly the six standard keys |
| Requests.StandardValues | lib/aliyun/mns/request.rb:58-64 | under each standard key the literal holds its field: the authorization, `content_length` or 0, the content type, the MD5, the date and the host |
| Requests.HeaderTable | lib/aliyun/mns/request.rb:58-65 | the table holds no nil. An mns header wins on its key. Any other key has the standard value, or is absent where that value is nil |
| Requests.StandardEntries | lib/aliyun/mns/request.rb:58-65 | where no mns header overrides them, the table has Content-Length equal to `content_length` or 0, the date, and the authorization. Content-Type, Content-MD5 and Host appear only when set. No other key appears |
| Requests.SentDateIsSigned | lib/aliyun/mns/request.rb:57-65 | when no mns header named `Date` or `Authorization` overrides them, the `Date` header sent is the date the `Authorization` header was computed for |
| Requests.VersionLine | lib/aliyun/mns/request.rb:80 | the version header's line is `x-mns-version:2015-06-06` |
| Requests.VersionIsSigned | lib/aliyun/mns/request.rb:40 | every request signs the line `x-mns-version:2015-06-06`, whatever headers the caller gave |
| Requests.VersionOnlyHeaders | lib/aliyun/mns/request.rb:80 | with no caller headers, the header block is the version line alone |
| Requests.QueueGetText | lib/aliyun/mns/request.rb:81-82 | a GET of `/queueA` without content signs `"GET\n\n\n" + date + "\nx-mns-version:2015-06-06\n/queueA"` |
| Requests.QueueGetSigns | lib/aliyun/mns/request.rb:31-41 | `Request.new(method: :get, path: "/queueA")` has no query and no body, and signs the text above |
| Requests.ExceptionFromErrorElement | lib/aliyun/mns/request.rb:5-9 | when the fault parses and has an `Error` element, `content` is that element and `ex[k]` answers from it |
| Requests.ExceptionFromMessage | lib/aliyun/mns/request.rb:10-11 | when the fault text does not parse, the content is exactly `{"Message" => ex.message}` |
| Requests.ExceptionWithoutErrorElement | lib/aliyun/mns/request.rb:9 | when the fault parses without an `Error` element, the content is `{}` and `ex["Message"]` is nil |
| Requests.Prepared | lib/aliyun/mns/request.rb:20-25 | the helpers' defaults are overridden by the options given. The version is still pinned, and the content block sets the XML body and content type |
| Requests.DispatchOutcome | lib/aliyun/mns/request.rb:56-71 | `execute` raises `TypeError` exactly when there is no key, whatever the HTTP client does. With a key it returns `b` exactly when the signed call is delivered with body `b`, and a refused call becomes `RequestException.new(ex)` of the fault's text and message |
| Requests.Request.Execute | lib/aliyun/mns/request.rb:56-71 | `execute` raises `TypeError` without a key. Otherwise it sends the signed call, returns RestClient's body, or re-raises a fault as a `RequestException` |
| Requests.ConfigureThenPerform | lib/aliyun/mns/request.rb:17-27 | after `configure`, a helper call builds its request for the configured host and signs it with the configured access id and key: its outcome is `execute` on the prepared request with that configuration |
| Requests.Request.Perform | lib/aliyun/mns/request.rb:20-27 | `Request.get(path, options) { ... }` is `execute` on the prepared request |

## Left out

- The HTTP transport (`RestClient.send`, request.rb line 67) is a parameter `send` that returns a body or a fault's text and message. Connection errors that are not `RestClient::Exception`, and RestClient's own argument handling, are not modelled.
- The debug print `p @uri` has no effect on the model.
- `DateTime.now.httpdate` is the `date` parameter.
- `ENV` is read through the `Environment` value given to `GetConfiguration`.
- MD5, Base64, HMAC-SHA1, `Hash#to_query`, Nokogiri's XML builder and ActiveSupport's `Hash.from_xml` are opaque functions. Their outputs are not modelled, only how their inputs are assembled.
- `URI::HTTP.build` is the record `Uri(host, path, query)`, and its `to_s` is not modelled. `URI::HTTP.build` raises `URI::InvalidComponentError` on a path that is not absolute (such as `"queueA"`) or that holds a character such as a space, so `initialize` can raise where `Requests.Build` never does; that check is not modelled.
- The parsed XML tree holds maps, lists, text and nil only. The typed values `from_xml` can produce (integers, booleans) are not distinguished from text, so a `false` value is kept where Ruby's `memo[node] || {}` yields `{}`.
- `String#[]` with a string argument on a text node is modelled as "contains". Indexing text with other arguments is not modelled.
- Text.Downcase and Text.Upcase map ASCII letters only. Ruby's full Unicode case mapping is not modelled.
- Requests.Request.constructor and Requests.Build take every argument explicitly. The keyword defaults of `initialize` (`"get"`, `"/"`, `{}`, `{}`) are not modelled, and neither is a `nil` path passed by a helper called without one.
- Requests.Prepared: only the four known option keys are modelled. An unknown key, which makes `initialize` raise `ArgumentError`, is not modelled.
- Requests.Verb: the model takes the four helper verbs only. `initialize` accepts any `method:` value, such as the String `"get"` or another Symbol, and signs whatever `to_s.upcase` makes of it.
- Foreign.Envelope: the values given to `content` are strings. Non-string values, which Nokogiri's builder would turn into text, are not modelled.
- Requests.Request.Perform and Requests.Prepared: the helper's block is modelled as at most one `content` call. Other blocks given to the helpers are not modelled.
- mns header values are strings. Non-string header values, which Ruby would interpolate with `to_s`, are not modelled.
- Settings.Mns.Configure models the block that assigns all three settings. Other blocks given to `configure` are not modelled.
- The `Queue` and `Message` classes and lib/aliyun/mns/cli.rb are not part of this model.
