/**
 * lib/consul/index.js: the Consul client's request builder.
 *
 * A `Consul` holds the agent's host and port, an optional ACL token and an
 * optional datacenter.  `_send` turns a method, a URI and a body into the
 * request record handed to the HTTP library: the token is appended as a
 * query parameter, the base URL is `http://host:port`, and the body is
 * attached only when it is truthy.  `_put` first writes the datacenter into
 * the caller's body object.  The HTTP call itself is not modelled: `Send`
 * returns the request it would hand over.
 */
module ConsulClient {
  import opened Wrappers

  /** A JSON value as `JSON.parse` produces it; numbers keep their text. */
  datatype Json =
    | JNull
    | JBool(b: bool)
    | JNumber(text: string)
    | JString(s: string)
    | JArray(items: seq<Json>)
    | JObject(fields: map<string, Json>)

  /** A JavaScript object passed as a request body; `_put` adds a field to it in place. */
  class DataObject {
    var fields: map<string, Json>

    constructor (fields: map<string, Json>)
      ensures this.fields == fields
    {
      this.fields := fields;
    }
  }

  /** A request body: a string or an object (other primitives are not modelled). */
  datatype Body = Text(s: string) | Object(obj: DataObject)

  /** JavaScript truthiness of an optional body: absent and the empty string are falsy. */
  predicate Truthy(body: Option<Body>)
    ensures Truthy(body) ==> body.Some?
    ensures body.Some? && body.value.Object? ==> Truthy(body)
    ensures body.Some? && body.value.Text? && body.value.s != [] ==> Truthy(body)
    ensures body == Some(Text([])) ==> !Truthy(body)
  {
    match body
    case None => false
    case Some(Text(s)) => s != []
    case Some(Object(_)) => true
  }

  /** Truthiness of an optional string setting: absent and empty are falsy. */
  predicate IsSet(setting: Option<string>)
    ensures IsSet(setting) ==> setting.Some? && |setting.value| > 0
    ensures setting.Some? && setting.value != [] ==> IsSet(setting)
    ensures setting == None || setting == Some([]) ==> !IsSet(setting)
  {
    setting.Some? && setting.value != []
  }

  /** The part of the constructor's configuration object that it reads. */
  datatype Config = Config(host: string, port: string, acl: Option<string>, dc: Option<string>)

  /** The request record handed to the HTTP library (its response transform is TransformResponse). */
  datatype Request = Request(verb: string, baseURL: string, url: string, data: Option<Body>)

  // ---------------------------------------------------------------------
  // Strings around the first occurrence of a character

  /** s up to, not including, its first c (all of s when there is none). */
  function Before(s: string, c: char): (r: string)
    ensures r <= s
    ensures c !in r
    ensures c in s ==> |r| < |s| && s[|r|] == c
    ensures c !in s ==> r == s
  {
    if s == [] then []
    else if s[0] == c then []
    else [s[0]] + Before(s[1..], c)
  }

  /** s after its first c, if it has one. */
  function After(s: string, c: char): (r: Option<string>)
    ensures r.Some? <==> c in s
    ensures r.Some? ==> s == Before(s, c) + [c] + r.value
  {
    if s == [] then None
    else if s[0] == c then Some(s[1..])
    else match After(s[1..], c)
      case None => None
      case Some(t) => Some(t)
  }

  /** The text cut at every c, in order: every piece is free of c, and joining them with c gives the text back. */
  function Split(s: string, c: char): (r: seq<string>)
    ensures |r| >= 1
    ensures forall i :: 0 <= i < |r| ==> c !in r[i]
    ensures Join(r, c) == s
    decreases |s|
  {
    match After(s, c)
    case None => [s]
    case Some(t) => [Before(s, c)] + Split(t, c)
  }

  /** The pieces with c between each two; Split undoes it. */
  function Join(pieces: seq<string>, c: char): string
    decreases |pieces|
  {
    if pieces == [] then []
    else if |pieces| == 1 then pieces[0]
    else pieces[0] + [c] + Join(pieces[1..], c)
  }

  /** The query parameters of a URI, `&`-separated after its first `?`. */
  function Params(uri: string): seq<string> {
    match After(uri, '?')
    case None => []
    case Some(q) => Split(q, '&')
  }

  /**
   * `uri` with `token=<acl>` appended when an ACL token is set: after `&`
   * when `uri` already has a `?`, after `?` otherwise.
   */
  function WithToken(uri: string, acl: Option<string>): (r: string)
    ensures !IsSet(acl) ==> r == uri
    ensures IsSet(acl) ==> |r| == |uri| + 7 + |acl.value| && uri < r
    ensures IsSet(acl) ==> r[|uri|] == (if '?' in uri then '&' else '?')
    ensures IsSet(acl) ==> r[|uri| + 1..] == "token=" + acl.value
  {
    if IsSet(acl) then uri + (if '?' in uri then "&" else "?") + "token=" + acl.value
    else uri
  }

  /** The base URL of every request. */
  function BaseURL(host: string, port: string): (r: string)
    ensures |r| == 8 + |host| + |port|
    ensures r[..7] == "http://"
  {
    "http://" + host + ":" + port
  }

  /** The outcome of `JSON.parse`: a value, or the error it throws, as text. */
  type ParseOutcome = Result<Json, string>

  const ParseErrorPrefix := "[requestClient] Error parsingJSON data "

  /**
   * The response transform: an empty or absent body is `{}`; otherwise the
   * body is parsed, and a parse error is rethrown with a prefix naming it.
   * `JSON.parse` is not modelled and is a parameter.
   */
  function TransformResponse(data: Option<string>, parse: string -> ParseOutcome): (r: Result<Json, string>)
    ensures data == None || data == Some([]) ==> r == Success(JObject(map[]))
    ensures data.Some? && data.value != [] && parse(data.value).Success? ==> r == parse(data.value)
    ensures data.Some? && data.value != [] && parse(data.value).Failure? ==>
      r.Failure? && ParseErrorPrefix <= r.error && r.error[|ParseErrorPrefix|..] == parse(data.value).error
  {
    if data == None || data == Some([]) then Success(JObject(map[]))
    else
      match parse(data.value)
      case Success(j) => Success(j)
      case Failure(e) => Failure(ParseErrorPrefix + e)
  }

  /** The objects `_put` may write to: the body's, if it is an object. */
  function BodyObjects(body: Option<Body>): set<DataObject> {
    if body.Some? && body.value.Object? then {body.value.obj} else {}
  }

  const DatacenterField := "Datacenter"

  /** The error strict-mode JavaScript throws when a property is set on a primitive or on undefined. */
  const TypeError := "TypeError: cannot create property 'Datacenter'"

  class Consul {
    var host: string
    var port: string
    var acl: Option<string>
    var dc: Option<string>

    /** Copies host, port and ACL token; the datacenter only when it is set (`config.dc || false`). */
    constructor (config: Config)
      ensures host == config.host && port == config.port && acl == config.acl
      ensures IsSet(config.dc) ==> dc == config.dc
      ensures !IsSet(config.dc) ==> dc == None
    {
      host := config.host;
      port := config.port;
      acl := config.acl;
      dc := if IsSet(config.dc) then config.dc else None;
    }

    /** r is the request `_send(method, uri, body)` hands to the HTTP library; `verb` is its `method`. */
    predicate SentAs(r: Request, verb: string, uri: string, body: Option<Body>)
      reads this
    {
      && r.verb == verb
      && r.baseURL == BaseURL(host, port)
      && r.url == WithToken(uri, acl)
      && r.data == (if Truthy(body) then body else None)
    }

    /** `_send`: the URI gets the token, the base URL is fixed, and a truthy body becomes the data. */
    method Send(verb: string, uri: string, body: Option<Body>) returns (r: Request)
      ensures SentAs(r, verb, uri, body)
      ensures Truthy(body) <==> r.data.Some?
    {
      var url := uri;
      if acl.Some? && acl.value != [] {
        url := url + (if '?' in url then "&" else "?");
        url := url + "token=" + acl.value;
      }
      r := Request(verb, "http://" + host + ":" + port, url, None);
      if Truthy(body) {
        r := r.(data := body);
      }
    }

    /** `_get`: a GET without a body. */
    method Get(uri: string) returns (r: Request)
      ensures SentAs(r, "GET", uri, None)
      ensures r.data == None
    {
      r := Send("GET", uri, None);
    }

    /** `_delete`: a DELETE without a body. */
    method Delete(uri: string) returns (r: Request)
      ensures SentAs(r, "DELETE", uri, None)
      ensures r.data == None
    {
      r := Send("DELETE", uri, None);
    }

    /**
     * `_put`: with a datacenter set, writes it into the body object as
     * `Datacenter`, the other fields untouched, then sends a PUT.  Setting a
     * property on a string or on undefined throws in strict mode, and no
     * request is made.  Without a datacenter the body is sent as it is.
     */
    method Put(uri: string, data: Option<Body>) returns (r: Result<Request, string>)
      modifies BodyObjects(data)
      ensures IsSet(dc) && data.Some? && data.value.Object? ==>
        data.value.obj.fields == old(data.value.obj.fields)[DatacenterField := JString(dc.value)]
      ensures IsSet(dc) && !(data.Some? && data.value.Object?) ==> r == Failure(TypeError)
      ensures !IsSet(dc) ==> r.Success? && unchanged(BodyObjects(data))
      ensures data.Some? && data.value.Object? ==> r.Success?
      ensures r.Success? ==> SentAs(r.value, "PUT", uri, data)
    {
      if IsSet(dc) {
        if data.Some? && data.value.Object? {
          var obj := data.value.obj;
          obj.fields := obj.fields[DatacenterField := JString(dc.value)];
        } else {
          return Failure(TypeError);
        }
      }
      var sent := Send("PUT", uri, data);
      r := Success(sent);
    }
  }
}
