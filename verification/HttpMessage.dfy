/** src/networking/http/HttpHelpers.h and HttpMessage.cpp: requests, their headers, their text. */
module Http {
  import opened Text
  import opened Utils
  import opened ListJoin

  datatype Method = GET | POST | PUT | DELETE | PATCH | TRACE | HEAD | OPTIONS | CONNECT | INVALID | UNKNOWN

  datatype Version = NoVersion | Http10 | Http11

  type Headers = map<string, string>

  datatype Message = Message(version: Version, verb: Method, uri: string, headers: Headers, body: string)

  // --------------------------------------------------------------------- names

  function MethodName(m: Method): string {
    match m
    case GET => "GET"
    case POST => "POST"
    case PUT => "PUT"
    case DELETE => "DELETE"
    case PATCH => "PATCH"
    case TRACE => "TRACE"
    case HEAD => "HEAD"
    case OPTIONS => "OPTIONS"
    case CONNECT => "CONNECT"
    case INVALID => "INVALID"
    case UNKNOWN => "UNKNOWN"
  }

  /** `HttpAssembler::parseMethod`, which looks at the length first. */
  function ParseMethod(part: string): Method {
    match |part|
    case 3 => if part == "GET" then GET else if part == "PUT" then PUT else INVALID
    case 4 => if part == "POST" then POST else if part == "HEAD" then HEAD else INVALID
    case 5 => if part == "PATCH" then PATCH else if part == "TRACE" then TRACE else INVALID
    case 6 => if part == "DELETE" then DELETE else INVALID
    case 7 => if part == "OPTIONS" then OPTIONS else if part == "CONNECT" then CONNECT else INVALID
    case _ => INVALID
  }

  predicate Known(m: Method) {
    !m.INVALID? && !m.UNKNOWN?
  }

  /** The method table is the inverse of the method printer, and accepts nothing else. */
  lemma MethodTable(part: string, m: Method)
    requires Known(m)
    ensures ParseMethod(part) == m <==> part == MethodName(m)
    ensures ParseMethod(part) == INVALID || Known(ParseMethod(part))
    ensures MethodName(m) in {"GET", "POST", "PUT", "DELETE", "PATCH", "TRACE", "HEAD", "OPTIONS", "CONNECT"}
  {
  }

  /** All nine, and no other, in capitals only. */
  lemma MethodsTaken(part: string)
    ensures Known(ParseMethod(part))
            <==> part in {"GET", "POST", "PUT", "DELETE", "PATCH", "TRACE", "HEAD", "OPTIONS", "CONNECT"}
  {
  }

  function VersionName(v: Version): string {
    if v == Http10 then "HTTP/1.0" else "HTTP/1.1"
  }

  function VersionOf(part: string): Version {
    if part == "HTTP/1.0" then Http10 else if part == "HTTP/1.1" then Http11 else NoVersion
  }

  // ------------------------------------------------------------------- headers

  /** `addHeader`: a header that is there already is extended after a comma. */
  function WithHeader(headers: Headers, name: string, value: string): Headers {
    headers[name := if name in headers then Join(headers[name], value) else value]
  }

  function WithHeaders(headers: Headers, name: string, values: seq<string>): Headers {
    if values == [] then headers
    else WithHeader(WithHeaders(headers, name, values[..|values| - 1]), name, values[|values| - 1])
  }

  /** What the values list, one after the other. */
  function AllListed(values: seq<string>): seq<string> {
    if values == [] then [] else AllListed(values[..|values| - 1]) + Filled(Elements(values[|values| - 1]))
  }

  /** A header built by adding well-formed values one by one lists what the values list, in their order,
      and no other header changes. */
  lemma {:induction false} AddedHeaderLists(headers: Headers, name: string, values: seq<string>)
    requires name !in headers && values != []
    requires forall k :: 0 <= k < |values| ==> WellFormed(values[k])
    ensures var h := WithHeaders(headers, name, values);
            && h.Keys == headers.Keys + {name}
            && WellFormed(h[name]) && Filled(Elements(h[name])) == AllListed(values)
            && (forall other :: other in headers ==> h[other] == headers[other])
  {
    hide Elements, WellFormed, Filled;
    var n := |values| - 1;
    var front := WithHeaders(headers, name, values[..n]);
    if n > 0 {
      AddedHeaderLists(headers, name, values[..n]);
      JoinHomomorphism(front[name], values[n]);
      JoinStaysWellFormed(front[name], values[n]);
    } else {
      assert values[..0] == [] && AllListed([]) == [];
    }
  }

  /** So it contains a token if and only if one of the values does. */
  lemma AddedHeaderContains(headers: Headers, name: string, values: seq<string>, token: string)
    requires name !in headers && values != [] && token != ""
    requires forall k :: 0 <= k < |values| ==> WellFormed(values[k])
    ensures token in Elements(WithHeaders(headers, name, values)[name])
            <==> exists k :: 0 <= k < |values| && token in Elements(values[k])
  {
    hide Elements, WellFormed, Filled, WithHeaders;
    AddedHeaderLists(headers, name, values);
    FilledHas(Elements(WithHeaders(headers, name, values)[name]), token);
    ListedContains(values, token);
  }

  lemma {:induction false} ListedContains(values: seq<string>, token: string)
    requires token != ""
    ensures token in AllListed(values) <==> exists k :: 0 <= k < |values| && token in Elements(values[k])
  {
    hide Elements, Filled;
    if values != [] {
      var n := |values| - 1;
      ListedContains(values[..n], token);
      FilledHas(Elements(values[n]), token);
      if k :| 0 <= k < n && token in Elements(values[k]) {
        assert token in Elements(values[..n][k]);
      }
    }
  }

  lemma JoinStaysWellFormed(a: string, b: string)
    requires WellFormed(a) && WellFormed(b)
    ensures WellFormed(Join(a, b))
  {
    WellFormedJoin(a, b, 0);
  }

  // ----------------------------------------------------------------- the printer

  function HeaderLine(name: string, value: string): string {
    name + ": " + value + CRLF
  }

  function HeaderLines(headers: Headers, order: seq<string>): string
    requires forall k :: 0 <= k < |order| ==> order[k] in headers
  {
    if order == [] then ""
    else HeaderLine(order[0], headers[order[0]]) + HeaderLines(headers, order[1..])
  }

  function RequestLine(m: Message): string {
    MethodName(m.verb) + " " + m.uri + " " + VersionName(m.version) + CRLF
  }

  /** An order in which the hash table may present its keys. */
  ghost predicate IsOrder(order: seq<string>, headers: Headers) {
    && (forall k :: 0 <= k < |order| ==> order[k] in headers)
    && (forall j, k :: 0 <= j < k < |order| ==> order[j] != order[k])
    && (forall name :: name in headers ==> name in order)
  }

  function RequestText(m: Message, order: seq<string>): string
    requires forall k :: 0 <= k < |order| ==> order[k] in m.headers
  {
    RequestLine(m) + HeaderLines(m.headers, order) + CRLF + m.body
  }

  lemma {:induction false} HeaderLinesSnoc(headers: Headers, order: seq<string>, name: string)
    requires (forall k :: 0 <= k < |order| ==> order[k] in headers) && name in headers
    ensures HeaderLines(headers, order + [name]) == HeaderLines(headers, order) + HeaderLine(name, headers[name])
  {
    var all := order + [name];
    if order != [] {
      assert all[1..] == order[1..] + [name];
      HeaderLinesSnoc(headers, order[1..], name);
    } else {
      assert all[1..] == [];
    }
  }

  class HttpMessage {
    var version: Version
    var verb: Method
    var uri: string
    var headers: Headers
    var body: string

    constructor (version: Version, verb: Method, uri: string, headers: Headers, body: string)
      ensures Contents() == Message(version, verb, uri, headers, body)
    {
      this.version, this.verb, this.uri, this.headers, this.body := version, verb, uri, headers, body;
    }

    ghost function Contents(): Message
      reads this
    {
      Message(version, verb, uri, headers, body)
    }

    method AddHeader(name: string, value: string)
      modifies this`headers
      ensures headers == WithHeader(old(headers), name, value)
      ensures name in headers && headers - {name} == old(headers) - {name}
      ensures headers[name] == if name in old(headers) then old(headers[name]) + "," + value else value
    {
      if name in headers {
        headers := headers[name := headers[name] + "," + value];
      } else {
        headers := headers[name := value];
      }
    }

    /** Prints the headers in whatever order the table yields them. */
    method SerializeRequest() returns (text: string)
      ensures exists order :: IsOrder(order, headers) && text == RequestText(Contents(), order)
    {
      text := MethodName(verb) + " " + uri + " " + VersionName(version) + "\r\n";
      ghost var order := [];
      var remaining := headers.Keys;
      while remaining != {}
        invariant remaining <= headers.Keys
        invariant forall name :: name in headers ==> (name in order <==> name !in remaining)
        invariant forall k :: 0 <= k < |order| ==> order[k] in headers
        invariant forall j, k :: 0 <= j < k < |order| ==> order[j] != order[k]
        invariant text == RequestLine(Contents()) + HeaderLines(headers, order)
        decreases |remaining|
      {
        var name :| name in remaining;
        HeaderLinesSnoc(headers, order, name);
        text := text + (name + ": " + headers[name] + "\r\n");
        order := order + [name];
        remaining := remaining - {name};
      }
      text := text + "\r\n";
      text := text + body;
      assert IsOrder(order, headers) && text == RequestText(Contents(), order);
    }
  }
}
