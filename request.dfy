/** The request half of J11SdkAsyncClient.execute: how an SDK request (method,
    header map, URI, content publisher) becomes a JDK HttpRequest. The method
    picks GET, DELETE or a bodied request; headers pass a case-insensitive
    deny-list and are added one value at a time; the URI is copied unchanged. */
module RequestBuilding {
  import opened Flow

  /** The SDK's HTTP methods. */
  datatype Method = GET | POST | PUT | DELETE | HEAD | PATCH | OPTIONS

  /** The enum constant's name(). */
  function MethodName(m: Method): string {
    match m
    case GET => "GET"
    case POST => "POST"
    case PUT => "PUT"
    case DELETE => "DELETE"
    case HEAD => "HEAD"
    case PATCH => "PATCH"
    case OPTIONS => "OPTIONS"
  }

  /** GET and DELETE are sent without a body; every other method carries one. */
  predicate Bodiless(m: Method) { m == GET || m == DELETE }

  // ---------------------------------------------------------------------------
  // Case-insensitive names

  /** The characters outside ASCII that String.CASE_INSENSITIVE_ORDER folds onto an
      ASCII letter: capital I with dot, small dotless i, long s, Kelvin sign. */
  const FoldsOntoAscii: set<char> := {'\U{130}', '\U{131}', '\U{17F}', '\U{212A}'}

  /** Character.toLowerCase(Character.toUpperCase(c)), the folding the comparator
      applies, for every character whose folding is an ASCII letter; any other
      character is kept as it is. */
  function LowerChar(c: char): char {
    if 'A' <= c <= 'Z' then (c as int - 'A' as int + 'a' as int) as char
    else if c == '\U{130}' || c == '\U{131}' then 'i'
    else if c == '\U{17F}' then 's'
    else if c == '\U{212A}' then 'k'
    else c
  }

  /** Folding leaves no ASCII capital: each becomes its small letter, capital I
      with dot and dotless i become 'i', long s becomes 's', the Kelvin sign
      becomes 'k', and nothing else moves. */
  function LowerCase(s: string): (r: string)
    ensures |r| == |s|
    ensures forall i :: 0 <= i < |r| ==> !('A' <= r[i] <= 'Z')
    ensures forall i :: 0 <= i < |s| && 'A' <= s[i] <= 'Z' ==> r[i] as int == s[i] as int + 32
    ensures forall i :: 0 <= i < |s| && (s[i] == '\U{130}' || s[i] == '\U{131}') ==> r[i] == 'i'
    ensures forall i :: 0 <= i < |s| && s[i] == '\U{17F}' ==> r[i] == 's'
    ensures forall i :: 0 <= i < |s| && s[i] == '\U{212A}' ==> r[i] == 'k'
    ensures forall i :: 0 <= i < |s| && !('A' <= s[i] <= 'Z') && s[i] !in FoldsOntoAscii ==> r[i] == s[i]
  {
    seq(|s|, i requires 0 <= i < |s| => LowerChar(s[i]))
  }

  /** Folding twice is folding once. */
  lemma {:induction false} LowerCaseIdempotent(s: string)
    ensures LowerCase(LowerCase(s)) == LowerCase(s)
  {
    var r := LowerCase(s);
    assert forall i :: 0 <= i < |r| ==> LowerChar(r[i]) == r[i];
  }

  /** compareIgnoreCase(a, b) == 0: same length, and the folded characters agree
      position by position. */
  predicate EqualsIgnoringCase(a: string, b: string)
    decreases |a|
  {
    |a| == |b| && (a == [] || (LowerChar(a[0]) == LowerChar(b[0]) && EqualsIgnoringCase(a[1..], b[1..])))
  }

  lemma {:induction false} EqualsIgnoringCaseIsLowerEquality(a: string, b: string)
    ensures EqualsIgnoringCase(a, b) <==> LowerCase(a) == LowerCase(b)
    decreases |a|
  {
    if |a| == |b| && a != [] {
      EqualsIgnoringCaseIsLowerEquality(a[1..], b[1..]);
      LowerCaseCons(a);
      LowerCaseCons(b);
    }
  }

  lemma {:induction false} LowerCaseCons(a: string)
    requires a != []
    ensures LowerCase(a) == [LowerChar(a[0])] + LowerCase(a[1..])
  {
    assert forall i :: 0 <= i < |a| ==> LowerCase(a)[i] == LowerChar(a[i]);
    assert forall i :: 0 <= i < |a| - 1 ==> LowerCase(a[1..])[i] == LowerChar(a[i + 1]);
  }

  /** DISALLOWED_HEADERS, as written in the source's set literal. */
  const DisallowedHeaders: seq<string> :=
    ["Connection", "Content-Length", "Date", "Expect", "From", "Host",
     "Origin", "Referer", "Upgrade", "via", "Warning"]

  /** Membership in a TreeSet ordered by CASE_INSENSITIVE_ORDER. */
  predicate ContainsIgnoringCase(names: seq<string>, name: string)
    decreases |names|
  {
    if names == [] then false
    else EqualsIgnoringCase(names[0], name) || ContainsIgnoringCase(names[1..], name)
  }

  lemma {:induction false} ContainsIgnoringCaseMeans(names: seq<string>, name: string)
    ensures ContainsIgnoringCase(names, name) <==> exists i :: 0 <= i < |names| && EqualsIgnoringCase(names[i], name)
    decreases |names|
  {
    if names != [] {
      ContainsIgnoringCaseMeans(names[1..], name);
      if exists i :: 0 <= i < |names| && EqualsIgnoringCase(names[i], name) {
        var i :| 0 <= i < |names| && EqualsIgnoringCase(names[i], name);
        if i > 0 {
          assert names[1..][i - 1] == names[i];
        }
      }
      if exists i :: 0 <= i < |names[1..]| && EqualsIgnoringCase(names[1..][i], name) {
        var i :| 0 <= i < |names[1..]| && EqualsIgnoringCase(names[1..][i], name);
        assert names[i + 1] == names[1..][i];
      }
    }
  }

  predicate IsDisallowed(name: string) {
    ContainsIgnoringCase(DisallowedHeaders, name)
  }

  /** The lower-case spelling of every name the deny-list holds. */
  const DeniedLowerCase: set<string> :=
    {"connection", "content-length", "date", "expect", "from", "host",
     "origin", "referer", "upgrade", "via", "warning"}

  lemma {:induction false} DenyListLowerCase()
    ensures forall i :: 0 <= i < |DisallowedHeaders| ==> LowerCase(DisallowedHeaders[i]) in DeniedLowerCase
    ensures forall x :: x in DeniedLowerCase ==>
      exists j :: 0 <= j < |DisallowedHeaders| && LowerCase(DisallowedHeaders[j]) == x
  {
    FoldFirstNames();
    FoldLastNames();
  }

  lemma {:induction false} FoldFirstNames()
    ensures LowerCase(DisallowedHeaders[0]) == "connection"
    ensures LowerCase(DisallowedHeaders[1]) == "content-length"
    ensures LowerCase(DisallowedHeaders[2]) == "date"
    ensures LowerCase(DisallowedHeaders[3]) == "expect"
    ensures LowerCase(DisallowedHeaders[4]) == "from"
    ensures LowerCase(DisallowedHeaders[5]) == "host"
  {
  }

  lemma {:induction false} FoldLastNames()
    ensures LowerCase(DisallowedHeaders[6]) == "origin"
    ensures LowerCase(DisallowedHeaders[7]) == "referer"
    ensures LowerCase(DisallowedHeaders[8]) == "upgrade"
    ensures LowerCase(DisallowedHeaders[9]) == "via"
    ensures LowerCase(DisallowedHeaders[10]) == "warning"
  {
  }

  /** A name is refused exactly when its lower-case spelling is one of the eleven. */
  lemma {:induction false} DenyListExactly(name: string)
    ensures IsDisallowed(name) <==> LowerCase(name) in DeniedLowerCase
  {
    ContainsIgnoringCaseMeans(DisallowedHeaders, name);
    if IsDisallowed(name) {
      var i :| 0 <= i < |DisallowedHeaders| && EqualsIgnoringCase(DisallowedHeaders[i], name);
      EqualsIgnoringCaseIsLowerEquality(DisallowedHeaders[i], name);
      DenyListLowerCase();
    }
    if LowerCase(name) in DeniedLowerCase {
      DenyListLowerCase();
      var j :| 0 <= j < |DisallowedHeaders| && LowerCase(DisallowedHeaders[j]) == LowerCase(name);
      EqualsIgnoringCaseIsLowerEquality(DisallowedHeaders[j], name);
    }
  }

  /** Two spellings of a name that differ only in letter case are refused alike. */
  lemma {:induction false} DenyListIgnoresCase(a: string, b: string)
    requires EqualsIgnoringCase(a, b)
    ensures IsDisallowed(a) <==> IsDisallowed(b)
  {
    EqualsIgnoringCaseIsLowerEquality(a, b);
    DenyListExactly(a);
    DenyListExactly(b);
  }

  /** The comparator folds the long s onto 's', and both capital I with dot and
      dotless i onto 'i', so these spellings are refused like the names they fold
      onto. */
  lemma {:induction false} NonAsciiSpellingsRefused()
    ensures IsDisallowed("Ho\U{17F}t")
    ensures IsDisallowed("Or\U{131}gin")
    ensures IsDisallowed("Connect\U{131}on")
    ensures IsDisallowed("v\U{131}a")
    ensures IsDisallowed("Or\U{130}gin")
    ensures IsDisallowed("V\U{130}A")
  {
    assert LowerCase("Ho\U{17F}t") == "host";
    assert LowerCase("Or\U{131}gin") == "origin";
    assert LowerCase("Connect\U{131}on") == "connection";
    assert LowerCase("v\U{131}a") == "via";
    assert LowerCase("Or\U{130}gin") == "origin";
    assert LowerCase("V\U{130}A") == "via";
    DenyListExactly("Ho\U{17F}t");
    DenyListExactly("Or\U{131}gin");
    DenyListExactly("Connect\U{131}on");
    DenyListExactly("v\U{131}a");
    DenyListExactly("Or\U{130}gin");
    DenyListExactly("V\U{130}A");
  }

  // ---------------------------------------------------------------------------
  // Requests

  /** One entry of the SDK request's header map: a name and its value list. */
  datatype Header = Header(name: string, values: seq<string>)

  /** One header(name, value) call on the JDK request builder. */
  datatype HeaderLine = HeaderLine(name: string, value: string)

  /** The SDK content publisher, as far as the request builder sees it. */
  datatype ContentPublisher = ContentPublisher(id: nat, length: Option<nat>)

  /** The JDK body publisher that wraps it (BodyPublisherProxy). */
  datatype BodyPublisher = BodyPublisherProxy(publisher: ContentPublisher)

  datatype Body = NoBody | WithBody(publisher: BodyPublisher)

  datatype SdkRequest = SdkRequest(httpMethod: Method, headers: seq<Header>, uri: string)

  datatype HttpRequest = HttpRequest(httpMethod: string, body: Body, headers: seq<HeaderLine>, uri: string)

  /** BodyPublisherProxy.of: a null content publisher is refused. */
  function PublisherOf(content: Option<ContentPublisher>): (r: Result<BodyPublisher>)
    ensures r.Failure? <==> content.None?
    ensures r.Failure? ==> r.error == IllegalArgument("publisher must not be null")
    ensures r.Success? ==> r.value.publisher == content.value
  {
    match content
    case None => Failure(IllegalArgument("publisher must not be null"))
    case Some(p) => Success(BodyPublisherProxy(p))
  }

  /** BodyPublisherProxy.contentLength: the declared length, or -1 when unknown. */
  function ContentLength(p: BodyPublisher): (n: int)
    ensures n >= -1
    ensures n == -1 <==> p.publisher.length.None?
    ensures p.publisher.length.Some? ==> n == p.publisher.length.value
  {
    match p.publisher.length
    case None => -1
    case Some(k) => k
  }

  /** The stream filter: the entries whose name is not refused, in map order. */
  function Allowed(headers: seq<Header>): (kept: seq<Header>)
    ensures |kept| <= |headers|
    decreases |headers|
  {
    if headers == [] then []
    else if IsDisallowed(headers[0].name) then Allowed(headers[1..])
    else [headers[0]] + Allowed(headers[1..])
  }

  /** header(name, v) for each value v of one entry, in list order. */
  function Values(h: Header): (lines: seq<HeaderLine>)
    ensures |lines| == |h.values|
    ensures forall k :: 0 <= k < |h.values| ==> lines[k] == HeaderLine(h.name, h.values[k])
    decreases |h.values|
  {
    if h.values == [] then [] else [HeaderLine(h.name, h.values[0])] + Values(Header(h.name, h.values[1..]))
  }

  /** The forEach over the kept entries: their lines, entry after entry. */
  function Expand(entries: seq<Header>): seq<HeaderLine>
    decreases |entries|
  {
    if entries == [] then [] else Values(entries[0]) + Expand(entries[1..])
  }

  lemma {:induction false} AllowedAppend(a: seq<Header>, b: seq<Header>)
    ensures Allowed(a + b) == Allowed(a) + Allowed(b)
    decreases |a|
  {
    if a == [] {
      assert a + b == b;
    } else {
      assert (a + b)[0] == a[0];
      assert (a + b)[1..] == a[1..] + b;
      AllowedAppend(a[1..], b);
    }
  }

  lemma {:induction false} ExpandAppend(a: seq<Header>, b: seq<Header>)
    ensures Expand(a + b) == Expand(a) + Expand(b)
    decreases |a|
  {
    if a == [] {
      assert a + b == b;
    } else {
      assert (a + b)[0] == a[0];
      assert (a + b)[1..] == a[1..] + b;
      ExpandAppend(a[1..], b);
    }
  }

  /** The filter keeps exactly the entries whose name is not refused. */
  lemma {:induction false} AllowedMembership(headers: seq<Header>, h: Header)
    ensures h in Allowed(headers) <==> h in headers && !IsDisallowed(h.name)
    decreases |headers|
  {
    if headers != [] {
      var h0, rest := headers[0], headers[1..];
      AllowedMembership(rest, h);
      assert h in headers <==> h == h0 || h in rest by {
        assert headers == [h0] + rest;
      }
      if IsDisallowed(h0.name) {
        assert Allowed(headers) == Allowed(rest);
        assert h == h0 ==> IsDisallowed(h.name);
      } else {
        assert Allowed(headers) == [h0] + Allowed(rest);
        assert h in [h0] + Allowed(rest) <==> h == h0 || h in Allowed(rest);
      }
    }
  }

  /** A header line is built from an entry exactly when the entry holds that value
      under that name. */
  lemma {:induction false} ExpandMembership(entries: seq<Header>, name: string, value: string)
    ensures HeaderLine(name, value) in Expand(entries) <==>
      exists h :: h in entries && h.name == name && value in h.values
    decreases |entries|
  {
    if entries != [] {
      var h0 := entries[0];
      ExpandMembership(entries[1..], name, value);
      assert HeaderLine(name, value) in Values(h0) <==> h0.name == name && value in h0.values by {
        if HeaderLine(name, value) in Values(h0) {
          var k :| 0 <= k < |Values(h0)| && Values(h0)[k] == HeaderLine(name, value);
          assert h0.values[k] == value;
        }
        if h0.name == name && value in h0.values {
          var k :| 0 <= k < |h0.values| && h0.values[k] == value;
          assert Values(h0)[k] == HeaderLine(name, value);
        }
      }
      assert forall h :: h in entries <==> h == h0 || h in entries[1..] by {
        assert entries == [h0] + entries[1..];
      }
    }
  }

  /** The headers of the built request: the lines of the kept entries. */
  function AllowedLines(headers: seq<Header>): seq<HeaderLine> {
    Expand(Allowed(headers))
  }

  /** A header line is in the built request exactly when its name is allowed and
      the map holds that value under that name. */
  lemma {:induction false} AllowedLinesMembership(headers: seq<Header>, name: string, value: string)
    ensures HeaderLine(name, value) in AllowedLines(headers) <==>
      !IsDisallowed(name) && exists h :: h in headers && h.name == name && value in h.values
  {
    ExpandMembership(Allowed(headers), name, value);
    forall h ensures h in Allowed(headers) <==> h in headers && !IsDisallowed(h.name) {
      AllowedMembership(headers, h);
    }
  }

  /** No refused name, in any letter case, reaches the built request. */
  lemma {:induction false} NoDisallowedLine(headers: seq<Header>)
    ensures forall l :: l in AllowedLines(headers) ==> !IsDisallowed(l.name)
  {
    forall l | l in AllowedLines(headers) ensures !IsDisallowed(l.name) {
      AllowedLinesMembership(headers, l.name, l.value);
    }
  }

  /** A single entry passes the filter unless its name is refused, and expands to
      its own values. */
  lemma {:induction false} SingleEntry(h: Header)
    ensures Allowed([h]) == if IsDisallowed(h.name) then [] else [h]
    ensures Expand([h]) == Values(h)
  {
    assert [h][1..] == [];
  }

  /** Each entry contributes at its own place, following the map's entry order: a
      refused entry nothing, an allowed one its values in list order. */
  lemma {:induction false} EntryContribution(before: seq<Header>, h: Header, after: seq<Header>)
    ensures AllowedLines(before + [h] + after) ==
      AllowedLines(before) + (if IsDisallowed(h.name) then [] else Values(h)) + AllowedLines(after)
  {
    AllowedAppend(before + [h], after);
    AllowedAppend(before, [h]);
    SingleEntry(h);
    ExpandAppend(Allowed(before) + Allowed([h]), Allowed(after));
    ExpandAppend(Allowed(before), Allowed([h]));
  }

  /** An entry with an empty value list contributes nothing, whatever its name. */
  lemma {:induction false} EmptyEntryContributesNothing(before: seq<Header>, h: Header, after: seq<Header>)
    requires h.values == []
    ensures AllowedLines(before + [h] + after) == AllowedLines(before + after)
  {
    var mid := Allowed([h]);
    assert Expand(mid) == [] by {
      SingleEntry(h);
    }
    assert Allowed(before + [h] + after) == Allowed(before) + mid + Allowed(after) by {
      AllowedAppend(before + [h], after);
      AllowedAppend(before, [h]);
    }
    assert Expand(Allowed(before) + mid + Allowed(after)) == Expand(Allowed(before)) + Expand(Allowed(after)) by {
      ExpandAppend(Allowed(before) + mid, Allowed(after));
      ExpandAppend(Allowed(before), mid);
    }
    assert AllowedLines(before + after) == Expand(Allowed(before)) + Expand(Allowed(after)) by {
      AllowedAppend(before, after);
      ExpandAppend(Allowed(before), Allowed(after));
    }
  }

  // ---------------------------------------------------------------------------
  // The builder and execute

  /** The JDK HttpRequest.Builder, as the sequence of settings made on it. A
      fresh builder sends GET without a body. */
  class RequestBuilder {
    var httpMethod: string
    var body: Body
    var headers: seq<HeaderLine>
    var uri: Option<string>

    constructor ()
      ensures httpMethod == "GET" && body == NoBody && headers == [] && uri == None
    {
      httpMethod, body, headers, uri := "GET", NoBody, [], None;
    }

    method SetGet()
      modifies this
      ensures httpMethod == "GET" && body == NoBody
      ensures headers == old(headers) && uri == old(uri)
    {
      httpMethod, body := "GET", NoBody;
    }

    method SetDelete()
      modifies this
      ensures httpMethod == "DELETE" && body == NoBody
      ensures headers == old(headers) && uri == old(uri)
    {
      httpMethod, body := "DELETE", NoBody;
    }

    method SetMethod(name: string, publisher: BodyPublisher)
      modifies this
      ensures httpMethod == name && body == WithBody(publisher)
      ensures headers == old(headers) && uri == old(uri)
    {
      httpMethod, body := name, WithBody(publisher);
    }

    method AddHeader(name: string, value: string)
      modifies this
      ensures headers == old(headers) + [HeaderLine(name, value)]
      ensures httpMethod == old(httpMethod) && body == old(body) && uri == old(uri)
    {
      headers := headers + [HeaderLine(name, value)];
    }

    method SetUri(u: string)
      modifies this
      ensures uri == Some(u)
      ensures httpMethod == old(httpMethod) && body == old(body) && headers == old(headers)
    {
      uri := Some(u);
    }
  }

  /** x.getValue().forEach(h -> header(x.getKey(), h)) for one kept entry. */
  method AddValues(builder: RequestBuilder, h: Header)
    modifies builder
    ensures builder.headers == old(builder.headers) + Values(h)
    ensures builder.httpMethod == old(builder.httpMethod) && builder.body == old(builder.body)
    ensures builder.uri == old(builder.uri)
  {
    var k := 0;
    while k < |h.values|
      invariant 0 <= k <= |h.values|
      invariant builder.headers == old(builder.headers) + Values(h)[..k]
      invariant builder.httpMethod == old(builder.httpMethod) && builder.body == old(builder.body)
      invariant builder.uri == old(builder.uri)
    {
      builder.AddHeader(h.name, h.values[k]);
      assert Values(h)[..k + 1] == Values(h)[..k] + [HeaderLine(h.name, h.values[k])];
      k := k + 1;
    }
    assert Values(h)[..k] == Values(h);
  }

  /** The forEach over the entries that passed the filter. */
  method AddHeaders(builder: RequestBuilder, entries: seq<Header>)
    modifies builder
    ensures builder.headers == old(builder.headers) + Expand(entries)
    ensures builder.httpMethod == old(builder.httpMethod) && builder.body == old(builder.body)
    ensures builder.uri == old(builder.uri)
  {
    var i := 0;
    while i < |entries|
      invariant 0 <= i <= |entries|
      invariant builder.headers + Expand(entries[i..]) == old(builder.headers) + Expand(entries)
      invariant builder.httpMethod == old(builder.httpMethod) && builder.body == old(builder.body)
      invariant builder.uri == old(builder.uri)
    {
      assert Expand(entries[i..]) == Values(entries[i]) + Expand(entries[i + 1..]) by {
        assert entries[i..][0] == entries[i];
        assert entries[i..][1..] == entries[i + 1..];
      }
      AddValues(builder, entries[i]);
      i := i + 1;
    }
  }

  /** The request-building part of execute: dispatch on the method, add every
      allowed header value, set the URI. A bodied method with no content
      publisher fails as BodyPublisherProxy.of does. */
  method BuildRequest(request: SdkRequest, content: Option<ContentPublisher>) returns (r: Result<HttpRequest>)
    ensures r.Failure? <==> !Bodiless(request.httpMethod) && content.None?
    ensures r.Failure? ==> r.error == IllegalArgument("publisher must not be null")
    ensures r.Success? ==> && r.value.httpMethod == MethodName(request.httpMethod)
                           && r.value.body == (if Bodiless(request.httpMethod) then NoBody
                                               else WithBody(BodyPublisherProxy(content.value)))
                           && r.value.headers == AllowedLines(request.headers)
                           && r.value.uri == request.uri
  {
    var builder := new RequestBuilder();
    match request.httpMethod {
    case GET => builder.SetGet();
    case DELETE => builder.SetDelete();
    case _ =>
      var publisher := PublisherOf(content);
      if publisher.Failure? {
        return Failure(publisher.error);
      }
      builder.SetMethod(MethodName(request.httpMethod), publisher.value);
    }
    AddHeaders(builder, Allowed(request.headers));
    builder.SetUri(request.uri);
    r := Success(HttpRequest(builder.httpMethod, builder.body, builder.headers, builder.uri.value));
  }
}
