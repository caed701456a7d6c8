/**
 A model of the WikiTree API client in package `wikiclient`: the encoder that
 turns a getProfile request into a URL query suffix, the step that strips the
 JSON array brackets from the server's response, and the two calls that join
 them to the (external) HTTP transport and JSON decoder.
 */
module WikiClient {

  /** A byte of an HTTP response body (Go's `byte`). */
  newtype byte = b: int | 0 <= b < 0x100

  /** The ASCII codes of `[` and `]`. */
  const OpenBracket: byte := 0x5B
  const CloseBracket: byte := 0x5D

  datatype Option<+T> = None | Some(value: T)

  // ---------------------------------------------------------------------------
  // Requests and their URL parameters
  // ---------------------------------------------------------------------------

  /** A getProfile request, as seen through its getters: an unset field reads as "". */
  datatype GetProfileRequest = GetProfileRequest(
    action: string,
    key: string,
    fields: string,
    bioFormat: string,
    resolveRedirect: string)

  /** One URL parameter `name=value`. */
  datatype Param = Param(name: string, value: string)

  /** resolveRedirect is sent only when set and different from the server's default "1". */
  predicate SendsResolveRedirect(v: string)
  {
    v != "" && v != "1"
  }

  /**
   The parameters the encoder emits for a request, in the order it emits them.
   The bioFormat parameter carries the request's key, as the encoder writes it.
   */
  function ProfileParams(req: GetProfileRequest): (ps: seq<Param>)
    ensures 1 <= |ps| <= 5
    ensures ps[0] == Param("action", req.action)
  {
    [Param("action", req.action)]
    + (if req.key != "" then [Param("key", req.key)] else [])
    + (if req.fields != "" then [Param("fields", req.fields)] else [])
    + (if req.bioFormat != "" then [Param("bioFormat", req.key)] else [])
    + (if SendsResolveRedirect(req.resolveRedirect)
       then [Param("resolveRedirect", req.resolveRedirect)] else [])
  }

  /** `name=value`, with no escaping of either part. */
  function Field(p: Param): (s: string)
  {
    p.name + "=" + p.value
  }

  /** Each parameter written as `&name=value`, one after the other. */
  function Trailer(ps: seq<Param>): (s: string)
  {
    if ps == [] then "" else "&" + Field(ps[0]) + Trailer(ps[1..])
  }

  /** A query suffix: `?` before the first parameter, `&` before each later one. */
  function QueryString(ps: seq<Param>): (s: string)
    requires ps != []
  {
    "?" + Field(ps[0]) + Trailer(ps[1..])
  }

  /** The query suffix the encoder produces for a request. */
  function ProfileQuery(req: GetProfileRequest): (s: string)
  {
    QueryString(ProfileParams(req))
  }

  /**
   genGetProfileParams: grows a buffer by one write at a time, exactly as the
   Go code grows its bytes.Buffer, and returns what the buffer holds.
   */
  method GenGetProfileParams(req: GetProfileRequest) returns (query: string)
    ensures query == ProfileQuery(req)
  {
    var buf: string := "";
    buf := buf + "?action=";
    buf := buf + req.action;
    assert buf == "?action=" + req.action;
    ghost var written := buf;
    if req.key != "" {
      buf := buf + "&key=";
      buf := buf + req.key;
      Regroup3(written, "&key=", req.key);
    }
    assert buf == written + (if req.key != "" then "&key=" + req.key else "");
    written := buf;
    if req.fields != "" {
      buf := buf + "&fields=";
      buf := buf + req.fields;
      Regroup3(written, "&fields=", req.fields);
    }
    assert buf == written + (if req.fields != "" then "&fields=" + req.fields else "");
    written := buf;
    if req.bioFormat != "" {
      buf := buf + "&bioFormat=";
      buf := buf + req.key;
      Regroup3(written, "&bioFormat=", req.key);
    }
    assert buf == written + (if req.bioFormat != "" then "&bioFormat=" + req.key else "");
    written := buf;
    if req.resolveRedirect != "" && req.resolveRedirect != "1" {
      buf := buf + "&resolveRedirect=";
      buf := buf + req.resolveRedirect;
      Regroup3(written, "&resolveRedirect=", req.resolveRedirect);
    }
    assert buf == written + (if SendsResolveRedirect(req.resolveRedirect)
                             then "&resolveRedirect=" + req.resolveRedirect else "");
    ProfileQueryExpanded(req);
    query := buf;
  }

  // ---------------------------------------------------------------------------
  // Properties of the encoding
  // ---------------------------------------------------------------------------

  /** Writing a concatenation of parameter lists is writing each list in turn. */
  lemma {:induction false} TrailerAppend(a: seq<Param>, b: seq<Param>)
    ensures Trailer(a + b) == Trailer(a) + Trailer(b)
  {
    if a == [] {
      assert a + b == b;
    } else {
      assert (a + b)[0] == a[0];
      assert (a + b)[1..] == a[1..] + b;
      TrailerAppend(a[1..], b);
    }
  }

  /** Each label the encoder writes is its separator, the parameter name and `=`. */
  lemma Labels()
    ensures "?action=" == "?" + "action" + "="
    ensures "&key=" == "&" + "key" + "="
    ensures "&fields=" == "&" + "fields" + "="
    ensures "&bioFormat=" == "&" + "bioFormat" + "="
    ensures "&resolveRedirect=" == "&" + "resolveRedirect" + "="
  {
  }

  /**
   The trailer of an optional parameter is its label (`&name=`) and value when
   present, and nothing otherwise.
   */
  lemma TrailerOptional(present: bool, name: string, value: string, prefix: string)
    requires prefix == "&" + name + "="
    ensures Trailer(if present then [Param(name, value)] else [])
         == if present then prefix + value else ""
  {
    if present {
      assert [Param(name, value)][1..] == [];
      assert "&" + (name + "=" + value) + "" == prefix + value;
    }
  }

  /**
   The query is exactly the in-order concatenation of `?action=` and the action
   followed by each optional `&name=value` whose condition holds.
   */
  lemma ProfileQueryExpanded(req: GetProfileRequest)
    ensures ProfileQuery(req)
         == "?action=" + req.action
          + (if req.key != "" then "&key=" + req.key else "")
          + (if req.fields != "" then "&fields=" + req.fields else "")
          + (if req.bioFormat != "" then "&bioFormat=" + req.key else "")
          + (if SendsResolveRedirect(req.resolveRedirect)
             then "&resolveRedirect=" + req.resolveRedirect else "")
  {
    var k := if req.key != "" then [Param("key", req.key)] else [];
    var f := if req.fields != "" then [Param("fields", req.fields)] else [];
    var b := if req.bioFormat != "" then [Param("bioFormat", req.key)] else [];
    var r := if SendsResolveRedirect(req.resolveRedirect)
             then [Param("resolveRedirect", req.resolveRedirect)] else [];
    var ps := ProfileParams(req);
    assert ps[1..] == k + f + b + r;
    TrailerAppend(k + f + b, r);
    TrailerAppend(k + f, b);
    TrailerAppend(k, f);
    Labels();
    TrailerOptional(req.key != "", "key", req.key, "&key=");
    TrailerOptional(req.fields != "", "fields", req.fields, "&fields=");
    TrailerOptional(req.bioFormat != "", "bioFormat", req.key, "&bioFormat=");
    TrailerOptional(SendsResolveRedirect(req.resolveRedirect), "resolveRedirect",
                    req.resolveRedirect, "&resolveRedirect=");
    assert "?" + Field(ps[0]) == "?action=" + req.action by {
      Regroup("?", "action", "=", req.action);
    }
    assert Trailer(ps[1..]) == Trailer(k) + Trailer(f) + Trailer(b) + Trailer(r);
    Regroup("?action=" + req.action, Trailer(k) + Trailer(f), Trailer(b), Trailer(r));
    Regroup3("?action=" + req.action, Trailer(k), Trailer(f));
  }

  /**
   Concatenation regrouped, on parts Dafny need not unfold: a solver helper
   that models nothing in the client itself.
   */
  lemma Regroup3(a: string, b: string, c: string)
    ensures a + (b + c) == a + b + c
  {
  }

  /** The same regrouping for four parts; also a solver helper only. */
  lemma Regroup(a: string, b: string, c: string, d: string)
    ensures a + (b + c + d) == a + b + c + d
  {
  }

  /** The query always starts with `?action=` and the action itself, even an empty one. */
  lemma QueryStartsWithAction(req: GetProfileRequest)
    ensures "?action=" + req.action <= ProfileQuery(req)
  {
    ProfileQueryExpanded(req);
  }

  /**
   When no optional parameter other than the key would be written, the query is
   `?action=<action>&key=<key>`.
   */
  lemma ActionAndKeyOnly(req: GetProfileRequest)
    requires req.key != "" && req.fields == "" && req.bioFormat == ""
    requires !SendsResolveRedirect(req.resolveRedirect)
    ensures ProfileQuery(req) == "?action=" + req.action + "&key=" + req.key
  {
    ProfileQueryExpanded(req);
  }

  /** The sample in the encoder's doc comment. */
  lemma SampleQuery()
    ensures ProfileQuery(GetProfileRequest("getProfile", "Mustardo-1", "", "", ""))
         == "?action=getProfile&key=Mustardo-1"
  {
    ActionAndKeyOnly(GetProfileRequest("getProfile", "Mustardo-1", "", "", ""));
  }

  /**
   The example program sets only the key; with the action reading as "", the
   query carries an empty action.
   */
  lemma ExampleProgramQuery()
    ensures ProfileQuery(GetProfileRequest("", "Kennedy-21529", "", "", ""))
         == "?action=&key=Kennedy-21529"
  {
    ActionAndKeyOnly(GetProfileRequest("", "Kennedy-21529", "", "", ""));
  }

  /** The value of the first parameter with the given name, if any. */
  function Lookup(ps: seq<Param>, name: string): (r: Option<string>)
  {
    if ps == [] then None
    else if ps[0].name == name then Some(ps[0].value)
    else Lookup(ps[1..], name)
  }

  lemma {:induction false} LookupAppend(a: seq<Param>, b: seq<Param>, name: string)
    ensures Lookup(a + b, name) == if Lookup(a, name).Some? then Lookup(a, name) else Lookup(b, name)
  {
    if a == [] {
      assert a + b == b;
    } else {
      assert (a + b)[0] == a[0];
      assert (a + b)[1..] == a[1..] + b;
      LookupAppend(a[1..], b, name);
    }
  }

  /** Looking a name up in an optional parameter. */
  lemma LookupOptional(present: bool, name: string, value: string, n: string)
    ensures Lookup(if present then [Param(name, value)] else [], n)
         == if present && name == n then Some(value) else None
  {
    if present {
      assert [Param(name, value)][1..] == [];
    }
  }

  /**
   Which parameters the query carries and with which values: the action always;
   key, fields and bioFormat exactly when the field is non-empty;
   resolveRedirect exactly when it is non-empty and not "1"; nothing else.
   Each carries its own field's value except bioFormat, which carries the key.
   */
  lemma ParamPresence(req: GetProfileRequest, n: string)
    ensures Lookup(ProfileParams(req), n)
         == if n == "action" then Some(req.action)
            else if n == "key" && req.key != "" then Some(req.key)
            else if n == "fields" && req.fields != "" then Some(req.fields)
            else if n == "bioFormat" && req.bioFormat != "" then Some(req.key)
            else if n == "resolveRedirect" && SendsResolveRedirect(req.resolveRedirect)
            then Some(req.resolveRedirect)
            else None
  {
    var a := [Param("action", req.action)];
    var k := if req.key != "" then [Param("key", req.key)] else [];
    var f := if req.fields != "" then [Param("fields", req.fields)] else [];
    var b := if req.bioFormat != "" then [Param("bioFormat", req.key)] else [];
    var r := if SendsResolveRedirect(req.resolveRedirect)
             then [Param("resolveRedirect", req.resolveRedirect)] else [];
    assert ProfileParams(req) == a + k + f + b + r;
    LookupAppend(a + k + f + b, r, n);
    LookupAppend(a + k + f, b, n);
    LookupAppend(a + k, f, n);
    LookupAppend(a, k, n);
    LookupOptional(true, "action", req.action, n);
    LookupOptional(req.key != "", "key", req.key, n);
    LookupOptional(req.fields != "", "fields", req.fields, n);
    LookupOptional(req.bioFormat != "", "bioFormat", req.key, n);
    LookupOptional(SendsResolveRedirect(req.resolveRedirect), "resolveRedirect", req.resolveRedirect, n);
  }

  /** The position of each parameter name in the encoder's fixed order. */
  function Rank(name: string): (n: nat)
  {
    if name == "action" then 0
    else if name == "key" then 1
    else if name == "fields" then 2
    else if name == "bioFormat" then 3
    else if name == "resolveRedirect" then 4
    else 5
  }

  /** The parameters appear in the fixed order, each at most once. */
  lemma ParamOrder(req: GetProfileRequest)
    ensures forall i, j :: 0 <= i < j < |ProfileParams(req)| ==>
              Rank(ProfileParams(req)[i].name) < Rank(ProfileParams(req)[j].name)
  {
  }

  /**
   The length of the query is the sum of the lengths of the pieces written:
   `?action=` (8), `&key=` (5), `&fields=` (8), `&bioFormat=` (11) and
   `&resolveRedirect=` (17), with the value written after each.
   */
  lemma ProfileQueryLength(req: GetProfileRequest)
    ensures |ProfileQuery(req)|
         == 8 + |req.action|
          + (if req.key != "" then 5 + |req.key| else 0)
          + (if req.fields != "" then 8 + |req.fields| else 0)
          + (if req.bioFormat != "" then 11 + |req.key| else 0)
          + (if SendsResolveRedirect(req.resolveRedirect) then 17 + |req.resolveRedirect| else 0)
  {
    ProfileQueryExpanded(req);
  }

  /** The number of occurrences of `c` in `s`. */
  function Count(c: char, s: string): (n: nat)
  {
    if s == [] then 0 else (if s[0] == c then 1 else 0) + Count(c, s[1..])
  }

  lemma {:induction false} CountAppend(c: char, a: string, b: string)
    ensures Count(c, a + b) == Count(c, a) + Count(c, b)
  {
    if a == [] {
      assert a + b == b;
    } else {
      assert (a + b)[0] == a[0];
      assert (a + b)[1..] == a[1..] + b;
      CountAppend(c, a[1..], b);
    }
  }

  lemma {:induction false} CountAbsent(c: char, s: string)
    requires c !in s
    ensures Count(c, s) == 0
  {
    if s != [] {
      assert c !in s[1..];
      CountAbsent(c, s[1..]);
    }
  }

  /** No `&` in a parameter's name or value. */
  predicate AmpersandFree(p: Param)
  {
    '&' !in p.name && '&' !in p.value
  }

  /** A trailer of ampersand-free parameters holds one `&` per parameter. */
  lemma {:induction false} TrailerAmpersands(ps: seq<Param>)
    requires forall i :: 0 <= i < |ps| ==> AmpersandFree(ps[i])
    ensures Count('&', Trailer(ps)) == |ps|
  {
    if ps != [] {
      var p := ps[0];
      assert AmpersandFree(p);
      assert '&' !in Field(p);
      CountAbsent('&', Field(p));
      CountAppend('&', "&", Field(p));
      CountAppend('&', "&" + Field(p), Trailer(ps[1..]));
      TrailerAmpersands(ps[1..]);
    }
  }

  /** A query of ampersand-free parameters holds one `&` between each two of them. */
  lemma QueryStringAmpersands(ps: seq<Param>)
    requires ps != []
    requires forall i :: 0 <= i < |ps| ==> AmpersandFree(ps[i])
    ensures Count('&', QueryString(ps)) == |ps| - 1
  {
    assert AmpersandFree(ps[0]);
    assert '&' !in "?" + Field(ps[0]);
    CountAbsent('&', "?" + Field(ps[0]));
    CountAppend('&', "?" + Field(ps[0]), Trailer(ps[1..]));
    TrailerAmpersands(ps[1..]);
  }

  /** No parameter name the encoder writes holds an `&`. */
  lemma NamesAmpersandFree()
    ensures '&' !in "action" && '&' !in "key" && '&' !in "fields"
    ensures '&' !in "bioFormat" && '&' !in "resolveRedirect"
  {
  }

  /**
   When no value carries an `&`, the query holds exactly one `&` per optional
   parameter written: an empty or omitted field leaves no stray `&`.
   The bioFormat field itself is never written, so it is not constrained.
   */
  lemma ProfileQueryAmpersands(req: GetProfileRequest)
    requires '&' !in req.action && '&' !in req.key && '&' !in req.fields
    requires '&' !in req.resolveRedirect
    ensures Count('&', ProfileQuery(req))
         == (if req.key != "" then 1 else 0)
          + (if req.fields != "" then 1 else 0)
          + (if req.bioFormat != "" then 1 else 0)
          + (if SendsResolveRedirect(req.resolveRedirect) then 1 else 0)
  {
    var ps := ProfileParams(req);
    NamesAmpersandFree();
    forall i | 0 <= i < |ps| ensures AmpersandFree(ps[i]) {
      assert ps[i] in ps;
    }
    QueryStringAmpersands(ps);
  }

  /**
   The bioFormat field's own value never reaches the query: two requests that
   differ only in a non-empty bioFormat are encoded identically.
   */
  lemma BioFormatValueIgnored(req: GetProfileRequest, other: string)
    requires req.bioFormat != "" && other != ""
    ensures ProfileQuery(req.(bioFormat := other)) == ProfileQuery(req)
  {
    ProfileQueryExpanded(req);
    ProfileQueryExpanded(req.(bioFormat := other));
  }

  // ---------------------------------------------------------------------------
  // Response envelope
  // ---------------------------------------------------------------------------

  /** The server's array wrapping of a single JSON object: `[` + object + `]`. */
  function Wrap(s: seq<byte>): (w: seq<byte>)
  {
    [OpenBracket] + s + [CloseBracket]
  }

  /**
   The bracket strip of executeQuery: a body of at least two bytes loses its
   first and last byte, whatever they are; a shorter body is kept as it is.
   */
  function StripEnvelope(body: seq<byte>): (r: seq<byte>)
    ensures |body| >= 2 ==> |r| == |body| - 2
    ensures |body| >= 2 ==> forall i :: 0 <= i < |r| ==> r[i] == body[i + 1]
    ensures |body| < 2 ==> r == body
  {
    if |body| >= 2 then body[1..|body| - 1] else body
  }

  /** Stripping removes one byte at each end of anything it is given, brackets or not. */
  lemma StripEnds(first: byte, s: seq<byte>, last: byte)
    ensures StripEnvelope([first] + s + [last]) == s
  {
    var body := [first] + s + [last];
    assert body[1..|body| - 1] == s;
  }

  /** Stripping undoes the server's array wrapping. */
  lemma StripWrapped(s: seq<byte>)
    ensures StripEnvelope(Wrap(s)) == s
  {
    StripEnds(OpenBracket, s, CloseBracket);
  }

  /** A body that is bracketed is the wrapping of what stripping leaves. */
  lemma WrapStripped(body: seq<byte>)
    requires |body| >= 2 && body[0] == OpenBracket && body[|body| - 1] == CloseBracket
    ensures Wrap(StripEnvelope(body)) == body
  {
    assert body == [body[0]] + body[1..|body| - 1] + [body[|body| - 1]];
  }

  // ---------------------------------------------------------------------------
  // The query and profile calls, with the transport and decoder as parameters
  // ---------------------------------------------------------------------------

  /** What the HTTP transport did with one GET: the call failed, the body read failed, or a body. */
  datatype Fetched = GetFailed | ReadFailed | Body(bytes: seq<byte>)

  /** The stage at which a profile lookup failed. */
  datatype Failure = CallingEndpoint | ReadingResponse | Unmarshalling

  datatype Result<+T> = Ok(value: T) | Err(failure: Failure)

  /**
   executeQuery: GET `endpoint + params`; on success, the stripped body.
   `transport` stands for http.Get followed by reading the whole body.
   */
  function ExecuteQuery(endpoint: string, params: string, transport: string -> Fetched)
    : (r: Result<seq<byte>>)
    ensures transport(endpoint + params) == GetFailed <==> r == Err(CallingEndpoint)
    ensures transport(endpoint + params) == ReadFailed <==> r == Err(ReadingResponse)
    ensures transport(endpoint + params).Body? <==> r.Ok?
    ensures r.Ok? ==> r.value == StripEnvelope(transport(endpoint + params).bytes)
  {
    match transport(endpoint + params)
    case GetFailed => Err(CallingEndpoint)
    case ReadFailed => Err(ReadingResponse)
    case Body(bytes) => Ok(StripEnvelope(bytes))
  }

  /**
   GetProfile: encode the request, run the query, and hand the stripped body to
   the decoder (`unmarshal` stands for permissive protojson unmarshalling).
   */
  function GetProfile<R>(endpoint: string, req: GetProfileRequest,
                         transport: string -> Fetched, unmarshal: seq<byte> -> Option<R>)
    : (r: Result<R>)
    ensures r.Ok? <==> transport(endpoint + ProfileQuery(req)).Body?
                       && unmarshal(StripEnvelope(transport(endpoint + ProfileQuery(req)).bytes)).Some?
    ensures r.Ok? ==> r.value == unmarshal(StripEnvelope(transport(endpoint + ProfileQuery(req)).bytes)).value
    ensures !r.Ok? ==> r == (if transport(endpoint + ProfileQuery(req)) == GetFailed then Err(CallingEndpoint)
                             else if transport(endpoint + ProfileQuery(req)) == ReadFailed then Err(ReadingResponse)
                             else Err(Unmarshalling))
  {
    match ExecuteQuery(endpoint, ProfileQuery(req), transport)
    case Err(f) => Err(f)
    case Ok(json) =>
      match unmarshal(json)
      case None => Err(Unmarshalling)
      case Some(resp) => Ok(resp)
  }

  /**
   When the server answers the encoded URL with a wrapped object, the decoder
   sees exactly that object, and its verdict is the call's result.
   */
  lemma GetProfileDecodesWrappedObject<R>(endpoint: string, req: GetProfileRequest,
                                          transport: string -> Fetched,
                                          unmarshal: seq<byte> -> Option<R>, json: seq<byte>)
    requires transport(endpoint + ProfileQuery(req)) == Body(Wrap(json))
    ensures GetProfile(endpoint, req, transport, unmarshal)
         == if unmarshal(json).Some? then Ok(unmarshal(json).value) else Err(Unmarshalling)
  {
    StripWrapped(json);
  }

  /** A transport failure is reported at its own stage and the decoder is never consulted. */
  lemma GetProfileTransportFailure<R>(endpoint: string, req: GetProfileRequest,
                                      transport: string -> Fetched,
                                      unmarshal: seq<byte> -> Option<R>)
    requires !transport(endpoint + ProfileQuery(req)).Body?
    ensures GetProfile(endpoint, req, transport, unmarshal)
         == if transport(endpoint + ProfileQuery(req)) == GetFailed
            then Err(CallingEndpoint) else Err(ReadingResponse)
  {
  }
}
