/** api/TaktiqAssemblySuite: the list logic of the client of the sequencing
    service. It holds the batch of vehicle records read from the service,
    the records selected for one series, and the production line they
    belong to. The HTTP exchanges (authentication, reading and sending
    orders) are outside the model: their results are parameters. */
module AssemblySuite {
  import opened Wrappers
  import opened Json
  import opened JavaInts
  import opened Refreshing
  import opened Tokens
  import opened TaktiqVehicles

  /** The validity the suite gives a new access token: ten seconds. */
  const TokenExpirationTime: Long := 10000

  /** A token the suite has just received is already due for a refresh: its
      validity is shorter than the default lead time. */
  lemma SuiteTokenDueAtOnce(now: Long)
    requires now + TokenExpirationTime <= MaxLong
    ensures RefreshDue(ExpiryAfter(now, TokenExpirationTime), DefaultLeadTime, now)
    ensures Remaining(ExpiryAfter(now, TokenExpirationTime), now) == TokenExpirationTime
  {
    ShortValidityDueAtOnce(now, TokenExpirationTime, DefaultLeadTime);
  }

  // ---------------------------------------------------------------------------
  // Request URLs

  /** The paths the suite appends to its base URL. */
  const AuthorizationUrl := "/api/Users/authenticate"
  const OrdersReadUrl := "/api/Orders"

  /** The text of `s` before its first '/'. */
  function BeforeSlash(s: string): (r: string)
    ensures '/' !in r
    ensures r <= s
  {
    if s == [] || s[0] == '/' then [] else [s[0]] + BeforeSlash(s[1..])
  }

  /** The text of `s` before its first ':'. */
  function BeforeColon(s: string): (r: string)
    ensures ':' !in r
    ensures r <= s
  {
    if s == [] || s[0] == ':' then [] else [s[0]] + BeforeColon(s[1..])
  }

  /** `Character.toLowerCase` on the ASCII letters. */
  function LowerChar(c: char): char {
    if 'A' <= c <= 'Z' then (c as int + 32) as char else c
  }

  function Lower(s: string): (r: string)
    ensures |r| == |s| && forall i :: 0 <= i < |s| ==> r[i] == LowerChar(s[i])
  {
    if s == [] then [] else [LowerChar(s[0])] + Lower(s[1..])
  }

  predicate IsLetter(c: char) {
    'a' <= c <= 'z' || 'A' <= c <= 'Z'
  }

  /** `URL.isValidProtocol`: a letter, then letters, digits, '.', '+' or '-'. */
  predicate IsProtocolName(p: string) {
    && p != [] && IsLetter(p[0])
    && forall i :: 1 <= i < |p| ==> IsLetter(p[i]) || '0' <= p[i] <= '9' || p[i] in ".+-"
  }

  /** Whether a ':' comes ahead of the first '/'. */
  predicate HasProtocol(url: string) {
    ':' in BeforeSlash(url)
  }

  /** The protocol `new URL(urlString)` reads: the text before a ':' that
      comes ahead of the first '/', in lower case, when it is a valid
      protocol name. Without one the constructor throws
      MalformedURLException, an IOException. */
  function Protocol(url: string): (r: Option<string>)
    ensures r.Some? ==> HasProtocol(url) && IsProtocolName(r.value)
  {
    var p := Lower(BeforeColon(BeforeSlash(url)));
    if HasProtocol(url) && IsProtocolName(p) then Some(p) else None
  }

  /** The protocols the JDK has handlers for whose connections are not
      `HttpsURLConnection`s: the cast in `createConnection` throws
      ClassCastException for them. */
  const OtherHandlers: set<string> := {"file", "ftp", "http", "jar", "jrt", "mailto"}

  /** Text without '/' followed by a path starting with '/': the text is all
      that comes before the first '/'. */
  lemma {:induction false} BeforeSlashOfPath(a: string, path: string)
    requires '/' !in a && path != [] && path[0] == '/'
    ensures BeforeSlash(a + path) == a
  {
    if a != [] {
      assert (a + path)[1..] == a[1..] + path;
      BeforeSlashOfPath(a[1..], path);
    } else {
      assert a + path == path;
    }
  }

  /** A request to `url` through `UrlHandler.createConnection`. Without a
      valid protocol `new URL` throws MalformedURLException (an
      IOException). A protocol of a standard JDK handler other than https
      gives a connection that is not an `HttpsURLConnection`, and the cast
      throws ClassCastException; any other protocol has no handler, and
      `new URL` throws MalformedURLException. Only an https URL reaches the
      server, and then the result is `answer`, the outcome of the HTTP
      exchange (transport, status and the decoding of the response), which
      is outside the model. */
  function Request<T>(url: string, answer: Result<T>): (r: Result<T>)
    ensures r.Ok? ==> Protocol(url) == Some("https") && r == answer
    ensures Protocol(url) == Some("https") ==> r == answer
    ensures Protocol(url).None? ==> r == Err(IO)
    ensures Protocol(url).Some? && Protocol(url).value in OtherHandlers ==> r == Err(ClassCast)
    ensures Protocol(url).Some? && Protocol(url).value != "https" && Protocol(url).value !in OtherHandlers ==> r == Err(IO)
  {
    match Protocol(url)
    case None => Err(IO)
    case Some(p) =>
      if p == "https" then answer
      else if p in OtherHandlers then Err(ClassCast)
      else Err(IO)
  }

  /** `authenticate`: the request to the base URL followed by the
      authorization path; `answer` holds the two tokens of the response. */
  function Authenticate(baseurl: Option<string>, answer: Result<(string, string)>): Result<(string, string)> {
    Request(JavaText(baseurl) + AuthorizationUrl, answer)
  }

  /** The constructor as written: the inverted guard, then `authenticate`. */
  function ConstructSpec(username: Option<string>, password: Option<string>, baseurl: Option<string>,
                         answer: Result<(string, string)>): (r: Result<(string, string)>)
    ensures r.Ok? ==> username.Some? && password.Some? && baseurl.None? && answer.Ok?
  {
    if username.None? || password.None? || baseurl.Some? then Err(IO)
    else Authenticate(baseurl, answer)
  }

  /** The only base URL the guard lets through is null, written "null" in
      front of the authorization path: "null/api/Users/authenticate" has no
      protocol, so the constructor as written throws on every input. */
  lemma ConstructorAlwaysThrows(username: Option<string>, password: Option<string>, baseurl: Option<string>,
                                answer: Result<(string, string)>)
    ensures ConstructSpec(username, password, baseurl, answer) == Err(IO)
  {
    if username.Some? && password.Some? && baseurl.None? {
      BeforeSlashOfPath("null", AuthorizationUrl);
      assert BeforeSlash(JavaText(baseurl) + AuthorizationUrl) == "null";
    }
  }

  /** The constructor as intended: all three credentials must be set, then
      `authenticate`. */
  function ConstructCheckedSpec(username: Option<string>, password: Option<string>, baseurl: Option<string>,
                                answer: Result<(string, string)>): (r: Result<(string, string)>)
    ensures r.Ok? <==> username.Some? && password.Some? && baseurl.Some?
                        && Protocol(baseurl.value + AuthorizationUrl) == Some("https") && answer.Ok?
    ensures r.Ok? ==> r == answer
    ensures r.Err? && !(username.Some? && password.Some? && baseurl.Some?) ==> r.error == IO
  {
    if username.None? || password.None? || baseurl.None? then Err(IO)
    else Authenticate(baseurl, answer)
  }

  /** The protocol of a base URL "<scheme>://..." followed by the
      authorization path is its scheme. */
  lemma SchemeOfBaseUrl(scheme: string, rest: string)
    requires IsProtocolName(scheme) && forall i :: 0 <= i < |scheme| ==> 'a' <= scheme[i] <= 'z'
    ensures Protocol(scheme + "://" + rest + AuthorizationUrl) == Some(scheme)
  {
    var url := scheme + "://" + rest + AuthorizationUrl;
    assert url == (scheme + ":") + ("//" + rest + AuthorizationUrl);
    assert '/' !in scheme + ":" by {
      forall i | 0 <= i < |scheme| ensures (scheme + ":")[i] != '/' {
        assert (scheme + ":")[i] == scheme[i];
      }
    }
    BeforeSlashOfPath(scheme + ":", "//" + rest + AuthorizationUrl);
    assert (scheme + ":")[|scheme|] == ':';
    BeforeColonOfPrefix(scheme, ":");
    assert Lower(scheme) == scheme;
  }

  /** Text without ':' followed by a ':': the text is what comes before the
      first ':'. */
  lemma {:induction false} BeforeColonOfPrefix(a: string, tail: string)
    requires ':' !in a && tail != [] && tail[0] == ':'
    ensures BeforeColon(a + tail) == a
  {
    if a != [] {
      assert (a + tail)[1..] == a[1..] + tail;
      BeforeColonOfPrefix(a[1..], tail);
    } else {
      assert a + tail == tail;
    }
  }

  /** With the corrected guard an https base URL reaches the server:
      "https://host" authenticates exactly as the server answers. */
  lemma CheckedConstructorReachesServer(username: string, password: string, host: string,
                                        answer: Result<(string, string)>)
    ensures ConstructCheckedSpec(Some(username), Some(password), Some("https://" + host), answer) == answer
  {
    SchemeOfBaseUrl("https", host);
    assert "https://" + host + AuthorizationUrl == "https" + "://" + host + AuthorizationUrl;
  }

  /** An http base URL never reaches the server: the connection it opens is
      not an `HttpsURLConnection`, so the cast throws ClassCastException. */
  lemma CheckedConstructorRejectsHttp(username: string, password: string, host: string,
                                      answer: Result<(string, string)>)
    ensures ConstructCheckedSpec(Some(username), Some(password), Some("http://" + host), answer) == Err(ClassCast)
  {
    SchemeOfBaseUrl("http", host);
    assert "http://" + host + AuthorizationUrl == "http" + "://" + host + AuthorizationUrl;
  }

  /** The URL `getVehicles` asks for: the orders path and the planning area,
      without the base URL. */
  function OrdersUrl(productionLineNumber: Int32): string {
    OrdersReadUrl + "?PlanningArea" + DecimalText(productionLineNumber)
  }

  /** That URL starts with '/', so it has no protocol: the request of
      `getVehicles` throws before any order is read. */
  lemma OrdersRequestNeverOpens(productionLineNumber: Int32, answer: Result<Json>)
    ensures Request(OrdersUrl(productionLineNumber), answer) == Err(IO)
  {
    BeforeSlashOfPath("", OrdersUrl(productionLineNumber));
  }

  // ---------------------------------------------------------------------------
  // Reading orders

  /** An element of the orders array that becomes a record: a JSON object
      whose "orderNumber" is a string. Every other element is skipped. */
  predicate IsOrder(j: Json) {
    j.JObj? && Get(j.fields, OrderNumberKey).JStr?
  }

  /** The records the loop of `getVehicles` appends for the elements `es`, and
      whether it got through them. A load that throws ends the loop before
      its record is appended; `listPresent` is false when the batch list is
      null, so that the first append throws. */
  function FetchSpec(es: seq<Json>, listPresent: bool): (seq<VehicleState>, Outcome) {
    if es == [] then ([], Pass)
    else
      var (vs, o) := FetchSpec(es[..|es| - 1], listPresent);
      var e := es[|es| - 1];
      if o.Fail? || !IsOrder(e) then (vs, o)
      else
        var l := LoadSpec(Blank, e);
        if l.outcome.Fail? then (vs, l.outcome)
        else if !listPresent then (vs, Fail(NullPointer))
        else (vs + [l.state], Pass)
  }

  /** The order numbers of the elements that are orders, in array order. */
  function OrderNumbers(es: seq<Json>): (r: seq<string>)
    ensures |r| <= |es|
    ensures forall e :: e in es && IsOrder(e) ==> Get(e.fields, OrderNumberKey).s in r
  {
    if es == [] then []
    else
      var e := es[|es| - 1];
      if IsOrder(e) then OrderNumbers(es[..|es| - 1]) + [Get(e.fields, OrderNumberKey).s]
      else OrderNumbers(es[..|es| - 1])
  }

  /** Loading an order into a new record takes its order number as it is
      and leaves the series number unset. */
  lemma LoadOrder(e: Json)
    requires IsOrder(e)
    ensures LoadSpec(Blank, e).state.orderNumber == Some(Get(e.fields, OrderNumberKey).s)
    ensures LoadSpec(Blank, e).state.seriesNumber == None
  {
    LoadOnlyAppends(Blank, e);
  }

  /** When the loop gets through, there is one record per order, in array
      order, carrying that order's number; no record has a series number. */
  lemma {:induction false} FetchFollowsOrders(es: seq<Json>)
    requires FetchSpec(es, true).1 == Pass
    ensures var vs := FetchSpec(es, true).0;
      && |vs| == |OrderNumbers(es)|
      && (forall k :: 0 <= k < |vs| ==> vs[k].orderNumber == Some(OrderNumbers(es)[k]))
      && (forall k :: 0 <= k < |vs| ==> vs[k].seriesNumber == None)
  {
    if es != [] {
      var init := es[..|es| - 1];
      var e := es[|es| - 1];
      FetchFollowsOrders(init);
      if IsOrder(e) {
        LoadOrder(e);
      }
    }
  }

  /** Without orders nothing is loaded and nothing can throw. */
  lemma {:induction false} FetchWithoutOrders(es: seq<Json>, listPresent: bool)
    requires forall k :: 0 <= k < |es| ==> !IsOrder(es[k])
    ensures FetchSpec(es, listPresent) == ([], Pass)
  {
    if es != [] {
      FetchWithoutOrders(es[..|es| - 1], listPresent);
    }
  }

  /** With a null batch list the loop can append nothing: the first order
      that loads throws. */
  lemma {:induction false} FetchWithoutList(es: seq<Json>)
    ensures FetchSpec(es, false).0 == []
    ensures OrderNumbers(es) != [] ==> FetchSpec(es, false).1.Fail?
  {
    if es != [] {
      FetchWithoutList(es[..|es| - 1]);
    }
  }

  // ---------------------------------------------------------------------------
  // Selecting a series

  /** `getSeries` as written: for each record in order, `getSeriesNumber()
      .startsWith(seriesNumber)`. A record without a series number throws,
      as does appending to a null series list. The vehicles appended before
      that stay appended. */
  function SeriesSpec(vs: seq<TaktiqVehicle>, s: string, listPresent: bool): (r: (seq<TaktiqVehicle>, Outcome))
    reads vs
    ensures forall v :: v in r.0 ==> v in vs && v.seriesNumber.Some? && StartsWith(v.seriesNumber.value, s)
  {
    if vs == [] then ([], Pass)
    else
      var (sel, o) := SeriesSpec(vs[..|vs| - 1], s, listPresent);
      var v := vs[|vs| - 1];
      assert forall x :: x in sel ==> x in vs;
      if o.Fail? then (sel, o)
      else if v.seriesNumber.None? then (sel, Fail(NullPointer))
      else if !StartsWith(v.seriesNumber.value, s) then (sel, Pass)
      else if !listPresent then (sel, Fail(NullPointer))
      else (sel + [v], Pass)
  }

  /** A series number as `setOrderNumber` leaves it has four characters, so
      a nine-character argument is never a prefix of it: the selection as
      written can append nothing to the series list. */
  lemma {:induction false} SeriesSelectionNeverMatches(vs: seq<TaktiqVehicle>, s: string, listPresent: bool)
    requires |s| == 9
    requires forall k :: 0 <= k < |vs| ==> vs[k].seriesNumber.Some? && |vs[k].seriesNumber.value| == 4
    ensures SeriesSpec(vs, s, listPresent) == ([], Pass)
  {
    if vs != [] {
      SeriesSelectionNeverMatches(vs[..|vs| - 1], s, listPresent);
    }
  }

  /** Records read by `getVehicles` have no series number, so the selection
      as written throws on the first of them. */
  lemma SeriesSelectionThrowsOnLoaded(vs: seq<TaktiqVehicle>, s: string, listPresent: bool)
    requires vs != []
    requires forall k :: 0 <= k < |vs| ==> vs[k].seriesNumber.None?
    ensures SeriesSpec(vs, s, listPresent) == ([], Fail(NullPointer))
  {
    if |vs| > 1 {
      SeriesSelectionThrowsOnLoaded(vs[..|vs| - 1], s, listPresent);
    } else {
      assert vs[..0] == [];
    }
  }

  /** Whether the selection as intended copies `v`: it has a series number
      and that number starts with the prefix. */
  predicate Selected(v: TaktiqVehicle, prefix: string)
    reads v
  {
    v.seriesNumber.Some? && StartsWith(v.seriesNumber.value, prefix)
  }

  /** The selection as intended: the records, in order, whose series number
      starts with the four-character prefix; records without a series
      number are passed over instead of throwing. */
  function SeriesOf(vs: seq<TaktiqVehicle>, prefix: string): (r: seq<TaktiqVehicle>)
    reads vs
    ensures |r| <= |vs|
    ensures forall v :: v in r ==> v in vs && Selected(v, prefix)
    ensures forall k :: 0 <= k < |vs| && Selected(vs[k], prefix) ==> vs[k] in r
  {
    if vs == [] then []
    else
      var v := vs[|vs| - 1];
      var rest := SeriesOf(vs[..|vs| - 1], prefix);
      assert forall x :: x in vs[..|vs| - 1] ==> x in vs;
      assert forall k :: 0 <= k < |vs| - 1 ==> vs[k] == vs[..|vs| - 1][k];
      if Selected(v, prefix) then rest + [v] else rest
  }

  /** The selection keeps the batch's order: selecting from two lists one
      after the other selects from their concatenation. */
  lemma {:induction false} SeriesOfKeepsOrder(a: seq<TaktiqVehicle>, b: seq<TaktiqVehicle>, prefix: string)
    ensures SeriesOf(a + b, prefix) == SeriesOf(a, prefix) + SeriesOf(b, prefix)
  {
    if b == [] {
      assert a + b == a;
    } else {
      var init, last := b[..|b| - 1], b[|b| - 1];
      SeriesOfKeepsOrder(a, init, prefix);
      assert (a + b)[..|a + b| - 1] == a + init;
      assert (a + b)[|a + b| - 1] == last;
    }
  }

  /** A single record is copied exactly when it is selected. */
  lemma SeriesOfOne(v: TaktiqVehicle, prefix: string)
    ensures SeriesOf([v], prefix) == if Selected(v, prefix) then [v] else []
  {
    assert [v][..0] == [];
  }

  /** A record whose order number was set through `setOrderNumber` is
      selected by its own series: the first four characters of its order
      number. */
  lemma SeriesOfSelectsOwnOrder(vs: seq<TaktiqVehicle>, v: TaktiqVehicle)
    requires v in vs
    requires v.orderNumber.Some? && |v.orderNumber.value| == 9
    requires v.seriesNumber == AcceptOrderNumber(Blank, v.orderNumber).seriesNumber
    ensures v in SeriesOf(vs, v.orderNumber.value[..4])
  {
    var k :| 0 <= k < |vs| && vs[k] == v;
    assert Selected(vs[k], v.orderNumber.value[..4]);
  }

  // ---------------------------------------------------------------------------
  // The suite

  class TaktiqAssemblySuite {
    var baseurl: Option<string>
    var tokenManager: TokenManager
    var productionLineNumber: Option<Int32>
    var taktiqVehicles: Option<seq<TaktiqVehicle>>
    var taktiqSeries: Option<seq<TaktiqVehicle>>

    /** The part of the constructor after its guard: the tokens stand for the
        answer of the authentication request. */
    constructor Authenticated(baseurl: Option<string>, jwtToken: string, refreshToken: string, now: Long)
      ensures this.baseurl == baseurl && productionLineNumber == None
      ensures taktiqVehicles == Some([]) && taktiqSeries == Some([])
      ensures fresh(tokenManager) && fresh(tokenManager.refreshManager)
      ensures tokenManager.accessToken == Some(jwtToken) && tokenManager.refreshToken == Some(refreshToken)
      ensures tokenManager.activeLeadTime == DefaultLeadTime
      ensures tokenManager.refreshManager.expirationTimeMillis == ExpiryAfter(now, TokenExpirationTime)
    {
      this.baseurl := baseurl;
      productionLineNumber := None;
      tokenManager := new TokenManager(Some(jwtToken), Some(refreshToken), TokenExpirationTime, now);
      taktiqVehicles := Some([]);
      taktiqSeries := Some([]);
    }

    /** The constructor as written: it throws an IOException unless
        username and password are set and the base URL is NOT set (the
        check on the base URL is inverted); then it authenticates, with
        `answer` as the server's answer. By `ConstructorAlwaysThrows` it
        never returns a suite. */
    static method Create(username: Option<string>, password: Option<string>, baseurl: Option<string>,
                         answer: Result<(string, string)>, now: Long)
      returns (suite: TaktiqAssemblySuite?, outcome: Outcome)
      ensures outcome.Pass? <==> ConstructSpec(username, password, baseurl, answer).Ok?
      ensures outcome.Fail? ==> outcome.error == ConstructSpec(username, password, baseurl, answer).error && suite == null
      ensures outcome.Pass? ==> suite != null && fresh(suite) && fresh(suite.tokenManager)
      ensures outcome.Pass? ==>
        && suite.baseurl == baseurl && suite.productionLineNumber == None
        && suite.taktiqVehicles == Some([]) && suite.taktiqSeries == Some([])
        && suite.tokenManager.accessToken == Some(answer.value.0)
        && suite.tokenManager.refreshToken == Some(answer.value.1)
    {
      if username.None? || password.None? || baseurl.Some? {
        return null, Fail(IO);
      }
      var tokens := Request(JavaText(baseurl) + AuthorizationUrl, answer);
      if tokens.Err? {
        return null, Fail(tokens.error);
      }
      suite := new TaktiqAssemblySuite.Authenticated(baseurl, tokens.value.0, tokens.value.1, now);
      outcome := Pass;
    }

    /** The constructor as intended: the base URL must be set. A suite it
        builds has the server's tokens and needs a token refresh at once. */
    static method CreateChecked(username: Option<string>, password: Option<string>, baseurl: Option<string>,
                                answer: Result<(string, string)>, now: Long)
      returns (suite: TaktiqAssemblySuite?, outcome: Outcome)
      ensures outcome.Pass? <==> ConstructCheckedSpec(username, password, baseurl, answer).Ok?
      ensures outcome.Fail? ==> outcome.error == ConstructCheckedSpec(username, password, baseurl, answer).error && suite == null
      ensures outcome.Pass? ==> suite != null && fresh(suite) && fresh(suite.tokenManager)
      ensures outcome.Pass? ==>
        && suite.baseurl == baseurl && suite.productionLineNumber == None
        && suite.taktiqVehicles == Some([]) && suite.taktiqSeries == Some([])
        && suite.tokenManager.accessToken == Some(answer.value.0)
        && suite.tokenManager.refreshToken == Some(answer.value.1)
      ensures outcome.Pass? && now + TokenExpirationTime <= MaxLong ==> suite.tokenManager.IsRefreshRequired(now)
    {
      if username.None? || password.None? || baseurl.None? {
        return null, Fail(IO);
      }
      var tokens := Request(baseurl.value + AuthorizationUrl, answer);
      if tokens.Err? {
        return null, Fail(tokens.error);
      }
      suite := new TaktiqAssemblySuite.Authenticated(baseurl, tokens.value.0, tokens.value.1, now);
      outcome := Pass;
      if now + TokenExpirationTime <= MaxLong {
        SuiteTokenDueAtOnce(now);
      }
    }

    method SetProductionLineNumber(band: Option<Int32>)
      modifies this
      ensures productionLineNumber == band
      ensures taktiqVehicles == Some([]) && taktiqSeries == Some([])
      ensures baseurl == old(baseurl) && tokenManager == old(tokenManager)
    {
      productionLineNumber := band;
      ResetOrders();
    }

    /** `resetOrders`: both lists become new empty lists. */
    method ResetOrders()
      modifies this
      ensures taktiqVehicles == Some([]) && taktiqSeries == Some([])
      ensures productionLineNumber == old(productionLineNumber)
      ensures baseurl == old(baseurl) && tokenManager == old(tokenManager)
    {
      taktiqVehicles := Some([]);
      taktiqSeries := Some([]);
    }

    /** `getVehicles` once the orders have been read: `response` is the
        decoded answer. An unset line throws before any request is made, an
        answer that is not an array fails to parse. Each order element is
        loaded into a new record that is then appended; the records already
        in the batch stay in front. */
    method GetVehicles(response: Json) returns (outcome: Outcome)
      modifies this
      ensures baseurl == old(baseurl) && tokenManager == old(tokenManager)
      ensures productionLineNumber == old(productionLineNumber) && taktiqSeries == old(taktiqSeries)
      ensures old(productionLineNumber).None? ==> outcome == Fail(NullPointer) && taktiqVehicles == old(taktiqVehicles)
      ensures old(productionLineNumber).Some? && !response.JArr? ==>
                outcome == Fail(Parse) && taktiqVehicles == old(taktiqVehicles)
      ensures old(productionLineNumber).Some? && response.JArr? ==>
                outcome == FetchSpec(response.elems, old(taktiqVehicles).Some?).1
      ensures old(taktiqVehicles).None? ==> taktiqVehicles.None?
      ensures old(taktiqVehicles).Some? ==>
        && taktiqVehicles.Some?
        && |old(taktiqVehicles).value| <= |taktiqVehicles.value|
        && taktiqVehicles.value[..|old(taktiqVehicles).value|] == old(taktiqVehicles).value
        && (forall k :: |old(taktiqVehicles).value| <= k < |taktiqVehicles.value| ==>
              fresh(taktiqVehicles.value[k]) && fresh(taktiqVehicles.value[k].featuresList))
        && States(taktiqVehicles.value[|old(taktiqVehicles).value|..]) ==
             (if old(productionLineNumber).Some? && response.JArr?
              then FetchSpec(response.elems, true).0 else [])
    {
      if productionLineNumber.None? {
        return Fail(NullPointer);
      }
      if !response.JArr? {
        return Fail(Parse);
      }
      outcome := AppendOrders(response.elems);
    }

    /** The loop of `getVehicles` over the elements of the answer. */
    method AppendOrders(es: seq<Json>) returns (outcome: Outcome)
      modifies this
      ensures baseurl == old(baseurl) && tokenManager == old(tokenManager)
      ensures productionLineNumber == old(productionLineNumber) && taktiqSeries == old(taktiqSeries)
      ensures outcome == FetchSpec(es, old(taktiqVehicles).Some?).1
      ensures old(taktiqVehicles).None? ==> taktiqVehicles.None?
      ensures old(taktiqVehicles).Some? ==>
        && taktiqVehicles.Some?
        && |old(taktiqVehicles).value| <= |taktiqVehicles.value|
        && taktiqVehicles.value[..|old(taktiqVehicles).value|] == old(taktiqVehicles).value
        && (forall k :: |old(taktiqVehicles).value| <= k < |taktiqVehicles.value| ==>
              fresh(taktiqVehicles.value[k]) && fresh(taktiqVehicles.value[k].featuresList))
        && States(taktiqVehicles.value[|old(taktiqVehicles).value|..]) == FetchSpec(es, true).0
    {
      var added;
      added, outcome := ReadOrders(es, taktiqVehicles.Some?);
      if taktiqVehicles.Some? {
        var before := taktiqVehicles.value;
        taktiqVehicles := Some(before + added);
        assert taktiqVehicles.value[|before|..] == added;
        assert forall k :: |before| <= k < |taktiqVehicles.value| ==> taktiqVehicles.value[k] in added;
      }
    }

    /** The records the loop of `getVehicles` creates, one per order of the
        answer, until the first exception; `listPresent` says whether the
        batch list they are appended to is set. */
    static method ReadOrders(es: seq<Json>, listPresent: bool) returns (added: seq<TaktiqVehicle>, outcome: Outcome)
      ensures FetchSpec(es, listPresent) == (States(added), outcome)
      ensures !listPresent ==> added == []
      ensures forall v :: v in added ==> fresh(v) && fresh(v.featuresList)
    {
      added := [];
      outcome := Pass;
      var i := 0;
      while i < |es| && outcome.Pass?
        invariant 0 <= i <= |es|
        invariant FetchSpec(es[..i], listPresent) == (States(added), outcome)
        invariant !listPresent ==> added == []
        invariant forall v :: v in added ==> fresh(v) && fresh(v.featuresList)
      {
        added, outcome := ReadElement(es, i, listPresent, added);
        i := i + 1;
      }
      if outcome.Fail? {
        FetchSticky(es, i, listPresent);
      } else {
        assert es[..i] == es;
      }
    }

    /** One element of the answer: an order becomes a new record, appended
        unless its load or the append throws; anything else is skipped. */
    static method ReadElement(es: seq<Json>, i: nat, listPresent: bool, added: seq<TaktiqVehicle>)
      returns (added': seq<TaktiqVehicle>, outcome: Outcome)
      requires i < |es| && FetchSpec(es[..i], listPresent) == (States(added), Pass)
      requires !listPresent ==> added == []
      ensures FetchSpec(es[..i + 1], listPresent) == (States(added'), outcome)
      ensures !listPresent ==> added' == []
      ensures forall v :: v in added' && v !in added ==> fresh(v) && fresh(v.featuresList)
    {
      FetchStep(es, i, listPresent);
      added' := added;
      outcome := Pass;
      if IsOrder(es[i]) {
        var vehicle, o := NewRecord(es[i]);
        if o.Fail? {
          outcome := o;
        } else if !listPresent {
          outcome := Fail(NullPointer);
        } else {
          StatesAppend(added, vehicle);
          added' := added + [vehicle];
        }
      }
    }

    /** `new TaktiqVehicles()` followed by `loadVehicleFromJson(order)`. */
    static method NewRecord(e: Json) returns (vehicle: TaktiqVehicle, outcome: Outcome)
      ensures fresh(vehicle) && fresh(vehicle.featuresList)
      ensures Loaded(vehicle.State(), outcome) == LoadSpec(Blank, e)
    {
      vehicle := new TaktiqVehicle();
      outcome := vehicle.LoadVehicleFromJson(e);
    }

    /** `getSeries` as written (see `SeriesSpec`): nothing happens unless the
        argument has nine characters and the batch list is set; then the
        matching records are appended to the series list, which otherwise
        keeps what it held. */
    method GetSeries(seriesNumber: Option<string>) returns (outcome: Outcome)
      modifies this
      ensures baseurl == old(baseurl) && tokenManager == old(tokenManager)
      ensures productionLineNumber == old(productionLineNumber) && taktiqVehicles == old(taktiqVehicles)
      ensures seriesNumber.None? || |seriesNumber.value| != 9 || taktiqVehicles.None? ==>
                outcome == Pass && taktiqSeries == old(taktiqSeries)
      ensures seriesNumber.Some? && |seriesNumber.value| == 9 && taktiqVehicles.Some? ==>
        var r := SeriesSpec(taktiqVehicles.value, seriesNumber.value, old(taktiqSeries).Some?);
        && outcome == r.1
        && taktiqSeries == (if old(taktiqSeries).Some? then Some(old(taktiqSeries).value + r.0) else None)
    {
      if seriesNumber.None? || |seriesNumber.value| != 9 {
        return Pass;
      }
      if taktiqVehicles.None? {
        return Pass;
      }
      var s := seriesNumber.value;
      var vs := taktiqVehicles.value;
      var present := taktiqSeries.Some?;
      // the records appended to the series list so far
      var added: seq<TaktiqVehicle> := [];
      var i := 0;
      while i < |vs|
        invariant 0 <= i <= |vs|
        invariant SeriesSpec(vs[..i], s, present) == (added, Pass)
      {
        assert vs[..i + 1][..i] == vs[..i];
        var v := vs[i];
        if v.seriesNumber.None? {
          SeriesSticky(vs, s, present, i + 1);
          if present {
            taktiqSeries := Some(taktiqSeries.value + added);
          }
          return Fail(NullPointer);
        }
        if StartsWith(v.seriesNumber.value, s) {
          if !present {
            SeriesSticky(vs, s, present, i + 1);
            return Fail(NullPointer);
          }
          added := added + [v];
        }
        i := i + 1;
      }
      assert vs[..i] == vs;
      if present {
        taktiqSeries := Some(taktiqSeries.value + added);
      }
      return Pass;
    }

    /** The intended `getSeries`: for a four-character prefix, appends the
        records whose series number starts with it, and never throws; any
        other argument leaves the series list unchanged. */
    method GetSeriesByPrefix(prefix: Option<string>)
      modifies this
      ensures baseurl == old(baseurl) && tokenManager == old(tokenManager)
      ensures productionLineNumber == old(productionLineNumber) && taktiqVehicles == old(taktiqVehicles)
      ensures prefix.Some? && |prefix.value| == 4 && taktiqVehicles.Some? && old(taktiqSeries).Some? ==>
                taktiqSeries == Some(old(taktiqSeries).value + SeriesOf(taktiqVehicles.value, prefix.value))
      ensures !(prefix.Some? && |prefix.value| == 4 && taktiqVehicles.Some? && old(taktiqSeries).Some?) ==>
                taktiqSeries == old(taktiqSeries)
    {
      if prefix.None? || |prefix.value| != 4 || taktiqVehicles.None? || taktiqSeries.None? {
        return;
      }
      var s := prefix.value;
      var vs := taktiqVehicles.value;
      // the records appended to the series list so far
      var added: seq<TaktiqVehicle> := [];
      var i := 0;
      while i < |vs|
        invariant 0 <= i <= |vs|
        invariant added == SeriesOf(vs[..i], s)
      {
        assert vs[..i + 1][..i] == vs[..i];
        if vs[i].seriesNumber.Some? && StartsWith(vs[i].seriesNumber.value, s) {
          added := added + [vs[i]];
        }
        i := i + 1;
      }
      assert vs[..i] == vs;
      taktiqSeries := Some(taktiqSeries.value + added);
    }

    /** `getVehicleSequencePos`: the 1-based position of the last occurrence
        of the very same record object in the series list; none when the
        list or the record is null, or the record is not in the list. */
    method GetVehicleSequencePos(vehicle: TaktiqVehicle?) returns (pos: Option<int>)
      ensures taktiqSeries.None? || vehicle == null ==> pos.None?
      ensures taktiqSeries.Some? && vehicle != null ==> (pos.Some? <==> vehicle in taktiqSeries.value)
      ensures pos.Some? ==>
        && taktiqSeries.Some?
        && 1 <= pos.value <= |taktiqSeries.value|
        && taktiqSeries.value[pos.value - 1] == vehicle
        && (forall j :: pos.value <= j < |taktiqSeries.value| ==> taktiqSeries.value[j] != vehicle)
    {
      pos := None;
      if taktiqSeries.None? || vehicle == null {
        return;
      }
      var series := taktiqSeries.value;
      var counter := 0;
      while counter < |series|
        invariant 0 <= counter <= |series|
        invariant pos.None? <==> vehicle !in series[..counter]
        invariant pos.Some? ==> 1 <= pos.value <= counter && series[pos.value - 1] == vehicle
        invariant pos.Some? ==> forall j :: pos.value <= j < counter ==> series[j] != vehicle
      {
        assert series[..counter + 1] == series[..counter] + [series[counter]];
        counter := counter + 1;
        if vehicle == series[counter - 1] {
          pos := Some(counter);
        }
      }
      assert series[..counter] == series;
    }
  }

  /** The record values of a list of record objects. */
  function States(vs: seq<TaktiqVehicle>): (r: seq<VehicleState>)
    reads vs, set v | v in vs :: v.featuresList
    ensures |r| == |vs|
  {
    if vs == [] then [] else States(vs[..|vs| - 1]) + [vs[|vs| - 1].State()]
  }

  /** One more element of the answer, while the loop has not thrown. */
  lemma FetchStep(es: seq<Json>, i: nat, listPresent: bool)
    requires i < |es| && FetchSpec(es[..i], listPresent).1 == Pass
    ensures var prev := FetchSpec(es[..i], listPresent).0;
      FetchSpec(es[..i + 1], listPresent) ==
        if !IsOrder(es[i]) then (prev, Pass)
        else if LoadSpec(Blank, es[i]).outcome.Fail? then (prev, LoadSpec(Blank, es[i]).outcome)
        else if !listPresent then (prev, Fail(NullPointer))
        else (prev + [LoadSpec(Blank, es[i]).state], Pass)
  {
    assert es[..i + 1][..i] == es[..i];
  }

  lemma StatesAppend(vs: seq<TaktiqVehicle>, v: TaktiqVehicle)
    ensures States(vs + [v]) == States(vs) + [v.State()]
  {
    assert (vs + [v])[..|vs|] == vs;
  }

  /** Once the loop of `getVehicles` has stopped with an exception, later
      elements change nothing. */
  lemma {:induction false} FetchSticky(es: seq<Json>, n: nat, listPresent: bool)
    requires n <= |es|
    requires FetchSpec(es[..n], listPresent).1.Fail?
    ensures FetchSpec(es, listPresent) == FetchSpec(es[..n], listPresent)
    decreases |es| - n
  {
    if n < |es| {
      assert es[..n + 1][..n] == es[..n];
      FetchSticky(es, n + 1, listPresent);
    } else {
      assert es[..n] == es;
    }
  }

  /** Once the selection as written has thrown, later records change nothing. */
  lemma {:induction false} SeriesSticky(vs: seq<TaktiqVehicle>, s: string, listPresent: bool, n: nat)
    requires n <= |vs|
    requires SeriesSpec(vs[..n], s, listPresent).1.Fail?
    ensures SeriesSpec(vs, s, listPresent) == SeriesSpec(vs[..n], s, listPresent)
    decreases |vs| - n
  {
    if n < |vs| {
      assert vs[..n + 1][..n] == vs[..n];
      SeriesSticky(vs, s, listPresent, n + 1);
    } else {
      assert vs[..n] == vs;
    }
  }
}
