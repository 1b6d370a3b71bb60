/** `addParametersToUrl`, written out identically in api/HttpHandler,
    api/UrlHandler and api/restful/RestfulApi: a base URL followed by a
    query string with one entry per value. URL encoding (`URLEncoder.encode`
    with UTF-8) is a parameter of the model. */
module QueryStrings {
  import opened Wrappers

  /** One entry: "name=value" with both parts encoded, or the encoded value
      alone when the name is null or empty. */
  function Entry(paramName: Option<string>, value: string, enc: string -> string): (e: string)
    ensures paramName.Some? && paramName.value != [] ==> e == enc(paramName.value) + "=" + enc(value)
    ensures paramName.None? || paramName.value == [] ==> e == enc(value)
  {
    if paramName.Some? && paramName.value != [] then enc(paramName.value) + "=" + enc(value) else enc(value)
  }

  /** The entries for `values`, in order. */
  function Entries(paramName: Option<string>, values: seq<string>, enc: string -> string): (es: seq<string>)
    ensures |es| == |values|
    ensures forall i :: 0 <= i < |values| ==> es[i] == Entry(paramName, values[i], enc)
  {
    if values == [] then [] else Entries(paramName, values[..|values| - 1], enc) + [Entry(paramName, values[|values| - 1], enc)]
  }

  /** The entries separated by "&". */
  function Join(es: seq<string>): string
    requires es != []
  {
    if |es| == 1 then es[0] else Join(es[..|es| - 1]) + "&" + es[|es| - 1]
  }

  /** The URL `addParametersToUrl` returns: the base URL alone for a null or
      empty list, otherwise "?" and the joined entries after it. */
  function QueryUrl(baseUrl: string, paramName: Option<string>, values: Option<seq<string>>, enc: string -> string): (url: string)
    ensures values.None? || values.value == [] ==> url == baseUrl
    ensures values.Some? && values.value != [] ==> url == baseUrl + "?" + Join(Entries(paramName, values.value, enc))
  {
    if values.None? || values.value == [] then baseUrl else baseUrl + "?" + Join(Entries(paramName, values.value, enc))
  }

  /** The position of the last '&' of `s`. */
  function LastAmpersand(s: string): (i: nat)
    requires '&' in s
    ensures i < |s| && s[i] == '&'
    ensures forall k :: i < k < |s| ==> s[k] != '&'
  {
    if s[|s| - 1] == '&' then |s| - 1
    else
      assert '&' in s[..|s| - 1] by {
        var k :| 0 <= k < |s| && s[k] == '&';
        assert s[..|s| - 1][k] == '&';
      }
      LastAmpersand(s[..|s| - 1])
  }

  /** The query string cut at each '&': the reading a server applies. */
  function Split(s: string): (parts: seq<string>)
    ensures parts != []
    decreases |s|
  {
    if '&' !in s then [s]
    else
      var i := LastAmpersand(s);
      Split(s[..i]) + [s[i + 1..]]
  }

  /** Entries without '&' (as URL encoding guarantees) are read back as
      they were joined: there are exactly |es| - 1 separators and none at
      either end. */
  lemma {:induction false} SplitJoin(es: seq<string>)
    requires es != []
    requires forall i :: 0 <= i < |es| ==> '&' !in es[i]
    ensures Split(Join(es)) == es
  {
    if |es| > 1 {
      var init, e := es[..|es| - 1], es[|es| - 1];
      assert forall i :: 0 <= i < |init| ==> init[i] == es[i];
      SplitJoin(init);
      var j := Join(init);
      var s := j + "&" + e;
      assert Join(es) == s;
      SeparatorParts(j, e);
      SplitAt(s, |j|);
      assert Split(s) == init + [e];
      assert init + [e] == es;
    }
  }

  /** "j&e" with no '&' in e: its last '&' stands between j and e. */
  lemma SeparatorParts(j: string, e: string)
    requires '&' !in e
    ensures var s := j + "&" + e;
      && |j| < |s| && s[|j|] == '&'
      && (forall k :: |j| < k < |s| ==> s[k] != '&')
      && s[..|j|] == j && s[|j| + 1..] == e
  {
    var s := j + "&" + e;
    assert forall k :: |j| < k < |s| ==> s[k] == e[k - |j| - 1];
  }

  /** Cutting at the last '&'. */
  lemma SplitAt(s: string, i: nat)
    requires i < |s| && s[i] == '&'
    requires forall k :: i < k < |s| ==> s[k] != '&'
    ensures Split(s) == Split(s[..i]) + [s[i + 1..]]
  {
    assert '&' in s;
    var l := LastAmpersand(s);
    assert l == i;
  }

  /** What the loop has written after `i` of the entries: those entries
      joined, with the "&" that follows each entry but the last. */
  function Written(es: seq<string>, i: nat): string
    requires i <= |es|
  {
    if i == 0 then "" else Join(es[..i]) + (if i < |es| then "&" else "")
  }

  lemma WrittenStep(es: seq<string>, i: nat)
    requires i < |es|
    ensures i < |es| - 1 ==> Written(es, i + 1) == Join(es[..i + 1]) + "&"
    ensures i == |es| - 1 ==> Written(es, i + 1) == Join(es)
    ensures i > 0 ==> Join(es[..i + 1]) == Written(es, i) + es[i]
    ensures i == 0 ==> Join(es[..i + 1]) == es[i]
  {
    assert es[..i + 1][..i] == es[..i];
    if i == 0 {
      assert es[..1] == [es[0]];
    }
    if i == |es| - 1 {
      assert es[..i + 1] == es;
    }
  }

  lemma Assoc(a: string, b: string, c: string)
    ensures (a + b) + c == a + (b + c)
  {
  }

  /** The text written so far grows by one entry and its separator. */
  lemma {:induction false} LoopStep(prefix: string, es: seq<string>, i: nat, url: string)
    requires i < |es| && url == prefix + Written(es, i)
    ensures i < |es| - 1 ==> url + es[i] + "&" == prefix + Written(es, i + 1)
    ensures i == |es| - 1 ==> url + es[i] == prefix + Written(es, i + 1)
  {
    WrittenStep(es, i);
    var joined := Join(es[..i + 1]);
    if i == 0 {
      assert Written(es, i) == "";
      assert url == prefix;
    } else {
      Assoc(prefix, Written(es, i), es[i]);
    }
    assert url + es[i] == prefix + joined;
    Assoc(prefix, joined, "&");
  }

  /** One pass of the loop: the encoded name and "=" when the name is set,
      then the encoded value. */
  method AppendEntry(url: string, paramName: Option<string>, value: string, enc: string -> string) returns (u: string)
    ensures u == url + Entry(paramName, value, enc)
  {
    u := url;
    if paramName.Some? && paramName.value != [] {
      u := u + enc(paramName.value);
      u := u + "=";
    }
    u := u + enc(value);
  }

  /** The StringBuilder loop of `addParametersToUrl`. */
  method AddParametersToUrl(baseUrl: string, paramName: Option<string>, values: Option<seq<string>>, enc: string -> string)
    returns (url: string)
    ensures url == QueryUrl(baseUrl, paramName, values, enc)
  {
    url := baseUrl;
    if values.Some? && values.value != [] {
      var vs := values.value;
      ghost var es := Entries(paramName, vs, enc);
      url := url + "?";
      var i := 0;
      while i < |vs|
        invariant 0 <= i <= |vs|
        invariant url == baseUrl + "?" + Written(es, i)
      {
        LoopStep(baseUrl + "?", es, i, url);
        url := AppendEntry(url, paramName, vs[i], enc);
        if i < |vs| - 1 {
          url := url + "&";
        }
        i := i + 1;
      }
      assert es[..i] == es;
      assert Written(es, i) == Join(es);
    }
  }
}
