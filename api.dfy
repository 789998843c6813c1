/** The response classification of the client's `apiCall` helper
    (static/js/chat.js). Storage, `fetch` and `JSON.parse` are inputs: whether a
    stored token exists, whether the request produced a response, its status,
    its body text and what parsing that text gives. */
module Api {
  import opened Messages
  import opened Text

  /** What parsing a response body as JSON gives, reduced to what `apiCall`
      reads of it: a parse failure, the JSON value `null` (reading `.detail`
      of it throws), or an object with an optional truthy-or-not `detail`. */
  datatype Parse<B> = Unparsable | ParsedNull | Parsed(detail: Option<string>, value: B)

  datatype Response<B> = Response(status: int, text: string, json: Parse<B>)

  /** How one call ends. Every outcome but `Success` makes `apiCall` return
      null: the errors it throws are caught by its own `catch`. */
  datatype Outcome<B> =
    | NoToken                    // no stored token: redirect to the login page
    | Unauthorized               // 401: token removed, redirect to the login page
    | ServerError(message: string)  // 500
    | ApiError(message: string)     // any other status outside 200-299
    | Unreadable                 // the body could not be read as a JSON object
    | NetworkFailure             // `fetch` itself rejected
    | Success(body: B)
    | NullBody                   // 2xx whose body is JSON null

  const DefaultServerError: string := "Internal server error"
  const DefaultApiError: string := "API call failed"
  /** The literal text the 500 branch's regular expression starts with. */
  const DetailKey: string := "\"detail\":\""

  /** `response.ok`. */
  predicate IsOk(status: int) {
    200 <= status <= 299
  }

  /** JavaScript's `detail || fallback` for an optional string. */
  function OrDefault(detail: Option<string>, fallback: string): (r: string)
    ensures r == fallback || (detail.Some? && r == detail.value != "")
    ensures detail.Some? && detail.value != "" ==> r == detail.value
  {
    if detail.Some? && detail.value != "" then detail.value else fallback
  }

  /** The longest prefix of `s` without a double quote. */
  function NonQuotePrefix(s: string): (p: string)
    ensures p <= s && '"' !in p
    ensures |p| < |s| ==> s[|p|] == '"'
    decreases |s|
  {
    if |s| == 0 || s[0] == '"' then "" else [s[0]] + NonQuotePrefix(s[1..])
  }

  /** `[^"]+"` matched at the start of `s`: the capture, if any. It matches
      exactly when `s` starts with a character other than a quote and holds a
      quote somewhere; the capture is the run before the first quote. */
  function QuoteRun(s: string): (r: Option<string>)
    ensures r.Some? <==> (s != [] && s[0] != '"' && '"' in s)
    ensures r.Some? ==> r.value != [] && '"' !in r.value && r.value + "\"" <= s
  {
    var p := NonQuotePrefix(s);
    if p != [] && |p| < |s| then
      assert s[..|p| + 1] == p + "\"";
      assert s[|p|] in s;
      Some(p)
    else
      assert s != [] && s[0] != '"' ==> p != [];
      assert |p| == |s| ==> p == s;
      None
  }

  /** The regular expression `"detail":"([^"]+)"` tried at index `i` of `text`. */
  function MatchAt(text: string, i: nat): Option<string>
    requires i <= |text|
  {
    if DetailKey <= text[i..] then QuoteRun(text[i + |DetailKey|..]) else None
  }

  /** The leftmost index at or after `i` where the expression matches. */
  function FirstMatch(text: string, i: nat): (j: Option<nat>)
    requires i <= |text| + 1
    ensures j.None? ==> forall k :: i <= k <= |text| ==> MatchAt(text, k).None?
    ensures j.Some? ==> i <= j.value <= |text| && MatchAt(text, j.value).Some?
    ensures j.Some? ==> forall k :: i <= k < j.value ==> MatchAt(text, k).None?
    decreases |text| + 1 - i
  {
    if i > |text| then None
    else if MatchAt(text, i).Some? then Some(i)
    else FirstMatch(text, i + 1)
  }

  /** The leftmost match at or after index `i`, as `String.prototype.match`
      without the global flag finds it. */
  function MatchFrom(text: string, i: nat): (r: Option<string>)
    requires i <= |text| + 1
    ensures r.None? ==> forall k :: i <= k <= |text| ==> MatchAt(text, k).None?
    ensures r.Some? ==> exists j :: i <= j <= |text| && MatchAt(text, j) == r
                         && forall k :: i <= k < j ==> MatchAt(text, k).None?
  {
    match FirstMatch(text, i)
    case None => None
    case Some(j) => MatchAt(text, j)
  }

  /** `match[1]` of `text.match(/"detail":"([^"]+)"/)`: the capture of the
      leftmost index where the expression matches, or nothing when it
      matches at no index. */
  function RegexDetail(text: string): (r: Option<string>)
    ensures r.None? ==> forall k :: 0 <= k <= |text| ==> MatchAt(text, k).None?
    ensures r.Some? ==> exists j :: 0 <= j <= |text| && MatchAt(text, j) == r
                         && forall k :: 0 <= k < j ==> MatchAt(text, k).None?
  {
    MatchFrom(text, 0)
  }

  /** A match of the regular expression always shows the word `detail`, so
      the `includes("detail")` guard never hides a match. */
  lemma MatchShowsDetail(text: string, i: nat)
    requires i <= |text| && MatchAt(text, i).Some?
    ensures Contains(text, "detail")
  {
    assert text[i..][1..7] == "detail";
    assert "detail" <= text[i + 1..];
    ContainsAt(text, "detail", i + 1);
  }

  /** A string that starts with `"detail":"`, a non-empty capture without
      quotes and a closing quote is matched with exactly that capture. */
  lemma RegexFindsLeadingDetail(d: string, rest: string)
    requires d != [] && '"' !in d
    ensures RegexDetail(DetailKey + d + "\"" + rest) == Some(d)
  {
    LeadingMatch("", d, rest);
    assert "" + DetailKey == DetailKey;
  }

  /** The expression matches where `"detail":"` is followed by a non-empty
      quote-free run and a quote, and captures that run. */
  lemma LeadingMatch(pre: string, d: string, rest: string)
    requires d != [] && '"' !in d
    ensures MatchAt(pre + DetailKey + d + "\"" + rest, |pre|) == Some(d)
  {
    var text := pre + DetailKey + d + "\"" + rest;
    assert text[|pre|..] == DetailKey + (d + "\"" + rest);
    assert DetailKey <= text[|pre|..];
    var s := text[|pre| + |DetailKey|..];
    assert s == d + ("\"" + rest);
    NonQuoteOf(d, "\"" + rest);
  }

  lemma {:induction false} NonQuoteOf(d: string, rest: string)
    requires '"' !in d && rest != [] && rest[0] == '"'
    ensures NonQuotePrefix(d + rest) == d
    decreases |d|
  {
    if d == [] {
      assert d + rest == rest;
    } else {
      assert (d + rest)[1..] == d[1..] + rest;
      assert '"' !in d[1..] by { assert forall c :: c in d[1..] ==> c in d; }
      NonQuoteOf(d[1..], rest);
      assert d == [d[0]] + d[1..];
    }
  }

  /** The message the 500 branch builds: the parsed `detail` when the body is a
      JSON object with a truthy one, the regular-expression capture when the
      body does not parse, and the default otherwise; the body is only looked
      at when its text mentions `detail`. */
  function ServerErrorMessage<B>(text: string, json: Parse<B>): (m: string)
    ensures !Contains(text, "detail") ==> m == DefaultServerError
    ensures json.Parsed? && Contains(text, "detail") ==> m == OrDefault(json.detail, DefaultServerError)
    ensures !json.Parsed? && Contains(text, "detail") && RegexDetail(text).Some? ==> m == RegexDetail(text).value
    ensures m == DefaultServerError || (json.Parsed? && json.detail == Some(m)) ||
            (!json.Parsed? && RegexDetail(text) == Some(m))
  {
    if !Contains(text, "detail") then DefaultServerError
    else match json
      case Parsed(detail, _) => OrDefault(detail, DefaultServerError)
      case _ =>
        match RegexDetail(text)
        case Some(d) => d
        case None => DefaultServerError
  }

  /** A 500 body that is a truncated FastAPI error object (`{"detail":"`,
      the message, its closing quote and whatever follows, but not valid
      JSON) still yields its message. */
  lemma TruncatedServerErrorKeepsDetail<B>(d: string, rest: string, json: Parse<B>)
    requires d != [] && '"' !in d && !json.Parsed?
    ensures ServerErrorMessage("{" + DetailKey + d + "\"" + rest, json) == d
  {
    var text := "{" + DetailKey + d + "\"" + rest;
    LeadingMatch("{", d, rest);
    assert !(DetailKey <= text[0..]) by { assert text[0] == '{'; }
    MatchedBodyMessage(text, 1, d, json);
  }

  /** A body the expression first matches at index `i` gives that capture as
      the 500 message when it does not parse. */
  lemma MatchedBodyMessage<B>(text: string, i: nat, d: string, json: Parse<B>)
    requires i <= |text| && MatchAt(text, i) == Some(d) && !json.Parsed?
    requires forall k :: 0 <= k < i ==> MatchAt(text, k).None?
    ensures ServerErrorMessage(text, json) == d
  {
    MatchShowsDetail(text, i);
    assert RegexDetail(text) == Some(d);
  }

  /** The branches of `apiCall` after the request, in the order it tests them. */
  function Classify<B>(hasToken: bool, response: Option<Response<B>>): (o: Outcome<B>)
    ensures o.NoToken? <==> !hasToken
    ensures o.Unauthorized? <==> hasToken && response.Some? && response.value.status == 401
    ensures o.ServerError? <==> hasToken && response.Some? && response.value.status == 500
    ensures o.ServerError? ==> o.message == ServerErrorMessage(response.value.text, response.value.json)
    ensures o.Success? <==> (hasToken && response.Some? && IsOk(response.value.status)
                             && response.value.json.Parsed?)
    ensures o.Success? ==> o.body == response.value.json.value
    ensures o.ApiError? <==> (hasToken && response.Some? && !IsOk(response.value.status)
                              && response.value.status != 401 && response.value.status != 500
                              && response.value.json.Parsed?)
    ensures o.ApiError? ==> o.message == OrDefault(response.value.json.detail, DefaultApiError)
    ensures o.NetworkFailure? <==> hasToken && response.None?
  {
    if !hasToken then NoToken
    else match response
      case None => NetworkFailure
      case Some(r) =>
        if r.status == 401 then Unauthorized
        else if r.status == 500 then ServerError(ServerErrorMessage(r.text, r.json))
        else if !IsOk(r.status) then
          match r.json
          case Parsed(detail, _) => ApiError(OrDefault(detail, DefaultApiError))
          case _ => Unreadable
        else
          match r.json
          case Parsed(_, value) => Success(value)
          case ParsedNull => NullBody
          case Unparsable => Unreadable
  }

  /** What `apiCall` resolves to: the parsed body, or null. Only a 401
      removes the stored token, and only a missing token or a 401 redirect to
      the login page; both are read off the outcome. */
  function Returned<B>(o: Outcome<B>): (r: Option<B>)
    ensures r.Some? <==> o.Success?
    ensures r.Some? ==> r.value == o.body
  {
    if o.Success? then Some(o.body) else None
  }

  /** `apiCall` resolves to a body exactly when a token is stored and the
      response has a 2xx status and a body that parses to an object, and that
      body is the parsed one; every other path resolves to null. */
  lemma ApiCallResult<B>(hasToken: bool, response: Option<Response<B>>)
    ensures var r := Returned(Classify(hasToken, response));
      (r.Some? <==> hasToken && response.Some? && IsOk(response.value.status) && response.value.json.Parsed?)
      && (r.Some? ==> r.value == response.value.json.value)
  {
  }
}
