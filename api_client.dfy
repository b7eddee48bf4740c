/**
  FortniteApiClient: a thin GET helper for the public cosmetics API. Each
  call validates its arguments, throwing before any request is made, and
  builds a relative request URI from percent-encoded values:

    cosmetics?language={language}
    cosmetics/br/search/ids?language={language}&id={id}&id={id}...

  The client wraps an HttpClient that it disposes on Dispose only when it
  owns it, and only on the first call.

  The HTTP exchange itself (sending the request, checking the status,
  reading and deserialising the body) is transport and is not modelled: the
  operations here end with the request URI they would send.
*/
module ApiClient {
  import opened Wrappers
  import opened Text
  import opened Replay

  /** ArgumentNullException and ArgumentException, with the parameter name. */
  datatype ApiError = ArgumentNull(paramName: string) | Argument(paramName: string)

  /** The unreserved characters of section 2.3 of RFC 3986: ALPHA, DIGIT, "-", ".", "_", "~". */
  predicate IsUnreserved(c: char)
  {
    || 'A' <= c <= 'Z' || 'a' <= c <= 'z' || IsDigit(c)
    || c == '-' || c == '.' || c == '_' || c == '~'
  }

  /** The UTF-8 encoding of one Unicode scalar value. */
  function Utf8(c: char): (bytes: seq<nat>)
    ensures 1 <= |bytes| <= 4
    ensures forall i :: 0 <= i < |bytes| ==> bytes[i] < 256
  {
    var n := c as int;
    if n < 0x80 then [n]
    else if n < 0x800 then [0xC0 + n / 0x40, 0x80 + n % 0x40]
    else if n < 0x1_0000 then [0xE0 + n / 0x1000, 0x80 + n / 0x40 % 0x40, 0x80 + n % 0x40]
    else [0xF0 + n / 0x4_0000, 0x80 + n / 0x1000 % 0x40, 0x80 + n / 0x40 % 0x40, 0x80 + n % 0x40]
  }

  /** An upper-case hexadecimal digit, as EscapeDataString writes them. */
  function HexDigit(d: nat): (c: char)
    requires d < 16
    ensures IsUnreserved(c)
  {
    if d < 10 then DigitChar(d) else ('A' as int + (d - 10)) as char
  }

  /** The percent-encoding "%XY" of one octet (section 2.1 of RFC 3986). */
  function PercentEncoded(bytes: seq<nat>): (r: string)
    requires forall i :: 0 <= i < |bytes| ==> bytes[i] < 256
    ensures |r| == 3 * |bytes|
    ensures forall i :: 0 <= i < |r| ==> IsUnreserved(r[i]) || r[i] == '%'
    decreases |bytes|
  {
    if bytes == [] then ""
    else ['%', HexDigit(bytes[0] / 16), HexDigit(bytes[0] % 16)] + PercentEncoded(bytes[1..])
  }

  function EscapeChar(c: char): string
  {
    if IsUnreserved(c) then [c] else PercentEncoded(Utf8(c))
  }

  /**
    Uri.EscapeDataString: unreserved characters stay as they are, every other
    character becomes the percent-encoding of its UTF-8 bytes. The result
    uses only unreserved characters and '%', so it never contains the '&',
    '=' or '?' that delimit a query.
  */
  function EscapeDataString(s: string): (r: string)
    ensures forall i :: 0 <= i < |r| ==> IsUnreserved(r[i]) || r[i] == '%'
    decreases |s|
  {
    if s == [] then ""
    else
      var head := EscapeChar(s[0]);
      var rest := EscapeDataString(s[1..]);
      assert forall i :: 0 <= i < |head| ==> IsUnreserved(head[i]) || head[i] == '%';
      head + rest
  }

  /** A value made of unreserved characters only is sent as it is. */
  lemma {:induction false} EscapeUnreservedIsIdentity(s: string)
    requires forall i :: 0 <= i < |s| ==> IsUnreserved(s[i])
    ensures EscapeDataString(s) == s
    decreases |s|
  {
    if s != [] {
      EscapeUnreservedIsIdentity(s[1..]);
      assert s == [s[0]] + s[1..];
    }
  }

  /** Escaping works character by character: the escape of a concatenation is the concatenation of the escapes. */
  lemma {:induction false} EscapeAppend(a: string, b: string)
    ensures EscapeDataString(a + b) == EscapeDataString(a) + EscapeDataString(b)
    decreases |a|
  {
    if a == [] {
      assert a + b == b;
    } else {
      assert (a + b)[0] == a[0] && (a + b)[1..] == a[1..] + b;
      EscapeAppend(a[1..], b);
    }
  }

  /** A reserved character is always encoded, so it never reaches the query as itself. */
  lemma EscapeHidesReserved(c: char)
    requires !IsUnreserved(c)
    ensures |EscapeDataString([c])| >= 3 && EscapeDataString([c])[0] == '%'
  {
    assert [c][1..] == [];
  }

  const CosmeticsPrefix: string := "cosmetics?language="

  /** GetCosmeticsRawAsync: a blank language throws before any request; otherwise the request URI. */
  function CosmeticsRequest(language: Option<string>): (r: Result<string, ApiError>)
    ensures IsNullOrWhiteSpace(language) <==> r == Failure(Argument("language"))
    ensures r.Success? ==>
              && |CosmeticsPrefix| <= |r.value|
              && r.value[..|CosmeticsPrefix|] == CosmeticsPrefix
              && r.value[|CosmeticsPrefix|..] == EscapeDataString(language.value)
  {
    if IsNullOrWhiteSpace(language) then Failure(Argument("language"))
    else
      var r := CosmeticsPrefix + EscapeDataString(language.value);
      assert r[..|CosmeticsPrefix|] == CosmeticsPrefix;
      Success(r)
  }

  /** `ids.Where(i => !string.IsNullOrWhiteSpace(i))`: the ids worth sending, in input order. */
  function KeptIds(ids: seq<Option<string>>): (r: seq<string>)
    ensures |r| <= |ids|
    ensures forall i :: 0 <= i < |r| ==> !IsNullOrWhiteSpace(Some(r[i]))
    ensures |r| == 0 <==> forall i :: 0 <= i < |ids| ==> IsNullOrWhiteSpace(ids[i])
    decreases |ids|
  {
    if ids == [] then []
    else if !IsNullOrWhiteSpace(ids[0]) then [ids[0].value] + KeptIds(ids[1..])
    else
      var rest := KeptIds(ids[1..]);
      assert (forall i :: 0 <= i < |ids[1..]| ==> IsNullOrWhiteSpace(ids[1..][i])) ==>
               forall i :: 0 <= i < |ids| ==> IsNullOrWhiteSpace(ids[i]) by {
        if forall i :: 0 <= i < |ids[1..]| ==> IsNullOrWhiteSpace(ids[1..][i]) {
          forall i | 0 < i < |ids| ensures IsNullOrWhiteSpace(ids[i]) {
            assert ids[i] == ids[1..][i - 1];
          }
        }
      }
      rest
  }

  /** The kept ids as the non-null values they were in the input. */
  function Somes(values: seq<string>): (r: seq<Option<string>>)
    ensures |r| == |values| && forall k :: 0 <= k < |values| ==> r[k] == Some(values[k])
  {
    seq(|values|, k requires 0 <= k < |values| => Some(values[k]))
  }

  /**
    Where keeps every id that is not blank, as often as it occurs, and in
    input order: the kept ids are a subsequence of the input.
  */
  lemma KeptIdsSpec(ids: seq<Option<string>>)
    ensures forall s :: !IsNullOrWhiteSpace(Some(s)) ==> multiset(KeptIds(ids))[s] == multiset(ids)[Some(s)]
    ensures IsSubsequence(Somes(KeptIds(ids)), ids)
  {
    forall s | !IsNullOrWhiteSpace(Some(s))
      ensures multiset(KeptIds(ids))[s] == multiset(ids)[Some(s)]
    {
      KeptIdsCount(ids, s);
    }
    KeptIdsInOrder(ids);
  }

  lemma {:induction false} KeptIdsCount(ids: seq<Option<string>>, s: string)
    requires !IsNullOrWhiteSpace(Some(s))
    ensures multiset(KeptIds(ids))[s] == multiset(ids)[Some(s)]
    decreases |ids|
  {
    if ids != [] {
      var tail := ids[1..];
      KeptIdsCount(tail, s);
      assert ids == [ids[0]] + tail;
      if !IsNullOrWhiteSpace(ids[0]) {
        assert KeptIds(ids) == [ids[0].value] + KeptIds(tail);
      } else {
        assert ids[0] != Some(s);
      }
    }
  }

  lemma {:induction false} KeptIdsInOrder(ids: seq<Option<string>>)
    ensures IsSubsequence(Somes(KeptIds(ids)), ids)
    decreases |ids|
  {
    if ids != [] {
      var tail := ids[1..];
      KeptIdsInOrder(tail);
      var rest := KeptIds(tail);
      if !IsNullOrWhiteSpace(ids[0]) {
        var r := [ids[0].value] + rest;
        assert Somes(r)[0] == ids[0] && Somes(r)[1..] == Somes(rest);
      }
    }
  }

  /** The "&id=..." parameters for the ids, in order, as the foreach appends them. */
  function IdParams(ids: seq<string>): string
    decreases |ids|
  {
    if ids == [] then "" else IdParams(ids[..|ids| - 1]) + "&id=" + EscapeDataString(ids[|ids| - 1])
  }

  /** The parameters of the first i + 1 ids extend those of the first i by the next id's parameter. */
  lemma IdParamsPrefixStep(head: string, ids: seq<string>, i: nat)
    requires i < |ids|
    ensures head + IdParams(ids[..i + 1]) == head + IdParams(ids[..i]) + "&id=" + EscapeDataString(ids[i])
  {
    var escaped := EscapeDataString(ids[i]);
    var init := IdParams(ids[..i]);
    assert ids[..i + 1][..i] == ids[..i] && ids[..i + 1][i] == ids[i];
    assert IdParams(ids[..i + 1]) == init + "&id=" + escaped;
    AppendAssociates(init, "&id=", escaped);
    AppendAssociates(head, init, "&id=" + escaped);
    AppendAssociates(head + init, "&id=", escaped);
  }

  const SearchPrefix: string := "cosmetics/br/search/ids?"

  /**
    SearchCosmeticsByIdsAsync: the checks in source order (null ids, no id
    left after dropping blank ones, blank language), then the request URI.
  */
  function SearchRequest(ids: Option<seq<Option<string>>>, language: Option<string>): (r: Result<string, ApiError>)
    ensures ids.None? ==> r == Failure(ArgumentNull("ids"))
    ensures ids.Some? && KeptIds(ids.value) == [] ==> r == Failure(Argument("ids"))
    ensures ids.Some? && KeptIds(ids.value) != [] && IsNullOrWhiteSpace(language) ==> r == Failure(Argument("language"))
    ensures r.Success? <==> ids.Some? && KeptIds(ids.value) != [] && !IsNullOrWhiteSpace(language)
  {
    if ids.None? then Failure(ArgumentNull("ids"))
    else
      var kept := KeptIds(ids.value);
      if |kept| == 0 then Failure(Argument("ids"))
      else if IsNullOrWhiteSpace(language) then Failure(Argument("language"))
      else Success(SearchPrefix + "language=" + EscapeDataString(language.value) + IdParams(kept))
  }

  /** The request URI once all three checks have passed. */
  lemma SearchRequestBuilt(ids: seq<Option<string>>, language: string)
    requires KeptIds(ids) != [] && !IsNullOrWhiteSpace(Some(language))
    ensures SearchRequest(Some(ids), Some(language))
              == Success(SearchPrefix + "language=" + EscapeDataString(language) + IdParams(KeptIds(ids)))
  {
  }

  /** String.Split(sep): the pieces between separators, empty ones included. */
  function Split(s: string, sep: char): (r: seq<string>)
    ensures |r| >= 1
    decreases |s|
  {
    if s == [] then [""]
    else
      var rest := Split(s[1..], sep);
      if s[0] == sep then [""] + rest else [[s[0]] + rest[0]] + rest[1..]
  }

  lemma {:induction false} SplitNoSeparator(s: string, sep: char)
    requires forall i :: 0 <= i < |s| ==> s[i] != sep
    ensures Split(s, sep) == [s]
    decreases |s|
  {
    if s != [] {
      SplitNoSeparator(s[1..], sep);
      assert [s[0]] + s[1..] == s;
    }
  }

  /** Splitting `x + sep + b`, where b holds no separator, splits x and adds b as the last piece. */
  lemma {:induction false} SplitSnoc(x: string, sep: char, b: string)
    requires forall i :: 0 <= i < |b| ==> b[i] != sep
    ensures Split(x + [sep] + b, sep) == Split(x, sep) + [b]
    decreases |x|
  {
    var s := x + [sep] + b;
    if x == [] {
      assert s == [sep] + b && s[1..] == b;
      SplitNoSeparator(b, sep);
    } else {
      assert s[0] == x[0] && s[1..] == x[1..] + [sep] + b;
      SplitSnoc(x[1..], sep, b);
    }
  }

  /** The "id=..." parameters the search request carries, one per kept id. */
  function IdParamList(ids: seq<string>): seq<string>
  {
    seq(|ids|, i requires 0 <= i < |ids| => IdParam(ids[i]))
  }

  function IdParam(id: string): string
  {
    "id=" + EscapeDataString(id)
  }

  /** An "id=" parameter holds no '&' of its own, whatever the id. */
  lemma IdParamHasNoAmpersand(id: string)
    ensures forall i :: 0 <= i < |"id=" + EscapeDataString(id)| ==> ("id=" + EscapeDataString(id))[i] != '&'
  {
    var e := EscapeDataString(id);
    forall i | 0 <= i < |"id=" + e| ensures ("id=" + e)[i] != '&' {
      if i >= 3 {
        assert ("id=" + e)[i] == e[i - 3];
      }
    }
  }

  /** Nor does the "language=" parameter, whatever the language. */
  lemma LanguageParamHasNoAmpersand(language: string)
    ensures forall i :: 0 <= i < |"language=" + EscapeDataString(language)| ==> ("language=" + EscapeDataString(language))[i] != '&'
  {
    var e := EscapeDataString(language);
    forall i | 0 <= i < |"language=" + e| ensures ("language=" + e)[i] != '&' {
      if i >= 9 {
        assert ("language=" + e)[i] == e[i - 9];
      }
    }
  }

  lemma SeparatorThenName()
    ensures "&id=" == ['&'] + "id="
  {
    assert "&id="[1..] == "id=";
  }

  /** The parameters of a non-empty id list: those of all but the last, '&', then the last one's. */
  lemma IdParamsSnoc(first: string, ids: seq<string>)
    requires ids != []
    ensures first + IdParams(ids)
              == (first + IdParams(ids[..|ids| - 1])) + ['&'] + ("id=" + EscapeDataString(ids[|ids| - 1]))
  {
    var e := EscapeDataString(ids[|ids| - 1]);
    var init := IdParams(ids[..|ids| - 1]);
    SeparatorThenName();
    AppendAssociates(['&'], "id=", e);
    AppendAssociates(init, "&id=", e);
    AppendAssociates(first, init, "&id=" + e);
    AppendAssociates(first + init, ['&'], "id=" + e);
  }

  /** The parameter list of one more id is the old list and that id's parameter. */
  lemma IdParamListSnoc(init: seq<string>, last: string)
    ensures IdParamList(init + [last]) == IdParamList(init) + [IdParam(last)]
  {
    var ids := init + [last];
    assert forall k :: 0 <= k < |init| ==> IdParamList(ids)[k] == IdParamList(init)[k];
    assert IdParamList(ids)[|init|] == IdParam(last);
  }

  /** One more id adds one more piece to the split query. */
  lemma ParamsSplitStep(first: string, init: seq<string>, last: string)
    requires Split(first + IdParams(init), '&') == [first] + IdParamList(init)
    ensures Split(first + IdParams(init + [last]), '&') == [first] + IdParamList(init + [last])
  {
    var ids := init + [last];
    assert ids[..|ids| - 1] == init && ids[|ids| - 1] == last;
    var head := first + IdParams(init);
    var param := IdParam(last);
    assert first + IdParams(ids) == head + ['&'] + param by {
      IdParamsSnoc(first, ids);
    }
    assert Split(head + ['&'] + param, '&') == Split(head, '&') + [param] by {
      IdParamHasNoAmpersand(last);
      SplitSnoc(head, '&', param);
    }
    IdParamListSnoc(init, last);
    assert ([first] + IdParamList(init)) + [param] == [first] + (IdParamList(init) + [param]);
  }

  lemma {:induction false} ParamsSplit(first: string, ids: seq<string>)
    requires forall i :: 0 <= i < |first| ==> first[i] != '&'
    ensures Split(first + IdParams(ids), '&') == [first] + IdParamList(ids)
    decreases |ids|
  {
    if ids == [] {
      assert first + "" == first;
      SplitNoSeparator(first, '&');
    } else {
      var init, last := ids[..|ids| - 1], ids[|ids| - 1];
      ParamsSplit(first, init);
      assert init + [last] == ids;
      ParamsSplitStep(first, init, last);
    }
  }

  /**
    The search request names every kept id, in order, each in a parameter of
    its own: whatever characters an id or the language holds, splitting the
    query at '&' gives the language parameter and then one "id=" parameter
    per kept id.
  */
  lemma SearchRequestParameters(ids: Option<seq<Option<string>>>, language: Option<string>)
    requires SearchRequest(ids, language).Success?
    ensures var r := SearchRequest(ids, language).value;
      && |SearchPrefix| <= |r| && r[..|SearchPrefix|] == SearchPrefix
      && Split(r[|SearchPrefix|..], '&')
           == ["language=" + EscapeDataString(language.value)] + IdParamList(KeptIds(ids.value))
  {
    var first := "language=" + EscapeDataString(language.value);
    var kept := KeptIds(ids.value);
    var e := EscapeDataString(language.value);
    var r := SearchRequest(ids, language).value;
    AppendAssociates(SearchPrefix, "language=", e);
    AppendAssociates(SearchPrefix, first, IdParams(kept));
    assert r == SearchPrefix + (first + IdParams(kept));
    assert r[..|SearchPrefix|] == SearchPrefix && r[|SearchPrefix|..] == first + IdParams(kept);
    LanguageParamHasNoAmpersand(language.value);
    ParamsSplit(first, kept);
  }

  lemma CosmeticsUriSpelling()
    ensures CosmeticsPrefix + "en" == "cosmetics?language=en"
  {
  }

  lemma SearchUriSpelling()
    ensures SearchPrefix + "language=" + "en" + ("" + "&id=" + "qqqq" + "&id=" + "wwee")
              == "cosmetics/br/search/ids?language=en&id=qqqq&id=wwee"
  {
  }

  /** The request URIs the client's unit tests expect, and their rejected inputs. */
  lemma CosmeticsRequestExample()
    ensures CosmeticsRequest(Some("en")) == Success("cosmetics?language=en")
    ensures CosmeticsRequest(Some("")) == Failure(Argument("language"))
  {
    assert "en"[0] == 'e';
    EscapeUnreservedIsIdentity("en");
    assert CosmeticsRequest(Some("en")) == Success(CosmeticsPrefix + "en");
    CosmeticsUriSpelling();
  }

  lemma SearchRequestExample()
    ensures SearchRequest(Some([Some("qqqq"), Some("wwee")]), Some("en"))
              == Success("cosmetics/br/search/ids?language=en&id=qqqq&id=wwee")
    ensures SearchRequest(Some([]), Some("en")) == Failure(Argument("ids"))
  {
    var ids := [Some("qqqq"), Some("wwee")];
    ExampleIdsKept();
    ExampleIdParams();
    assert "en"[0] == 'e';
    EscapeUnreservedIsIdentity("en");
    assert SearchRequest(Some(ids), Some("en")).value
             == SearchPrefix + "language=" + "en" + ("" + "&id=" + "qqqq" + "&id=" + "wwee");
    SearchUriSpelling();
  }

  lemma ExampleIdsKept()
    ensures KeptIds([Some("qqqq"), Some("wwee")]) == ["qqqq", "wwee"]
  {
    var ids := [Some("qqqq"), Some("wwee")];
    assert "qqqq"[0] == 'q' && "wwee"[0] == 'w';
    assert !IsNullOrWhiteSpace(ids[0]) && !IsNullOrWhiteSpace(ids[1]);
    assert ids[1..] == [Some("wwee")] && ids[1..][1..] == [];
  }

  lemma ExampleIdParams()
    ensures IdParams(["qqqq", "wwee"]) == "" + "&id=" + "qqqq" + "&id=" + "wwee"
  {
    var kept := ["qqqq", "wwee"];
    EscapeUnreservedIsIdentity("qqqq");
    EscapeUnreservedIsIdentity("wwee");
    assert kept[..1] == ["qqqq"] && kept[..1][..0] == [];
  }


  /** The underlying HttpClient, observed only through how often it was disposed. */
  class HttpClient {
    var disposeCount: nat

    constructor()
      ensures disposeCount == 0
    {
      disposeCount := 0;
    }

    method Dispose()
      modifies this
      ensures disposeCount == old(disposeCount) + 1
    {
      disposeCount := disposeCount + 1;
    }
  }

  class FortniteApiClient {
    const httpClient: HttpClient
    const disposeHttpClient: bool
    var disposed: bool

    /** FortniteApiClient(httpClient, disposeHttpClient) once the null check has passed. */
    constructor(client: HttpClient, disposeHttpClient: bool)
      ensures httpClient == client && this.disposeHttpClient == disposeHttpClient && !disposed
    {
      httpClient := client;
      this.disposeHttpClient := disposeHttpClient;
      disposed := false;
    }

    /** FortniteApiClient(): the shared default client, which this instance never owns. */
    constructor Default(shared: HttpClient)
      ensures httpClient == shared && !disposeHttpClient && !disposed
    {
      httpClient := shared;
      disposeHttpClient := false;
      disposed := false;
    }

    /** Dispose: idempotent; the wrapped client is disposed on the first call only, and only when owned. */
    method Dispose()
      modifies this, httpClient
      ensures disposed
      ensures httpClient.disposeCount
                == old(httpClient.disposeCount) + (if !old(disposed) && disposeHttpClient then 1 else 0)
    {
      if disposed {
        return;
      }
      if disposeHttpClient {
        httpClient.Dispose();
      }
      disposed := true;
    }

    /** GetCosmeticsRawAsync up to the request: the URI it would send, or the exception. */
    method GetCosmeticsRaw(language: Option<string>) returns (r: Result<string, ApiError>)
      ensures r == CosmeticsRequest(language)
    {
      if IsNullOrWhiteSpace(language) {
        return Failure(Argument("language"));
      }
      r := Success(CosmeticsPrefix + EscapeDataString(language.value));
    }

    /** SearchCosmeticsByIdsAsync up to the request: the checks, then the StringBuilder loop over the kept ids. */
    method SearchCosmeticsByIds(ids: Option<seq<Option<string>>>, language: Option<string>) returns (r: Result<string, ApiError>)
      ensures r == SearchRequest(ids, language)
    {
      if ids.None? {
        return Failure(ArgumentNull("ids"));
      }
      var idList := KeptIds(ids.value);
      if |idList| == 0 {
        return Failure(Argument("ids"));
      }
      if IsNullOrWhiteSpace(language) {
        return Failure(Argument("language"));
      }
      var sb := SearchPrefix;
      sb := sb + "language=" + EscapeDataString(language.value);
      ghost var head := sb;
      var i := 0;
      while i < |idList|
        invariant 0 <= i <= |idList|
        invariant sb == head + IdParams(idList[..i])
      {
        var escaped := EscapeDataString(idList[i]);
        IdParamsPrefixStep(head, idList, i);
        sb := sb + "&id=" + escaped;
        i := i + 1;
      }
      assert idList[..i] == idList;
      SearchRequestBuilt(ids.value, language.value);
      r := Success(sb);
    }
  }

  /** ArgumentNullException for a null HttpClient; otherwise a new client. */
  method NewFortniteApiClient(client: HttpClient?, disposeHttpClient: bool) returns (r: Result<FortniteApiClient, ApiError>)
    ensures client == null <==> r == Failure(ArgumentNull("httpClient"))
    ensures r.Success? ==> && fresh(r.value) && r.value.httpClient == client
                           && r.value.disposeHttpClient == disposeHttpClient && !r.value.disposed
  {
    if client == null {
      return Failure(ArgumentNull("httpClient"));
    }
    var created := new FortniteApiClient(client, disposeHttpClient);
    r := Success(created);
  }

  /** Disposing twice disposes the owned client once, and a shared client never. */
  method DisposeTwice(api: FortniteApiClient)
    requires !api.disposed
    modifies api, api.httpClient
    ensures api.httpClient.disposeCount == old(api.httpClient.disposeCount) + (if api.disposeHttpClient then 1 else 0)
  {
    api.Dispose();
    api.Dispose();
  }
}
