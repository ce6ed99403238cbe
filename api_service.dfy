/**
 * The frontend's API client: the request paths it builds (relative to the
 * `${REACT_APP_BACKEND_URL}/api` base) and the classification of a failed
 * request by `handleApiError`. The HTTP client, its interceptors (which only
 * log) and the promises are not modelled; an error value is the part of the
 * axios error object `handleApiError` looks at.
 */
module ApiService {
  import opened Wrappers
  import opened Json
  import Text
  import BlogModels

  // JavaScript truthiness and property access on decoded JSON

  /** JavaScript truthiness: every object and array is truthy, even an empty one. */
  predicate JsTruthy(j: Json) {
    match j
    case JNull => false
    case JBool(b) => b
    case JNum(n) => n != 0.0
    case JStr(s) => s != ""
    case JArr(_) => true
    case JObj(_) => true
  }

  /** `value?.key`: the property of an object; None stands for `undefined`. */
  function Prop(value: Json, key: string): (r: Option<Json>)
    ensures r.Some? <==> value.JObj? && key in value.fields
    ensures r.Some? ==> r.value == value.fields[key]
  {
    if value.JObj? && key in value.fields then Some(value.fields[key]) else None
  }

  /** `a || b` where `a` may be undefined. */
  function Or(a: Option<Json>, b: Json): (r: Json)
    ensures a.Some? && JsTruthy(a.value) ==> r == a.value
    ensures !(a.Some? && JsTruthy(a.value)) ==> r == b
  {
    if a.Some? && JsTruthy(a.value) then a.value else b
  }

  // handleApiError

  /** The fields of the axios error `handleApiError` reads. */
  datatype ErrorResponse = ErrorResponse(status: int, data: Json)
  datatype ApiError = ApiError(response: Option<ErrorResponse>, request: bool, message: string)

  datatype ErrorKind = ServerError | NetworkError | UnknownError

  /** The returned object; `status` is None where the object has no such key. */
  datatype HandledError = HandledError(kind: ErrorKind, status: Option<int>, message: Json, data: Json)

  const KeyMessage: string := "message"
  const KeyDetail: string := "detail"
  const ServerErrorText: string := "Server error occurred"
  const NetworkErrorText: string := "Network error - please check your connection"
  const UnexpectedErrorText: string := "An unexpected error occurred"

  /** The body's truthy `message`, else its truthy `detail`, else the fixed server-error text. */
  function ServerMessage(data: Json): Json {
    Or(Prop(data, KeyMessage), Or(Prop(data, KeyDetail), JStr(ServerErrorText)))
  }

  function HandleApiError(error: ApiError): HandledError {
    if error.response.Some? then
      HandledError(ServerError, Some(error.response.value.status), ServerMessage(error.response.value.data),
                   error.response.value.data)
    else if error.request then
      HandledError(NetworkError, None, JStr(NetworkErrorText), JNull)
    else
      HandledError(UnknownError, None, JStr(if error.message != "" then error.message else UnexpectedErrorText), JNull)
  }

  /**
   * A response makes a server error, carrying the status and the body; no response but a request
   * makes a network error; anything else is unknown. The message is never falsy.
   */
  lemma HandleApiErrorFacts(error: ApiError)
    ensures var h := HandleApiError(error);
      && (h.kind == ServerError <==> error.response.Some?)
      && (h.kind == NetworkError <==> error.response.None? && error.request)
      && (h.kind == UnknownError <==> error.response.None? && !error.request)
      && (h.kind == ServerError ==> h.status == Some(error.response.value.status) && h.data == error.response.value.data)
      && (h.kind != ServerError ==> h.status.None? && h.data == JNull)
      && (h.kind == UnknownError && error.message != "" ==> h.message == JStr(error.message))
      && JsTruthy(h.message)
  {
  }

  /** The server message is the body's truthy `message`, else its truthy `detail`, else the fixed text. */
  lemma ServerMessageChoice(data: Json)
    ensures var m := ServerMessage(data);
      || (Prop(data, KeyMessage).Some? && JsTruthy(data.fields[KeyMessage]) && m == data.fields[KeyMessage])
      || (!(Prop(data, KeyMessage).Some? && JsTruthy(data.fields[KeyMessage]))
          && Prop(data, KeyDetail).Some? && JsTruthy(data.fields[KeyDetail]) && m == data.fields[KeyDetail])
      || (!(Prop(data, KeyMessage).Some? && JsTruthy(data.fields[KeyMessage]))
          && !(Prop(data, KeyDetail).Some? && JsTruthy(data.fields[KeyDetail])) && m == JStr(ServerErrorText))
  {
  }

  /** The backend's `HTTPException` body `{"detail": text}` surfaces as that text. */
  lemma DetailSurfaces(status: int, detail: string, request: bool, message: string)
    requires detail != ""
    ensures var data := JObj(map[KeyDetail := JStr(detail)]);
      HandleApiError(ApiError(Some(ErrorResponse(status, data)), request, message)).message == JStr(detail)
  {
    var data := JObj(map[KeyDetail := JStr(detail)]);
    assert KeyMessage != KeyDetail by {
      assert KeyMessage[0] != KeyDetail[0];
    }
    assert Prop(data, KeyMessage).None?;
  }

  // Request paths

  const DefaultMaxResults: int := 10
  const DefaultSkip: int := 0
  const DefaultLimit: int := 50

  const PostsPath: string := "/blog/posts"
  const MessagesPath: string := "/contact/messages"
  const MaxResultsParam: string := "?max_results="
  const SkipParam: string := "?skip="
  const LimitParam: string := "limit="
  const StatusParam: string := "status="
  const StatusSuffix: string := "/status"

  /** `getPosts(maxResults = 10)`. */
  function PostsUrl(maxResults: Option<int>): string {
    var n := if maxResults.Some? then maxResults.value else DefaultMaxResults;
    PostsPath + MaxResultsParam + Text.IntToString(n)
  }

  /** Different page sizes give different posts URLs. */
  lemma PostsUrlInjective(a: Option<int>, b: Option<int>)
    requires PostsUrl(a) == PostsUrl(b)
    ensures (if a.Some? then a.value else DefaultMaxResults) == (if b.Some? then b.value else DefaultMaxResults)
  {
    var na := if a.Some? then a.value else DefaultMaxResults;
    var nb := if b.Some? then b.value else DefaultMaxResults;
    var prefix := PostsPath + MaxResultsParam;
    assert Text.IntToString(na) == PostsUrl(a)[|prefix|..];
    assert Text.IntToString(nb) == PostsUrl(b)[|prefix|..];
    Text.IntToStringInjective(na, nb);
  }

  /** `getPostById(postId)`: the id is inserted as it is, without encoding. */
  function PostByIdUrl(postId: string): string {
    PostsPath + "/" + postId
  }

  /** Different post ids give different lookup URLs. */
  lemma PostByIdUrlInjective(a: string, b: string)
    requires PostByIdUrl(a) == PostByIdUrl(b)
    ensures a == b
  {
    PrefixCancel(PostsPath + "/", a, b);
  }

  lemma PrefixCancel(p: string, a: string, b: string)
    requires p + a == p + b
    ensures a == b
  {
    assert a == (p + a)[|p|..];
    assert b == (p + b)[|p|..];
  }

  lemma SuffixCancel(a: string, b: string, q: string)
    requires a + q == b + q
    ensures a == b
  {
    assert a == (a + q)[..|a|];
    assert b == (b + q)[..|b|];
  }

  /** The messages query: the status is appended only when it is truthy. */
  function MessagesQuery(skip: int, limit: int, status: Option<string>): string {
    var url := MessagesPath + SkipParam + Text.IntToString(skip) + "&" + LimitParam + Text.IntToString(limit);
    if status.Some? && status.value != "" then url + "&" + StatusParam + status.value else url
  }

  /** `getMessages(skip = 0, limit = 50, status = null)`. */
  function MessagesUrl(skip: Option<int>, limit: Option<int>, status: Option<string>): string {
    MessagesQuery(if skip.Some? then skip.value else DefaultSkip,
                  if limit.Some? then limit.value else DefaultLimit, status)
  }

  /** `updateMessageStatus(messageId, newStatus)`: the path it puts `{new_status: newStatus}` to. */
  function StatusUrl(messageId: string): string {
    MessagesPath + "/" + messageId + StatusSuffix
  }

  /** Different message ids give different status URLs. */
  lemma StatusUrlInjective(a: string, b: string)
    requires StatusUrl(a) == StatusUrl(b)
    ensures a == b
  {
    SuffixCancel(MessagesPath + "/" + a, MessagesPath + "/" + b, StatusSuffix);
    PrefixCancel(MessagesPath + "/", a, b);
  }

  /** The query's first `&` ends the skip value: rendered integers hold no `&`. */
  lemma {:induction false} IndexOfAfter(a: string, r: string, c: char)
    requires forall k :: 0 <= k < |a| ==> a[k] != c
    ensures BlogModels.IndexOf(a + [c] + r, c) == Some(|a|)
    decreases |a|
  {
    if a != [] {
      IndexOfAfter(a[1..], r, c);
      assert (a + [c] + r)[1..] == a[1..] + [c] + r;
    }
  }

  /** Two texts without `c`, each followed by `c`, are told apart at the first `c`. */
  lemma SplitAt(a1: string, r1: string, a2: string, r2: string, c: char)
    requires forall k :: 0 <= k < |a1| ==> a1[k] != c
    requires forall k :: 0 <= k < |a2| ==> a2[k] != c
    requires a1 + [c] + r1 == a2 + [c] + r2
    ensures a1 == a2 && r1 == r2
  {
    IndexOfAfter(a1, r1, c);
    IndexOfAfter(a2, r2, c);
    assert a1 == (a1 + [c] + r1)[..|a1|];
    assert a2 == (a2 + [c] + r2)[..|a2|];
    assert r1 == (a1 + [c] + r1)[|a1| + 1..];
    assert r2 == (a2 + [c] + r2)[|a2| + 1..];
  }

  lemma NoAmpInInt(i: int)
    ensures forall k :: 0 <= k < |Text.IntToString(i)| ==> Text.IntToString(i)[k] != '&'
  {
  }

  /** The tail after the limit: its value, then the status part when there is one. */
  function LimitTail(limit: int, status: Option<string>): string {
    var l := Text.IntToString(limit);
    if status.Some? && status.value != "" then l + "&" + (StatusParam + status.value) else l
  }

  lemma MessagesQueryShape(skip: int, limit: int, status: Option<string>)
    ensures MessagesQuery(skip, limit, status)
            == (MessagesPath + SkipParam + Text.IntToString(skip)) + "&" + (LimitParam + LimitTail(limit, status))
  {
    var head := MessagesPath + SkipParam + Text.IntToString(skip);
    QueryAssoc(head, LimitParam, Text.IntToString(limit), StatusParam, if status.Some? then status.value else "");
  }

  /** Regrouping the query's concatenations, with or without the status part. */
  lemma QueryAssoc(head: string, lp: string, l: string, sp: string, v: string)
    ensures head + "&" + lp + l == head + "&" + (lp + l)
    ensures head + "&" + lp + l + "&" + sp + v == head + "&" + (lp + (l + "&" + (sp + v)))
  {
    var amp := "&";
    Concat4(head + amp, lp, l, amp + (sp + v));
    assert head + amp + lp + l + amp + sp + v == head + amp + lp + l + (amp + (sp + v));
  }

  lemma Concat4(a: string, b: string, c: string, d: string)
    ensures a + b + c + d == a + (b + (c + d))
  {
  }

  /** Different queries give different URLs: skip, limit and a truthy status can all be read back. */
  lemma MessagesQueryInjective(s1: int, l1: int, st1: Option<string>, s2: int, l2: int, st2: Option<string>)
    requires MessagesQuery(s1, l1, st1) == MessagesQuery(s2, l2, st2)
    ensures s1 == s2 && l1 == l2
    ensures (st1.Some? && st1.value != "") == (st2.Some? && st2.value != "")
    ensures st1.Some? && st1.value != "" ==> st1.value == st2.value
  {
    var head1 := MessagesPath + SkipParam + Text.IntToString(s1);
    var head2 := MessagesPath + SkipParam + Text.IntToString(s2);
    MessagesQueryShape(s1, l1, st1);
    MessagesQueryShape(s2, l2, st2);
    HeadNoAmp(s1);
    HeadNoAmp(s2);
    assert head1 + "&" == head1 + ['&'];
    SplitAt(head1, LimitParam + LimitTail(l1, st1), head2, LimitParam + LimitTail(l2, st2), '&');
    assert Text.IntToString(s1) == head1[|MessagesPath + SkipParam|..];
    assert Text.IntToString(s2) == head2[|MessagesPath + SkipParam|..];
    Text.IntToStringInjective(s1, s2);
    var t1, t2 := LimitTail(l1, st1), LimitTail(l2, st2);
    assert t1 == (LimitParam + t1)[6..] && t2 == (LimitParam + t2)[6..];
    assert t1 == t2;
    TailInjective(l1, st1, l2, st2);
  }

  lemma HeadNoAmp(skip: int)
    ensures var head := MessagesPath + SkipParam + Text.IntToString(skip);
      forall k :: 0 <= k < |head| ==> head[k] != '&'
  {
    var prefix := MessagesPath + SkipParam;
    var head := prefix + Text.IntToString(skip);
    NoAmpInInt(skip);
    assert forall k :: 0 <= k < |prefix| ==> prefix[k] != '&';
    forall k | |prefix| <= k < |head| ensures head[k] != '&' {
      assert head[k] == Text.IntToString(skip)[k - |prefix|];
    }
  }

  lemma TailInjective(l1: int, st1: Option<string>, l2: int, st2: Option<string>)
    requires LimitTail(l1, st1) == LimitTail(l2, st2)
    ensures l1 == l2
    ensures (st1.Some? && st1.value != "") == (st2.Some? && st2.value != "")
    ensures st1.Some? && st1.value != "" ==> st1.value == st2.value
  {
    var a1, a2 := Text.IntToString(l1), Text.IntToString(l2);
    var f1, f2 := st1.Some? && st1.value != "", st2.Some? && st2.value != "";
    NoAmpInInt(l1);
    NoAmpInInt(l2);
    var i1 := BlogModels.IndexOf(LimitTail(l1, st1), '&');
    var i2 := BlogModels.IndexOf(LimitTail(l2, st2), '&');
    if f1 {
      IndexOfAfter(a1, StatusParam + st1.value, '&');
      assert LimitTail(l1, st1) == a1 + ['&'] + (StatusParam + st1.value);
    }
    if f2 {
      IndexOfAfter(a2, StatusParam + st2.value, '&');
      assert LimitTail(l2, st2) == a2 + ['&'] + (StatusParam + st2.value);
    }
    assert i1.Some? <==> f1;
    assert i2.Some? <==> f2;
    if f1 {
      SplitAt(a1, StatusParam + st1.value, a2, StatusParam + st2.value, '&');
      assert st1.value == (StatusParam + st1.value)[7..];
      assert st2.value == (StatusParam + st2.value)[7..];
    }
    Text.IntToStringInjective(l1, l2);
  }
}
