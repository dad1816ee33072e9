/** The content hook of `src/hooks/useContent.tsx`: the content item shape
    the backend returns, and `fetchContent`, which gates on the token, asks
    for `/content` through the shared HTTP client and replaces the mirror
    with the list the response carries. */
module ContentHook {

  import opened Wrappers
  import opened Browser
  import opened Http
  import opened Notifications

  /** The `tag` property of a tag object: missing or falsy, an object
      without `title`, or an object with a `title`. */
  datatype NestedTag = NoNestedTag | NestedWithoutTitle | NestedTag(title: string)

  /** One element of an item's `tags` array: a tag name (one backend shape),
      or a wrapper object (the other shape) that may carry a nested tag and a
      `title` of its own. */
  datatype TagEntry = TagName(name: string) | TagObject(tag: NestedTag, title: Option<string>)

  /** A saved link. `createdAt` is the creation time in milliseconds, None
      when missing; `tags` is None when the property is missing or not an
      array. */
  datatype ContentItem = ContentItem(
    id: int,
    title: string,
    contentType: string,
    link: string,
    createdAt: Option<int>,
    tags: Option<seq<TagEntry>>)

  /** A property of the response body: missing, an array of items, or some
      other value. */
  datatype FieldValue = Absent | ArrayValue(items: seq<ContentItem>) | NonArray

  /** The body of a successful `GET /content`: the current `data` field and
      the legacy `formatted` field. */
  datatype ContentResponse = ContentResponse(data: FieldValue, formatted: FieldValue)

  const LoginRequiredError: string := "Please login to view content"
  const LoginRequiredNotice: string := "Authentication required. Please login."
  const FetchFailedError: string := "Failed to fetch content"

  /** The error `fetchContent` throws at itself when neither field is an array. */
  const InvalidFormatError: ApiError := ApiError(None, false, "Invalid response format")

  /** The list a response body carries: `data` when it is an array, else
      `formatted` when that is an array, else nothing. */
  function SelectContent(body: ContentResponse): (r: Option<seq<ContentItem>>)
    ensures r.Some? <==> body.data.ArrayValue? || body.formatted.ArrayValue?
    ensures body.data.ArrayValue? ==> r == Some(body.data.items)
    ensures !body.data.ArrayValue? && body.formatted.ArrayValue? ==> r == Some(body.formatted.items)
  {
    if body.data.ArrayValue? then Some(body.data.items)
    else if body.formatted.ArrayValue? then Some(body.formatted.items)
    else None
  }

  /** The list a completed request yields, if any. */
  function Fetched(outcome: HttpResult<ContentResponse>): Option<seq<ContentItem>> {
    if outcome.Ok? then SelectContent(outcome.response) else None
  }

  /** The error `handleApiError` sees when a request yields no list. */
  function FailureOf(outcome: HttpResult<ContentResponse>): ApiError {
    if outcome.Err? then outcome.error else InvalidFormatError
  }

  /** A well-formed body whose shape is wrong is reported by its own text. */
  lemma InvalidFormatMessage(body: ContentResponse)
    requires SelectContent(body).None?
    ensures Fetched(Ok(body)).None?
    ensures ApiErrorMessage(FailureOf(Ok(body))) == "Invalid response format"
  {
  }

  /** The state `useContent` keeps: the fetched list, the loading flag and the
      error text the dashboard shows instead of its content. */
  class ContentState {
    var content: seq<ContentItem>
    var loading: bool
    var error: string

    constructor ()
      ensures content == [] && !loading && error == ""
    {
      content := [];
      loading := false;
      error := "";
    }

    /** `fetchContent()`. `outcome` is how `GET /content` settles before the
        response interceptor sees it; `now` is the clock for notification
        ids. Returns whether a request was made. */
    method FetchContent(store: TokenStore, location: Location, center: NotificationCenter,
                        now: int, outcome: HttpResult<ContentResponse>)
      returns (requested: bool)
      modifies this, store, location, center
      ensures requested == TokenPresent(old(store.token))
      ensures location.pathname == old(location.pathname)
      // Without a token: no request, the mirror and the token untouched, one warning.
      ensures !requested ==>
        && content == old(content) && loading == old(loading) && error == LoginRequiredError
        && center.errors == old(center.errors) + [ErrorMessage(ClockId(now), LoginRequiredNotice, Warning, now)]
        && store.token == old(store.token) && location.navigations == old(location.navigations)
      // With a token: the list replaces the mirror, or the mirror stays and one error is reported.
      ensures requested ==> !loading
      ensures requested && Fetched(outcome).Some? ==>
        && content == Fetched(outcome).value && error == old(error) && center.errors == old(center.errors)
      ensures requested && Fetched(outcome).None? ==>
        && content == old(content) && error == FetchFailedError
        && center.errors == old(center.errors) + [ErrorMessage(ClockId(now), ApiErrorMessage(FailureOf(outcome)), Error, now)]
      // What the response interceptor does on the way.
      ensures requested ==> store.token == if IsUnauthorized(outcome) then None else old(store.token)
      ensures requested ==>
        location.navigations == old(location.navigations)
          + if IsUnauthorized(outcome) && old(location.pathname) != SignInPath then [SignInPath] else []
    {
      var token := store.GetItem();
      if !TokenPresent(token) {
        error := LoginRequiredError;
        center.AddError(now, LoginRequiredNotice, Warning);
        return false;
      }
      requested := true;
      loading := true;
      var settled := InterceptResponse(outcome, store, location);
      var failure: Option<ApiError> := None;
      if settled.Ok? {
        var body := settled.response;
        if body.data.ArrayValue? {
          content := body.data.items;
        } else if body.formatted.ArrayValue? {
          content := body.formatted.items;
        } else {
          failure := Some(InvalidFormatError);
        }
      } else {
        failure := Some(settled.error);
      }
      if failure.Some? {
        var _ := HandleApiError(failure.value, center, now);
        error := FetchFailedError;
      }
      loading := false;
    }
  }

  /** A 401 on the content fetch clears the token and sends the user to the
      sign-in page, and the list shown before stays. */
  method UnauthorizedFetchScenario(items: seq<ContentItem>, now: int)
    returns (token: Option<string>, navigations: seq<string>, shown: seq<ContentItem>, reported: seq<ErrorMessage>)
    ensures token == None
    ensures navigations == [SignInPath]
    ensures shown == items
    ensures reported == [ErrorMessage(ClockId(now), "Unauthorized", Error, now)]
  {
    var store := new TokenStore(Some("t0k3n"));
    var location := new Location("/");
    var center := new NotificationCenter();
    var state := new ContentState();
    state.content := items;
    var unauthorized := ApiError(Some(ErrorResponse(401, ObjectBody(Some("Unauthorized")))), true, "");
    var requested := state.FetchContent(store, location, center, now, Err(unauthorized));
    assert requested && state.error == FetchFailedError;
    token, navigations, shown, reported := store.token, location.navigations, state.content, center.errors;
  }

  /** Without a token nothing is requested, the mirror stays empty and one
      warning is recorded. */
  method NoTokenScenario(now: int, outcome: HttpResult<ContentResponse>)
    returns (requested: bool, shown: seq<ContentItem>, reported: seq<ErrorMessage>)
    ensures !requested
    ensures shown == []
    ensures reported == [ErrorMessage(ClockId(now), LoginRequiredNotice, Warning, now)]
  {
    var store := new TokenStore(None);
    var location := new Location("/");
    var center := new NotificationCenter();
    var state := new ContentState();
    requested := state.FetchContent(store, location, center, now, outcome);
    shown, reported := state.content, center.errors;
  }
}
