# Second Brain client: a Dafny model of its view logic

Second Brain is a React client for a personal store of links: videos,
tweets, articles and documents, each with a title, a type, optional tags
and an optional creation time. This project models the logic in that
client which can be stated precisely, and proves what the code promises
about it:

- **The dashboard's view model.**
  - The filtered view: a search, a type filter and a seven-day "recent"
    window.
  - Tag normalisation, for the search and for the cards.
  - The filter buttons' state machine, the local delete patch, the sidebar
    highlight and the default creation time.
- **The notification centre.** Messages are appended, removed by id and
  cleared; an API error becomes one reported message.
- **The content fetch.** It has a token gate, chooses between the `data` and
  `formatted` response arrays, and sets its `error` and `loading` state.
- **The HTTP interceptors.** The request side attaches the stored token. A
  401 response clears the token and redirects to `/signin`, unless the user
  is already there.
- **The card helpers.** `getIcon` picks a type icon and `getTimeAgo` builds
  the elapsed-time label.
- **The creation form.** It has a token gate and a required-field gate,
  splits the tags string on commas, and resets its fields after a successful
  post.
- **The toasts.** Each severity has a colour; there is one toast per message;
  closing a toast removes its own message.
- **The validators.** E-mail, password length, URL prefix and non-empty.

Modules follow the program's files:

| Dafny file | Program file |
|---|---|
| `dashboard.dfy` | `src/pages/Dashborad.tsx` |
| `notifications.dfy` | `src/hooks/useErrorHandler.tsx` |
| `content_hook.dfy` | `src/hooks/useContent.tsx` |
| `http.dfy` | `src/utils/axios.ts` |
| `validation.dfy` | `src/utils/validation.ts` |
| `content_card.dfy` | `src/components/ContentCard.tsx` |
| `create_content.dfy` | `src/components/CreateContent.tsx` |
| `toasts.dfy` | `src/components/Toast.tsx` |

Four files are shared:

- `seqs.dfy`: `filter` and `map` on sequences, and subsequences.
- `text.dfy`: JavaScript's `toLowerCase`, `includes`, `trim`, `split` and
  number-to-string, on `seq<char>`.
- `browser.dfy`: `localStorage`'s token and `window.location`.
- `wrappers.dfy`: `Option`.

Conventions:

- Components whose fields change are classes, with `modifies` and `old`.
- Pure helpers are functions, with lemmas beside them.
- A value the program reads from the outside world is a parameter: the
  clock as `now` in milliseconds, the outcome of a request, and whether
  `new URL` accepts a string.

Behaviour of the code worth knowing, which the model keeps:

- The creation form never calls `isValidUrl`.
- The creation form posts with the plain `axios` object, so a 401 there does
  not clear the token.
- `fetchContent` never clears `error` after a later success.
- An early return from `handleSubmit` still runs its `finally`, so `loading`
  ends false.
- `handleApiError` reports an empty message when the response body is the
  empty string.
- The card component's props take no `id` and no `onDelete`, so the
  dashboard's `handleContentDeleted` is never called from a card.
- No button passes "recent" to `handleFilterChange`, so the seven-day window
  is modelled as written but cannot be reached from the interface.

## Model

| member | source | states |
|---|---|---|
| Dashboard.EntryTitle | src/pages/Dashborad.tsx:38-52 | a nested `tag.title` wins; otherwise the entry's own `title`; a string, or an object with neither, yields ""; a non-empty result always comes from the entry |
| Dashboard.SearchTags | src/pages/Dashborad.tsx:32-56 | the first element decides the branch; an absent or empty array gives no tags; a string-first array is kept as-is, element for element; an object-first array gives the entries' titles in order, with every copy of each non-empty title and no empty one |
| Dashboard.CardTags | src/pages/Dashborad.tsx:226-258 | a string-first array gives one tag per string, in order; an object-first array gives the entries' titles in order, with every copy of each non-empty title and no empty one |
| Dashboard.CardAndSearchAgree | src/pages/Dashborad.tsx:226-258 | on every tag array a card can render, the search scan never throws and the card shows exactly the tags the search sees, in the same order |
| Dashboard.TagNormalisationExamples | src/pages/Dashborad.tsx:33-55 | `tag.title` beats the entry's own `title`, which beats `""`; empty titles are dropped; a string array is kept with its empty strings; an object-first array drops later strings |
| Dashboard.MatchesSearch | src/pages/Dashborad.tsx:58-62 | true iff the query equals, up to ASCII case, some piece of the title or of some search tag; the empty query matches every item |
| Dashboard.MatchesType | src/pages/Dashborad.tsx:64-66 | true iff the type filter is "all" or the type equals it letter by letter up to ASCII case |
| Dashboard.IsRecent | src/pages/Dashborad.tsx:67-71 | true iff the filter is not "recent", the item has no time, or the item is less than 604800000 ms old |
| Dashboard.Keep | src/pages/Dashborad.tsx:73-75 | an item is kept iff search, type and recency all pass; any filter other than "recent" narrows nothing beyond search and type; under "recent" a timed item must be newer than `now - 604800000` |
| Dashboard.FilteredContent | src/pages/Dashborad.tsx:31-76 | the filtered list is an order-preserving subsequence of the mirror; every kept item passes all three tests; every copy of each passing item is kept, and no other item; callers must pass items whose search does not throw |
| Dashboard.EmptyQueryMatchesAll | src/pages/Dashborad.tsx:58-62 | with the empty query no item's search throws and every item matches |
| Dashboard.NoFiltersShowsEverything | src/pages/Dashborad.tsx:58-75 | with an empty query, type `"all"` and filter `"all"`, the filtered list is the mirror itself, order included |
| Dashboard.UpperCaseQueryExample | src/pages/Dashborad.tsx:58-62 | "YOU" finds a title "youtube guide" |
| Dashboard.FormTypesMatchFilters | src/pages/Dashborad.tsx:64-66 | the form's "Youtube" passes the sidebar's "youtube" type filter and not "twitter" |
| Dashboard.EightDaysHiddenSixDaysShown | src/pages/Dashborad.tsx:67-71 | under "recent", eight days old is hidden and six days old is shown |
| Dashboard.WithoutContent | src/pages/Dashborad.tsx:95-99 | every remaining item was in the mirror and none has the deleted id |
| Dashboard.DeleteRemovesExactly | src/pages/Dashborad.tsx:95-99 | the delete patch keeps every item with another id, every copy of it and in order, and nothing else |
| Dashboard.DeleteAbsentIsNoop | src/pages/Dashborad.tsx:95-99 | deleting an id no item has leaves the list unchanged |
| Dashboard.CardCreatedAt | src/pages/Dashborad.tsx:268 | a card gets the item's own time; an item without `createdAt` gets `now`, the rendering time, so its card reads "0 hours ago" |
| Dashboard.DashboardState.constructor | src/pages/Dashborad.tsx:13-17 | the mirror is empty, the query empty, both filters "all" |
| Dashboard.DashboardState.SyncContent | src/pages/Dashborad.tsx:27-29 | the mirror becomes the hook's content; the rest of the state is unchanged |
| Dashboard.DashboardState.SetSearchQuery | src/pages/Dashborad.tsx:129-135 | the query becomes the input's value; the rest of the state is unchanged |
| Dashboard.DashboardState.HandleFilterChange | src/pages/Dashborad.tsx:78-88 | a type name sets the type filter and resets the time filter to "all"; "all" or "recent" sets the time filter and resets the type filter; any other string sets only the time filter; the mirror and query are unchanged; afterwards no type filter is combined with "recent", and the sidebar highlight (line 114) names the chosen filter unless an unknown string was chosen over a type filter |
| Dashboard.DashboardState.ShowAll | src/pages/Dashborad.tsx:147-150 | both filters return to "all"; nothing else changes |
| Dashboard.DashboardState.HandleContentDeleted | src/pages/Dashborad.tsx:95-99 | the mirror becomes the delete patch of the old mirror; the filters and query are unchanged |
| Dashboard.DashboardState.SidebarHighlight | src/pages/Dashborad.tsx:114 | a set type filter is highlighted; with type "all" the current filter is highlighted, e.g. "recent"; "all" is highlighted exactly when neither filter narrows |
| Notifications.WithoutId | src/hooks/useErrorHandler.tsx:52-54 | the list never grows; no remaining message has the removed id; every message with another id remains |
| Notifications.RemoveKeepsOthersInOrder | src/hooks/useErrorHandler.tsx:52-54 | removal keeps every message with another id, every copy and in order, and nothing else |
| Notifications.RemoveAbsentIsNoop | src/hooks/useErrorHandler.tsx:53 | removing an id no message has changes nothing |
| Notifications.RemoveIdempotent | src/hooks/useErrorHandler.tsx:53 | removing an id twice is removing it once |
| Notifications.RemoveCommutes | src/hooks/useErrorHandler.tsx:53 | two removals give the same list in either order |
| Notifications.AddThenRemove | src/hooks/useErrorHandler.tsx:43-53 | adding a message and then removing its id leaves the old list without that id; starting from an empty list it leaves the list empty |
| Notifications.AddThenRemoveOther | src/hooks/useErrorHandler.tsx:43-53 | removing another id after an add keeps the new message at the end |
| Notifications.NotificationCenter.constructor | src/hooks/useErrorHandler.tsx:32 | the list starts empty |
| Notifications.NotificationCenter.AddError | src/hooks/useErrorHandler.tsx:35-43 | exactly one message is appended, with the clock's id and timestamp, the given text, and severity "error" by default; earlier entries are unchanged |
| Notifications.NotificationCenter.RemoveError | src/hooks/useErrorHandler.tsx:52-54 | the list becomes the old list without the id |
| Notifications.NotificationCenter.ClearErrors | src/hooks/useErrorHandler.tsx:57-59 | the list is empty |
| Notifications.ApiErrorMessage | src/hooks/useErrorHandler.tsx:85-106 | the message is empty exactly when the server's body is the empty string |
| Notifications.ApiErrorPriority | src/hooks/useErrorHandler.tsx:87-106 | the priority chain: `data.message`, then a string body, then "Request failed with status N", then "No response received from server", then `error.message`, then "An unknown error occurred" |
| Notifications.StatusMessageNamesStatus | src/hooks/useErrorHandler.tsx:97-98 | two status fallbacks read alike only for the same status |
| Notifications.HandleApiError | src/hooks/useErrorHandler.tsx:85-115 | exactly one message is appended, with severity "error" and the chosen text, and that text is returned |
| Toasts.BgColor | src/components/Toast.tsx:27-40 | red exactly for error, yellow exactly for warning, green exactly for success, blue exactly for info |
| Toasts.BgColorsDistinct | src/components/Toast.tsx:28-36 | different severities get different colours |
| Toasts.ToastContainer | src/components/Toast.tsx:74-88 | one toast per message, in list order, with that message's id, text and colour |
| Toasts.ToastsAfterRemoval | src/components/Toast.tsx:83-85 | the toasts of the list after a removal are the old toasts without that id |
| Toasts.Toast.constructor | src/components/Toast.tsx:10 | a new toast is visible |
| Toasts.Toast.HandleClose | src/components/Toast.tsx:22-25 | the toast hides and its own id, and only that id, is removed from the centre |
| ContentHook.SelectContent | src/hooks/useContent.tsx:37-43 | an array `data` is chosen, and is preferred over `formatted`; otherwise an array `formatted` is chosen; the result is missing exactly when neither is an array |
| ContentHook.InvalidFormatMessage | src/hooks/useContent.tsx:42-46 | the thrown format error is reported as "Invalid response format" |
| ContentHook.ContentState.constructor | src/hooks/useContent.tsx:21-23 | no content, not loading, no error |
| ContentHook.ContentState.FetchContent | src/hooks/useContent.tsx:26-51 | without a token: no request, content and loading unchanged, the login error set, one warning added; with one: content replaced by the chosen array, or left unchanged with "Failed to fetch content" and one reported error; loading false afterwards; a 401 clears the token and redirects; the current path never changes |
| ContentHook.UnauthorizedFetchScenario | src/hooks/useContent.tsx:26-51 | a 401 on the fetch from "/" leaves no token, one navigation to `/signin`, the earlier list still shown, and one "Unauthorized" error reported |
| ContentHook.NoTokenScenario | src/hooks/useContent.tsx:27-31 | without a token nothing is requested whatever the server would answer, the list stays empty, and one login warning is recorded |
| Http.AttachToken | src/utils/axios.ts:15-28 | with a token and headers, `Authorization` becomes the raw token and the other headers are unchanged; otherwise the config is unchanged; the same config is returned |
| Http.InterceptResponse | src/utils/axios.ts:31-63 | the outcome passes through unchanged; the token is removed exactly on a 401; a redirect to `/signin` happens exactly on a 401 away from `/signin` |
| Browser.TokenStore.GetItem | src/utils/axios.ts:17 | reads the stored token without changing it |
| Browser.TokenStore.RemoveItem | src/utils/axios.ts:41 | the token is gone |
| Browser.Location.AssignHref | src/utils/axios.ts:45 | one navigation to the target is recorded; the path is unchanged |
| ContentCard.GetIcon | src/components/ContentCard.tsx:17-30 | the video, twitter and document icons go exactly to types that lower-case to "youtube", "twitter" and "document"; every other type gets the article icon |
| ContentCard.GetIconIgnoresCase | src/components/ContentCard.tsx:18 | lower-casing the type first changes no icon |
| ContentCard.FormTypesGetTheirIcons | src/components/ContentCard.tsx:18-26 | the form's "Youtube", "Twitter", "Article" and "Document" get their own icons |
| ContentCard.ElapsedHours | src/components/ContentCard.tsx:35 | the hour count is the floor of the elapsed milliseconds over 3600000 |
| ContentCard.Classify | src/components/ContentCard.tsx:37-44 | under 24 hours gives the hour count; 24 to 47 gives "Yesterday"; otherwise the floor of hours over 24, at least 2 |
| ContentCard.TimeAgoDependsOnSpanOnly | src/components/ContentCard.tsx:33-35 | shifting both times by the same amount keeps the label |
| ContentCard.Label | src/components/ContentCard.tsx:37-44 | the text is "Yesterday" exactly for the second-day bucket |
| ContentCard.GetTimeAgo | src/components/ContentCard.tsx:32-45 | under a day: the floor of the elapsed ms over 3600000, then " hours ago"; "Yesterday" exactly for one to two days; from two days: that hour count over 24, floored, then " days ago" |
| ContentCard.LabelsDistinct | src/components/ContentCard.tsx:37-44 | different classifications give different labels |
| ContentCard.JustNowLabel | src/components/ContentCard.tsx:37-38 | a time equal to now reads "0 hours ago" |
| CreateContent.ParseTags | src/components/CreateContent.tsx:36 | every tag is non-empty, already trimmed and free of commas; there are at most one more tags than commas |
| CreateContent.ParseTagsFollowsSegments | src/components/CreateContent.tsx:36 | the tags keep the order of the trimmed segments, and each non-empty trimmed segment is a tag as often as it occurs |
| CreateContent.SegmentsCoverField | src/components/CreateContent.tsx:36 | joining the segments with commas gives the field back, and there is one segment more than commas |
| CreateContent.EmptyFieldGivesNoTags | src/components/CreateContent.tsx:36 | an empty tags field gives no tags |
| CreateContent.CreateContentForm.constructor | src/components/CreateContent.tsx:10-17 | four empty fields, not loading, the token read once |
| CreateContent.CreateContentForm.HandleChange | src/components/CreateContent.tsx:24-26 | only the named field takes the new value |
| CreateContent.CreateContentForm.HandleSubmit | src/components/CreateContent.tsx:20-60 | without a token nothing is offered or changed; a missing title, link or type stops before any post with the fields kept; otherwise one post of the fields and parsed tags with the raw token; the fields are reset exactly when it succeeds; loading ends false |
| Validation.IsValidEmail | src/utils/validation.ts:8-11 | true iff some substring is a non-white-space run, "@", a non-white-space run, ".", a non-white-space run |
| Validation.EmailWindowMatchesRegex | src/utils/validation.ts:9-10 | an `@` and a later `.` with one non-white-space character before, between and after exist exactly when the expression matches somewhere |
| Validation.EmailExamples | src/utils/validation.ts:9-10 | "ann@example.com" passes; "ann@example" and "@example.com" fail |
| Validation.IsValidPassword | src/utils/validation.ts:19-21 | true iff the length in UTF-16 code units is at least the minimum, 8 by default; a string of at least the minimum characters always passes |
| Validation.PasswordLengthExamples | src/utils/validation.ts:19-21 | four emoji, eight code units, pass the default; eight letters pass and seven fail |
| Validation.PasswordMonotone | src/utils/validation.ts:20 | a password valid for one minimum is valid for every smaller one |
| Validation.IsValidUrl | src/utils/validation.ts:28-43 | true iff the string starts with "http://" or "https://" and the URL parse succeeds |
| Validation.UrlExamples | src/utils/validation.ts:31-37 | "ftp://x.com" is rejected whatever the parser says; "https://x.com" is accepted when it parses |
| Validation.IsNotEmpty | src/utils/validation.ts:49-51 | true iff some character is not white space |

## Left out

- Timers: the 5000 ms auto-removal of a message, the 4700 ms auto-hide of a toast and the 300 ms delay before `onClose`. They are timing only. `Toasts.Toast.HandleClose` hides the toast and removes its message in one step.
- Clock and date parsing: `Date.now()` and `new Date(iso)` are foreign. Times are integer milliseconds, `now` is a parameter, and `createdAt` is already a number.
- Notifications.NotificationCenter.AddError: the source reads the clock twice, once for the id and once for the timestamp. The model reads it once, so the two agree. Ids are not assumed unique, and a removal drops every message with that id.
- URL parsing: `new URL` is a parameter of `Validation.IsValidUrl`.
- Network, concurrency and ordering: the transport, overlapping fetches and the order in which requests settle. A request's outcome is a parameter of `FetchContent`.
- The request interceptor's error handler only rejects with the same error, so it is not modelled.
- The response interceptor's 5xx and network-error logging only writes to the console.
- Browser side effects: `console`, `alert`, `navigator.share` and the clipboard, and all JSX markup and styling.
- Unicode: `toLowerCase` is modelled for ASCII letters only. `trim` uses JavaScript's white-space and line-terminator characters. Strings are sequences of code points. Only `isValidPassword` compares a length with a bound, and it counts UTF-16 code units as JavaScript does; `isNotEmpty`'s `length > 0` gives the same answer under either count.
- Dashboard.FilteredContent: where the source throws, the model has no result. The search side throws only on a string-first tag array whose `some` scan reaches an object before a matching string, and only when the title does not match; the filter requires that this does not happen (`SearchCompletes`). It does not throw on an object-first array that holds strings: those strings yield "".
- Dashboard.CardTags: the card side throws on a string inside an object-first array (`"tag" in` a string) and cannot render an object inside a string-first array as a title, so it requires an array of all strings or all objects (`Renderable`).
- Notifications.ApiErrorMessage: a `null` response body, which throws in the source, and a `message` that is not a string are not modelled. A body is a string or an object with an optional string `message`.
- The dashboard's mount-time redirect to `/signin` when no token is stored is routing, outside the modelled view logic.
- React's rendering: re-renders, duplicate list keys, and the form's "Please login" markup. `CreateContentForm.HandleSubmit` returns `NotOffered` where the source renders no form.
- CreateContent.CreateContentForm: the token is read once, when the form is made. The source reads `localStorage` again on every render, so a token removed while the form is open hides the form at the next render, and `handleSubmit` uses the latest render's token. The model does not follow the token between renders.
- The `default` colour branch of `getBgColor` cannot be reached with the four severities.
- The login and sign-up pages, the sidebar, the modal, routing and the icon components are presentation or I/O.
