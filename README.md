# Portfolio site core, modelled in Dafny

This project models the sequential logic of a personal portfolio site and proves properties of that model. The site is a React frontend with a FastAPI backend that keeps contact messages in MongoDB and reads blog posts from the Google Blogger API. Seven pieces are modelled, one Dafny module each:

- `WordCloud` (`word_cloud.dfy`): the skills word-cloud layout engine.
  - Font size is a linear map of weight.
  - Labels are sorted stably by weight, heaviest first.
  - Each label walks a spiral schedule of at most 100 candidate points. A candidate is accepted when it is strictly inside the 800 x 450 canvas and passes a 10-unit padded overlap test against the rectangles accepted so far.
  - A label that finds no candidate gets a random fallback spot, which never joins the collision set.
  - The imperative layout loop is a method proved against the specification function `Place`.
- `BlogService` (`blog_service.dfy`): the blog service.
  - Post processing: HTML tag stripping, read time, whitespace collapsing, the 150-character excerpt, featured-image search and field defaulting.
  - The service object holds the configuration it reads once from the environment.
  - Its `FetchBlogPosts` method classifies the Blogger response and runs the loop that collects the processed posts.
  - The fixed fallback result.
- `BlogModels` (`blog_models.dfy`): the record defaults and the field constraints of the contact form body. The email pattern is a character-class predicate, checked by a scan proved equivalent to it.
- `ContactRoutes` (`contact_routes.dfy`): the `contact_messages` collection and the three contact routes.
  - The collection is the class `ContactStore`. Its `InsertOne` and `UpdateOne` methods change its document sequence in place.
  - Submit normalises and stores a message.
  - The paged listing filters, sorts newest first, skips, limits and counts.
  - The status update applies a whitelist, then gives a 404 or updates one document.
- `BlogRoutes` (`blog_routes.dfy`):
  - the posts route, which falls back to the fixed post on any service error;
  - the lookup of one post by id among the first 50;
  - the health payload.
- `ApiService` (`api_service.dfy`): the client's three-way error classification and the request URLs it builds.
- `LandingAnimation` (`landing_animation.dfy`): the typing-animation effect.
  - The component state and the effect's index are fields of a class.
  - Each interval callback is a method.
  - A pure tick function gives the closed form of the state after t ticks.
  - The tick lemmas hold for any headline; the class keeps its headline in a constant field, which the constructor sets to the component's text.

Helper modules:

- `Wrappers` (`wrappers.dfy`): Option and Result.
- `Json` (`json.dfy`): decoded JSON values.
- `Text` (`text.dfy`): Python's whitespace, `split`, `strip`, ASCII `lower` and decimal rendering, with a split/join round trip.
- `Sorting` (`sorting.dfy`): a stable descending insertion sort, proved sorted, a permutation, and stable within every key value.

Every environmental input is a parameter of the model:

| input | modelled as |
|---|---|
| `Math.cos`, `Math.sin` | arbitrary `real -> real` functions |
| `Math.random` | `random(n)`, the n-th value in [0, 1) drawn during one layout |
| the HTTP transport | a function from the request to a response or an exception kind |
| `html.unescape` | a function parameter |
| date parsing and formatting | a function parameter |
| the environment | a map passed to the service constructor |
| the current time | a parameter |
| a fresh UUID | a parameter |

Notes on what the code does:

- `getFontSize` does not clamp weights. A weight below 2 gives a size below 20, and a weight above 9 a size above 72 (`WordCloud.GetFontSize`).
- The form constraints are checked before the route strips the fields, so a name made only of spaces passes validation and is stored as the empty name.
- The submit route's handler for value errors (`contact_routes.py:61-63`) answers 400 only when storing the document raises a `ValueError`, such as an encoding error for text holding a lone surrogate; the model has no such input (see "Left out"). A failed insert that the store reports is caught by the general handler and answered with 500 "An error occurred while processing your message", not "Failed to save message" (`ContactRoutes.SubmitContactMessage`).

## Model

| member | source | states |
|---|---|---|
| WordCloud.GetFontSize | frontend/src/components/WordCloud.jsx:30-36 | weight 2 gives 20 and weight 9 gives 72; weights below 2 give sizes below 20 and weights above 9 sizes above 72 (no clamping) |
| WordCloud.FontSizeStrictlyIncreasing | frontend/src/components/WordCloud.jsx:30-36 | the font size is strictly increasing in the weight |
| WordCloud.SortByWeight | frontend/src/components/WordCloud.jsx:46 | none; see WordCloud.SortByWeightFacts |
| WordCloud.SortByWeightFacts | frontend/src/components/WordCloud.jsx:46 | the sorted labels are a permutation of the input, in non-increasing weight, and the labels of each weight keep their input order (stable) |
| WordCloud.FirstFit | frontend/src/components/WordCloud.jsx:58-106 | none; see WordCloud.FirstFitSpec |
| WordCloud.FirstFitSpec | frontend/src/components/WordCloud.jsx:58-106 | the search outcome is the first attempt k in 0..99 whose candidate fits, at that attempt's candidate point, every earlier attempt having failed; Fallback exactly when all 100 attempts fail |
| WordCloud.ScheduleStep | frontend/src/components/WordCloud.jsx:99-105 | the loop's angle step and wrap (compared against the double value of 2 pi) produce attempt k's angle 0.5*(k mod 13) and radius 30 + 20*(k div 13) |
| WordCloud.SpiralSearch | frontend/src/components/WordCloud.jsx:53-106 | the while loop over angle, radius and attempts reports a position exactly when the spiral search finds one, and then the first fitting candidate |
| WordCloud.TryCandidate | frontend/src/components/WordCloud.jsx:72-88 | a candidate is accepted exactly when its rectangle has no padded overlap with any placed rectangle and its centre lies strictly inside the canvas margins |
| WordCloud.AdvanceSpiral | frontend/src/components/WordCloud.jsx:100-104 | after attempt k the angle and radius are those of attempt k + 1 in the closed-form schedule: 13 angle steps of 0.5, then a wrap to 0 and 20 more radius |
| WordCloud.PlaceWord | frontend/src/components/WordCloud.jsx:48-117 | one label emits one entry carrying its text, weight and font size, at the spiral point with one random draw for the rotation, or at the fallback point with three draws; only a spiral point's rectangle is added to usedRects |
| WordCloud.PlacedAsRanges | frontend/src/components/WordCloud.jsx:109-117 | every rotation lies in [-5, 5); a fallback position lies in [200, 600) x [75, 375) |
| WordCloud.EmittedFacts | frontend/src/components/WordCloud.jsx:88-117 | every emitted entry keeps its label, has the font size of its weight and a rotation in [-5, 5), and sits at its spiral point or inside the fallback box |
| WordCloud.GenerateWordCloudPositions | frontend/src/components/WordCloud.jsx:39-121 | the output has exactly one entry per word, in stable weight-descending order, each placed as the spiral search `Place` decides or at a random fallback spot |
| WordCloud.Place | frontend/src/components/WordCloud.jsx:48-118 | one outcome per sorted label |
| WordCloud.PlacePrefix | frontend/src/components/WordCloud.jsx:48-118 | the outcomes of the first n labels do not depend on the labels after them |
| WordCloud.PlaceAt | frontend/src/components/WordCloud.jsx:79-95 | label i is searched against exactly the rectangles accepted for labels 0..i-1 |
| WordCloud.UsedContains | frontend/src/components/WordCloud.jsx:95 | every spiral-placed label's rectangle is in the collision set |
| WordCloud.UsedOnlySpiral | frontend/src/components/WordCloud.jsx:109-117 | every rectangle in the collision set belongs to a spiral-placed label, so fallback labels never block later ones |
| WordCloud.CollidesSymmetric | frontend/src/components/WordCloud.jsx:79-84 | the padded overlap test is symmetric |
| WordCloud.NotCollidesSeparated | frontend/src/components/WordCloud.jsx:79-84 | two rectangles pass the padded test iff they are at least 10 apart on the x axis or on the y axis |
| WordCloud.PlaceSpiralFacts | frontend/src/components/WordCloud.jsx:86-87 | a spiral-placed label was found on an attempt below 100, at that attempt's candidate point, with w/2 < x < 800 - w/2 and h/2 < y < 450 - h/2, and every earlier attempt failed |
| WordCloud.PlaceSeparated | frontend/src/components/WordCloud.jsx:79-95 | any two spiral-placed labels are separated by at least 10 on the x axis or the y axis (neither collides with the other) |
| WordCloud.PlaceFirstLabel | frontend/src/components/WordCloud.jsx:55-87 | the first label only tries (400, 225) and is placed there on attempt 0 iff it is narrower than 800 and lower than 450 |
| Sorting.SortDesc | frontend/src/components/WordCloud.jsx:46 | none; see Sorting.SortDescFacts and Sorting.SortDescStable |
| Sorting.SortDescFacts | frontend/src/components/WordCloud.jsx:46 | the descending sort returns a non-increasing permutation of its input |
| Sorting.SortDescStable | frontend/src/components/WordCloud.jsx:46 | for every key value, the items with that key appear in input order |
| BlogService.StripTags | backend/services/blog_service.py:22 | none; see BlogService.StripTagsSplice, EmptyBracketsKept, StripTagsTagFree and StripTagsIdempotent |
| BlogService.StripTagsSplice | backend/services/blog_service.py:22 | a leftmost `<`, one or more non-`>` characters, `>` span is deleted and nothing is inserted in its place |
| BlogService.EmptyBracketsKept | backend/services/blog_service.py:22 | an empty `<>` is kept |
| BlogService.StripTagsNoClose | backend/services/blog_service.py:36 | text without `>` is unchanged, so an unterminated `<` is kept |
| BlogService.StripTagsNoOpen | backend/services/blog_service.py:36 | text without `<` is unchanged |
| BlogService.StripTagsTagFree | backend/services/blog_service.py:36 | the stripped text holds no further tag |
| BlogService.StripTagsIdempotent | backend/services/blog_service.py:36 | stripping twice is the same as stripping once |
| BlogService.CalculateReadTime | backend/services/blog_service.py:19-31 | none; see BlogService.ReadTimeFacts |
| BlogService.ReadMinutes | backend/services/blog_service.py:26 | the minutes are the ceiling of words / 200 |
| BlogService.ReadTimeFacts | backend/services/blog_service.py:19-31 | "1 min read" iff the stripped word count is at most 200 (0 included); otherwise the ceiling m >= 2 of words / 200 rendered as "m min read" |
| Text.CollapseShape | backend/services/blog_service.py:40 | the collapsed text has no leading or trailing whitespace and no two consecutive whitespace characters |
| Text.CollapseIdempotent | backend/services/blog_service.py:40 | collapsing is idempotent |
| Text.CollapseKeepsWords | backend/services/blog_service.py:40 | collapsing keeps the whitespace-separated words |
| BlogService.CleanHtmlContent | backend/services/blog_service.py:33-41 | none; see BlogService.CleanText |
| BlogService.CleanText | backend/services/blog_service.py:35-40 | the cleaned text is collapsed, trimmed and has the words of the unescaped, tag-stripped content |
| BlogService.Excerpt | backend/services/blog_service.py:43-46 | a text longer than 150 becomes its first 150 characters and "..."; a shorter one is unchanged; the excerpt is never longer than 153 |
| BlogService.FindImgSrc | backend/services/blog_service.py:82-85 | none; see BlogService.ImgFromSound and NoImgTagNoImage |
| BlogService.ImgFromSound | backend/services/blog_service.py:82-85 | a featured image found from position i is a non-empty, quote-free text standing between two quotes right after a `src=` at or after i |
| BlogService.NoImgTagNoImage | backend/services/blog_service.py:82-85 | content without an `<img` tag has no featured image |
| BlogService.PublishDate | backend/services/blog_service.py:60-65 | the formatted date when the published string parses after replacing Z, otherwise "Date unavailable" |
| BlogService.FirstOf | backend/services/blog_service.py:75 | indexing truthy labels gives a list's first item or a string's first character, and raises on anything else |
| BlogService.ProcessBlogPost | backend/services/blog_service.py:50-102 | none; see BlogService.ProcessBlogPostFails, ProcessBlogPostDefaults, ProcessBlogPostDerived and CategoryFromLabels |
| BlogService.ProcessBlogPostFails | backend/services/blog_service.py:50-102 | processing returns None exactly when the Python code raises: the item is not an object, its content is not a string, its labels cannot be indexed, or its author is not an object |
| BlogService.ProcessBlogPostDefaults | backend/services/blog_service.py:54-79 | id, title and url are copied with their defaults; a missing title is "Untitled", missing labels give "AI/ML"; the author is an object and the post's author is its displayName, or "G.J. Rahul" when it has none or the item has no author |
| BlogService.ProcessBlogPostDerived | backend/services/blog_service.py:66-85 | the excerpt, read time, publish date and featured image are computed from the content and the published field |
| BlogService.CategoryFromLabels | backend/services/blog_service.py:74-75 | the category is the first label of a non-empty label list and "AI/ML" for an empty one |
| BlogService.CollectAppend | backend/services/blog_service.py:128-135 | collecting the processed posts distributes over concatenation of the items |
| BlogService.CollectFromItems | backend/services/blog_service.py:128-135 | the k-th post is the post of the item at the k-th accepted position, those positions strictly increase, every accepted item has one, and there are never more posts than items |
| BlogService.CollectFromSomeItem | backend/services/blog_service.py:128-135 | every post is the post of some item |
| BlogService.BlogService.ProcessItems | backend/services/blog_service.py:128-135 | the loop keeps, in item order, the post of each item that processes and skips the rest (the posts Collect specifies) |
| BlogService.CollectAll | backend/services/blog_service.py:128-135 | when every item processes, the posts are the processed items, one each, in input order |
| BlogService.ItemsOf | backend/services/blog_service.py:131-132 | a body without `items` gives no items; a list under `items` gives exactly its elements |
| BlogService.StringItemFails | backend/services/blog_service.py:132-135 | an item that is a string never processes, so iterating a string or an object adds no posts |
| BlogService.BlogService.constructor | backend/services/blog_service.py:12-17 | the key and blog id are read from the environment once, with the fixed base URL and cache duration |
| BlogService.BlogService.RequestFor | backend/services/blog_service.py:116-124 | the request goes to base/blogId/posts with the key, maxResults and the fixed fields selector |
| BlogService.BlogService.Fetch | backend/services/blog_service.py:104-192 | none; see BlogService.BlogService.FetchUnconfigured, FetchByStatus and FetchSuccessCount |
| BlogService.BlogService.FetchBlogPosts | backend/services/blog_service.py:104-192 | the method, with its loop over the items, returns exactly the result the specification function `Fetch` gives for the transport's outcome |
| BlogService.BlogService.FetchUnconfigured | backend/services/blog_service.py:107-113 | without a key or blog id the result is "Blog configuration not available" whatever the transport would answer, so no request is made |
| BlogService.BlogService.FetchByStatus | backend/services/blog_service.py:126-168 | 200 gives success with the collected posts and totalPosts = their number; 403, 404 and every other status give their own error messages |
| BlogService.BlogService.FetchSuccessCount | backend/services/blog_service.py:137-144 | every success came from a 200 response and reports totalPosts equal to the number of posts |
| BlogService.GetFallbackPosts | backend/services/blog_service.py:194-219 | success with exactly one post, the fallback post, totalPosts 1 and isFallback true |
| BlogModels.NewBlogPost | backend/models/blog_models.py:6-16 | content defaults to "", author to "G.J. Rahul" and featuredImage to None; the other fields are as given |
| BlogModels.NewBlogPostsResponse | backend/models/blog_models.py:18-22 | isFallback defaults to False |
| BlogModels.NewContactMessage | backend/models/blog_models.py:24-30 | status defaults to "new" |
| BlogModels.CheckLength | backend/models/blog_models.py:33 | a field passes iff 1 <= length <= max, with at most one error |
| BlogModels.EmailPattern | backend/models/blog_models.py:34 | none; see BlogModels.EmailEquivalence |
| BlogModels.EmailEquivalence | backend/models/blog_models.py:34 | the scan accepts exactly the texts matching the anchored email pattern |
| BlogModels.IsValidEmail | backend/models/blog_models.py:34 | none; see BlogModels.EmailEquivalence |
| BlogModels.CheckEmail | backend/models/blog_models.py:34 | the email passes iff it matches the pattern |
| BlogModels.ValidateContact | backend/models/blog_models.py:32-35 | the body is accepted iff the name is 1..100 long, the email matches and the message is 1..1000 long; otherwise every failing field's error is reported |
| BlogModels.ValidEmailOneAt | backend/models/blog_models.py:34 | an accepted email holds exactly one `@` |
| BlogModels.NoAtRejected | backend/models/blog_models.py:34 | a text without `@` is rejected whatever the other fields are |
| BlogModels.InvalidEmailRejected | backend/models/blog_models.py:34 | "invalid-email" is rejected |
| BlogModels.RequiredFieldsRejected | backend/models/blog_models.py:33-35 | an empty name or message is too short, and a missing field is reported as missing |
| ContactRoutes.Normalised | backend/routes/contact_routes.py:35-41 | the stored name and message are stripped, the email is stripped and lower-cased, and the status is "new" |
| ContactRoutes.StoredEmailIsLowered | backend/routes/contact_routes.py:37 | a valid email holds no whitespace, so storing it only lower-cases it |
| ContactRoutes.ContactStore.constructor | backend/routes/contact_routes.py:13-17 | the collection starts empty, with no ObjectId used yet, and its invariant holds (distinct ids, all below the counter) |
| ContactRoutes.ContactStore.InsertOne | backend/routes/contact_routes.py:44-46 | appends the document under a fresh id and keeps all ids distinct; fails only once every id is taken |
| ContactRoutes.ContactStore.UpdateOne | backend/routes/contact_routes.py:133-136 | matched is 1 iff some document has the id; the documents become `Updated` of the old ones |
| ContactRoutes.Updated | backend/routes/contact_routes.py:133-136 | none; see ContactRoutes.UpdatedFacts |
| ContactRoutes.UpdatedFacts | backend/routes/contact_routes.py:133-139 | an update changes the status and updatedAt of the one document with the id and leaves every other document unchanged |
| ContactRoutes.SubmitContactMessage | backend/routes/contact_routes.py:19-67 | an invalid body gives its field errors and stores nothing; a valid one stores the normalised message under the next id, answers with that id and the time, and advances the id counter by one; a failed insert gives 500; without an insert the counter is unchanged |
| ContactRoutes.ParseOid | backend/routes/contact_routes.py:134 | an accepted id text is 24 characters long; see ContactRoutes.OidRoundTrip and ParseOidCaseInsensitive |
| ContactRoutes.OidRoundTrip | backend/routes/contact_routes.py:53 | reading back the text of a stored id gives the id |
| ContactRoutes.OidTextInjective | backend/routes/contact_routes.py:98 | distinct ids have distinct texts |
| ContactRoutes.ParseOidCaseInsensitive | backend/routes/contact_routes.py:134 | an accepted id text names the id whose text is its lower-case form |
| ContactRoutes.Matching | backend/routes/contact_routes.py:85-87 | the selected documents are exactly the stored documents matching the filter; an empty or absent status filters nothing |
| ContactRoutes.MatchingCounts | backend/routes/contact_routes.py:85-87 | each matching document is selected as many times as it is stored, and no other document is selected |
| ContactRoutes.Window | backend/routes/contact_routes.py:90-91 | the page holds min(limit, n - skip) documents from position skip on |
| ContactRoutes.Listings | backend/routes/contact_routes.py:97-98 | each listed document carries its id as text |
| ContactRoutes.RenderIds | backend/routes/contact_routes.py:97-98 | the loop rewriting each id as text gives the listed documents |
| ContactRoutes.GetContactMessages | backend/routes/contact_routes.py:69-112 | the route answers exactly `ListMessages` of the stored documents, with skip 0 and limit 50 by default |
| ContactRoutes.ListMessages | backend/routes/contact_routes.py:69-112 | none; see ContactRoutes.ListMessagesFacts |
| ContactRoutes.ListMessagesFacts | backend/routes/contact_routes.py:85-107 | the page holds exactly min(limit, totalCount - min(skip, totalCount)) matching messages, newest first, from position skip of the sorted matches; totalCount counts every match; skip and limit are echoed |
| ContactRoutes.UpdateMessageStatus | backend/routes/contact_routes.py:114-150 | a status outside new/read/responded gives 400 and changes nothing; an unreadable id gives 500; an unknown id gives 404; otherwise that one document is updated; the id counter never changes |
| ContactRoutes.StatusesAreKnown | backend/routes/contact_routes.py:127 | the whitelist holds exactly new, read and responded |
| ContactRoutes.UpdateKeepsStatusesKnown | backend/routes/contact_routes.py:127-136 | an allowed update keeps every stored status within the whitelist |
| ContactRoutes.InsertKeepsStatusesKnown | backend/routes/contact_routes.py:40-44 | storing a new message keeps every stored status within the whitelist |
| BlogRoutes.ChoosePosts | backend/routes/blog_routes.py:28-37 | an error result is replaced by the fallback result; a success is returned unchanged |
| BlogRoutes.GetBlogPosts | backend/routes/blog_routes.py:15-37 | the route passes max_results (default 10) to the service unchanged and answers its result or the fallback |
| BlogRoutes.PostsAlwaysSucceed | backend/routes/blog_routes.py:28-44 | the posts route always answers with success; it is the fallback exactly when the fetch failed, always when unconfigured |
| BlogRoutes.FirstIndexWithId | backend/routes/blog_routes.py:68 | the position of the first post with the requested id, or None exactly when no post has it |
| BlogRoutes.FirstWithId | backend/routes/blog_routes.py:68 | the first post with the requested id, or None when no post has it |
| BlogRoutes.GetBlogPostById | backend/routes/blog_routes.py:46-76 | the route fetches 50 posts and answers the lookup among exactly those |
| BlogRoutes.LookupIn | backend/routes/blog_routes.py:61-76 | none; see BlogRoutes.LookupFacts |
| BlogRoutes.LookupFacts | backend/routes/blog_routes.py:61-76 | a post is found iff the fetch succeeded with a post of that id, and then it is that post; every other case is 404 "Blog post not found"; the fallback post is never searched |
| BlogRoutes.HealthCheck | backend/routes/blog_routes.py:84-91 | status "healthy", service "blog" and the current time |
| ApiService.Prop | frontend/src/services/apiService.js:139 | optional property access gives the field of an object and undefined otherwise |
| ApiService.Or | frontend/src/services/apiService.js:139 | `a || b` gives a when it is defined and truthy, otherwise b |
| ApiService.HandleApiError | frontend/src/services/apiService.js:132-157 | none; see ApiService.HandleApiErrorFacts, ServerMessageChoice and DetailSurfaces |
| ApiService.HandleApiErrorFacts | frontend/src/services/apiService.js:132-157 | a response gives server_error with its status and body; a request without a response gives network_error; anything else gives unknown_error with the error's message or the default; the three kinds are exclusive; the message is never falsy |
| ApiService.ServerMessageChoice | frontend/src/services/apiService.js:139 | the server message is the truthy `message`, else the truthy `detail`, else "Server error occurred" |
| ApiService.DetailSurfaces | frontend/src/services/apiService.js:139 | a backend error body holding only a non-empty `detail` surfaces as that detail |
| ApiService.PostsUrl | frontend/src/services/apiService.js:42-44 | none; see ApiService.PostsUrlInjective |
| ApiService.PostsUrlInjective | frontend/src/services/apiService.js:42-44 | different page sizes (default 10) give different posts URLs |
| ApiService.MessagesUrl | frontend/src/services/apiService.js:89-94 | none; see ApiService.MessagesQueryInjective |
| ApiService.PostByIdUrl | frontend/src/services/apiService.js:53-55 | none; see ApiService.PostByIdUrlInjective |
| ApiService.PostByIdUrlInjective | frontend/src/services/apiService.js:55 | different post ids give different lookup URLs, so the id can be read back |
| ApiService.MessagesQueryInjective | frontend/src/services/apiService.js:89-94 | skip, limit and a truthy status can be read back from the messages URL, and a status is appended iff it is truthy |
| ApiService.StatusUrl | frontend/src/services/apiService.js:104-107 | none; see ApiService.StatusUrlInjective |
| ApiService.StatusUrlInjective | frontend/src/services/apiService.js:106 | different message ids give different status URLs |
| ApiService.TailInjective | frontend/src/services/apiService.js:91-94 | the limit and the status part of the query can be told apart at the first `&` |
| Text.IntToStringInjective | frontend/src/services/apiService.js:91 | different integers render to different decimal texts |
| LandingAnimation.TypingTick | frontend/src/components/LandingAnimation.jsx:16-24 | the index never passes len + 1; see LandingAnimation.AfterTicksActive and TypingClosedForm |
| LandingAnimation.AfterTicks | frontend/src/components/LandingAnimation.jsx:16-24 | before tick len + 2 the interval is active and the index equals the number of ticks |
| LandingAnimation.AfterTicksActive | frontend/src/components/LandingAnimation.jsx:16-19 | after tick t (1 <= t <= len + 1) the state shows the first t - 1 characters, is incomplete and keeps index t |
| LandingAnimation.TypingClosedForm | frontend/src/components/LandingAnimation.jsx:16-23 | the shown text is always a prefix of the headline; tick len + 2 completes the animation with the whole text shown, and it is incomplete before |
| LandingAnimation.TypingGrowth | frontend/src/components/LandingAnimation.jsx:17-19 | the shown text never shrinks and grows by exactly one character per tick until it is whole |
| LandingAnimation.LandingAnimation.constructor | frontend/src/components/LandingAnimation.jsx:5-15 | the component mounts with the headline "From Insight to Actionable AI", empty text shown, the cursor shown, incomplete, and both intervals running |
| LandingAnimation.LandingAnimation.OnTypingInterval | frontend/src/components/LandingAnimation.jsx:16-24 | one typing tick moves the state to the state after one more tick and leaves the cursor alone |
| LandingAnimation.LandingAnimation.OnCursorInterval | frontend/src/components/LandingAnimation.jsx:27-29 | each cursor tick negates the cursor flag; the flag is shown after an even number of ticks, so two ticks restore it |
| LandingAnimation.LandingAnimation.Unmount | frontend/src/components/LandingAnimation.jsx:31-34 | the cleanup clears both intervals and changes nothing shown, nor the effect's index or the tick counts |
| LandingAnimation.LandingAnimation.ScrollButtonShown | frontend/src/components/LandingAnimation.jsx:67 | none; see LandingAnimation.LandingAnimation.ScrollButtonAfterTyping |
| LandingAnimation.LandingAnimation.ScrollButtonAfterTyping | frontend/src/components/LandingAnimation.jsx:67 | the scroll button is shown iff the animation is complete, which happens exactly on tick len + 2 with the whole text shown |

## Left out

- Presentational components, static data and browser plumbing are not part of this model: mouse and tooltip handling, `scrollIntoView`, and the scheduling by `setInterval` and `setTimeout`. The interval callbacks are methods, and whoever calls them plays the timer.
- The axios instance, its interceptors (which only log) and the promise plumbing of the API client are not modelled. So are the client's submit, health and connectivity calls, which build fixed paths.
- The `updateMessageStatus` client call sends the new status in the request body, while the server route reads it as a query parameter. Transport is not modelled, so the model does not capture that mismatch. `ApiService.StatusUrl` gives only the path.
- Logging, `requests.get` and the Motor client are replaced by parameters or by the `ContactStore` class. Realistic Mongo behaviour (concurrency, indexes, write failures) is left out.
- `datetime` parsing, formatting and `utcnow`, and `html.unescape`, are function parameters. Timestamps are integers, and their ISO rendering is not modelled.
- Floating point is not modelled. Geometry, weights and the 0.6 width factor use exact reals. The cosine and sine are arbitrary functions. The spiral angle is the exact multiple of 0.5 that doubles also represent exactly. The read-time ceiling is exact integer division.
- WordCloud.GenerateWordCloudPositions: a non-finite or NaN weight, and an engine with an unstable sort, are not modelled.
- Invalid JSON in a Blogger response is not modelled. A response body is already-decoded JSON, and a body the service cannot iterate is its "An unexpected error occurred" path. The transport's exception kinds map to the timeout, network and unexpected handlers of `backend/services/blog_service.py:170-192`.
- The outer handler of the posts route (`backend/routes/blog_routes.py:39-44`) and the 500 handler of the lookup route (`backend/routes/blog_routes.py:80-82`) are not modelled. Neither can be reached once the service returns a result for every outcome.
- ObjectIds are a counter rendered as 24 lower-case hexadecimal digits. Their timestamp, machine and process parts are left out, and so is the 12-byte-string form of the ObjectId constructor.
- ContactRoutes.ParseOid: accepts exactly 24 hexadecimal digits, and the status route answers 500 for any other id. The library's parser reads the 24-character form with `bytes.fromhex`, which also skips ASCII whitespace between digit pairs; such an id is rejected by the model (500) where the code goes on to the lookup.
- ContactRoutes.SubmitContactMessage: a name, email or message holding a lone surrogate is not modelled. Dafny characters are Unicode scalar values, so no input of the model reaches the encoding error that the code answers with 400 through its value-error handler.
- ContactRoutes.GetContactMessages: a negative skip or limit is modelled as the route's 500 "Failed to fetch messages". Mongo's meaning of limit 0 ("no limit") is not modelled: limit 0 yields an empty page. Sort ties keep insertion order, where Mongo guarantees no order.
- The framework's coercion of the body (non-string values, extra keys) and its 422 response format are not modelled. A field is either a string or missing.
- WordCloud.TextWidth: lengths count Unicode scalar values, while JavaScript's `length` counts UTF-16 code units. A label with characters outside the Basic Multilingual Plane is therefore narrower in the model than on the page, which changes its bounds and collision tests.
- LandingAnimation.TypingTick: the headline is sliced by Unicode scalar values, while `substring` and `length` count UTF-16 code units. For the component's ASCII headline the two agree.
- Python's string methods are modelled for ASCII: `lower()` folds only A-Z. Lengths and the excerpt cut count code points as Python does. Whitespace is the set of characters Python's `split()` and `strip()` treat as whitespace.
- BlogService.ProcessBlogPost: has no contract of its own. Its facts are the lemmas beside it, and it returns None exactly at the points where the Python code raises. Non-string ids, titles and urls are copied as they are.
- BlogService.FindImgSrc: the search follows the pattern's leftmost, greedy match. What is proved about it is soundness (a found image is a quoted `src` value in the content) and that content without `<img` has none. Equivalence with a regex engine is not proved.
- `$` in the email pattern also matching before a final newline is not modelled. The pattern is read as anchored at both ends.
