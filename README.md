# GitHubSearch in Dafny

A model of the non-UI core of the iOS client GitHubSearch, which searches
GitHub repositories page by page. It covers three files:

- `GitHubSearch/JSONDecoder.swift`. Typed getters over a deserialized JSON
  object (`getValue`, `getOptionalValue`, `getURL`, `getOptionalURL`,
  `getDate`, `getOptionalDate`) and the `JSONDecodeError` cases with their
  `debugDescription`.
- `GitHubSearch/GitHubAPI.swift`. The query `Parameters` built from a
  dictionary literal, the `SearchRepositories` endpoint, and the decoders of
  `SearchResult`, `Repository` and `User`. Also the success and failure
  closures of `request`, which turn what the transport delivered into the
  `(response, error)` pair handed to the caller.
- `GitHubSearch/SearchRepositoriesManager.swift`. The paginated search
  state: the accumulated repository list, the page counter and the
  `networking` and `completed` flags, the failable initializer, and `search`
  together with its completion closure.

Modules, one per file, in dependency order:

| file | module | contents |
|---|---|---|
| `wrappers.dfy` | `Wrappers` | `Option`, and `Result` with `:-` propagation, which stands for Swift's `throws`/`try` |
| `date_format.dfy` | `DateFormat` | the fixed timestamp pattern `yyyy-MM-dd'T'HH:mm:ss'Z'`: parsing, formatting, both round trips |
| `json_decoder.dfy` | `JSONDecoder` | JSON values, `as?` as a tag check, the decode errors and their messages, the getters |
| `github_records.dfy` | `GitHubRecords` | `User`, `Repository` and `SearchResult` decoders, and fail-fast order proofs |
| `github_api.dfy` | `GitHubAPI` | `Parameters` (an imperative loop), the endpoint, the request described by value, success and failure dispatch |
| `search_manager.dfy` | `SearchManager` | the class `SearchRepositoriesManager`, its state as a value, step functions, and lemmas over runs of events |

Swift's throwing initializers are functions that return `Result<T,
DecodeError>`; each `try` is a `:-`. `NSURL(string:)` is the parameter
`isURL`. The transport's answer is the value `TransportOutcome`. The manager
is a class whose methods update its fields. Its asynchronous closure is the
separate method `OnResponse`, which may run only while a request is in
flight. The closure captures the `refresh` argument; the model keeps it in
the field `refreshing` until the reply arrives. Every method of the class
states its new state as a step function of the old one (`AfterSearch`,
`AfterResponse`). The lemmas about those functions carry the invariants
over any sequence of events (`Run`).

## Model

| member | source | states |
|---|---|---|
| DateFormat.ParseDate | GitHubSearch/JSONDecoder.swift:83-88 | a string the formatter accepts has the pattern's shape, and yields in-range calendar fields |
| DateFormat.FormatDate | GitHubSearch/JSONDecoder.swift:86 | the text written for any valid date has the pattern's shape |
| DateFormat.ParseFormat | GitHubSearch/JSONDecoder.swift:86 | every valid date is read back from the text written for it |
| DateFormat.FormatParse | GitHubSearch/JSONDecoder.swift:86 | in this model, a string ParseDate accepts is exactly the text FormatDate writes for the date it denotes, so no two accepted strings denote the same date (a property of the fixed-width shape check, see Left out) |
| JSONDecoder.NullHasNoType | GitHubSearch/JSONDecoder.swift:48 | NSNull passes no `as?` to a requested type |
| JSONDecoder.DebugDescription | GitHubSearch/JSONDecoder.swift:23-34 | every message starts with the common `JSON Decode Error: ` prefix and has more after it |
| JSONDecoder.DescriptionNamesKey | GitHubSearch/JSONDecoder.swift:23-34 | every message contains the key of its error |
| JSONDecoder.DescriptionQuotesValue | GitHubSearch/JSONDecoder.swift:29-32 | the URL and date messages also contain the raw string that failed to parse |
| JSONDecoder.DescriptionMarks | GitHubSearch/JSONDecoder.swift:23-34 | the characters at two fixed positions after the prefix tell the four cases apart |
| JSONDecoder.DescriptionDeterminesCase | GitHubSearch/JSONDecoder.swift:23-34 | two errors with the same message are the same case of the enum |
| JSONDecoder.MissingKeyDescriptionInjective | GitHubSearch/JSONDecoder.swift:25-26 | two missing-key errors with the same message name the same key |
| JSONDecoder.GetValue | GitHubSearch/JSONDecoder.swift:44-52 | fails with MissingRequiredKey(key) iff the key is absent; succeeds iff present with the requested type, returning the stored value; otherwise UnexpectedTye with the key, the requested type and the value's class; a null counts as present and gives UnexpectedTye |
| JSONDecoder.GetOptionalValue | GitHubSearch/JSONDecoder.swift:54-65 | none, not an error, iff the key is absent or null; a present value comes back unchanged and of the requested type; any failure is UnexpectedTye for a present non-null value |
| JSONDecoder.OptionalAgreesWithRequired | GitHubSearch/JSONDecoder.swift:44-65 | on a present non-null value the optional getter succeeds with the required getter's value, or fails with its error |
| JSONDecoder.GetInt | GitHubSearch/JSONDecoder.swift:44-52 | `getValue` at `Int`: success and failure agree with GetValue at IntType |
| JSONDecoder.GetBool | GitHubSearch/JSONDecoder.swift:44-52 | `getValue` at `Bool`, agreeing with GetValue at BoolType |
| JSONDecoder.GetDouble | GitHubSearch/JSONDecoder.swift:44-52 | `getValue` at `Double`, agreeing with GetValue at DoubleType |
| JSONDecoder.GetString | GitHubSearch/JSONDecoder.swift:44-52 | `getValue` at `String`, agreeing with GetValue at StringType |
| JSONDecoder.GetObject | GitHubSearch/JSONDecoder.swift:44-52 | `getValue` at `JSONObject`, agreeing with GetValue at ObjectType |
| JSONDecoder.GetOptionalString | GitHubSearch/JSONDecoder.swift:54-65 | `getOptionalValue` at `String`, agreeing with GetOptionalValue at StringType |
| JSONDecoder.GetURL | GitHubSearch/JSONDecoder.swift:67-73 | passes on getValue's error unchanged; succeeds iff the value is a string that parses as a URL, keeping that string; a present string that `isURL` rejects fails with CannotParseURL(key, that string), and that is the only extra error |
| JSONDecoder.GetOptionalURL | GitHubSearch/JSONDecoder.swift:75-81 | none iff getOptionalValue gives none, so never a parse error for an absent or null key; passes on its error unchanged; a present string gives Some of its URL if `isURL` accepts it and CannotParseURL(key, that string) otherwise |
| JSONDecoder.GetDate | GitHubSearch/JSONDecoder.swift:90-96 | passes on getValue's error unchanged; succeeds iff the value is a string the formatter accepts, with the date it denotes; a present string the formatter rejects fails with CannotParseDate(key, that string), and that is the only extra error |
| JSONDecoder.GetOptionalDate | GitHubSearch/JSONDecoder.swift:98-104 | none iff getOptionalValue gives none; passes on its error unchanged; a present string gives Some of the date it denotes, or CannotParseDate(key, that string) when the formatter rejects it |
| JSONDecoder.DateFieldRoundTrip | GitHubSearch/JSONDecoder.swift:90-96 | a decoded date is valid, and formatting it gives back the stored string |
| JSONDecoder.FormattedDateDecodes | GitHubSearch/JSONDecoder.swift:90-96 | a field holding the formatted text of a valid date decodes to that date |
| GitHubRecords.FirstFailureAppend | GitHubSearch/GitHubAPI.swift:152-177 | in two groups of decodes run one after the other, the first error is the first group's, if it has one, and otherwise the second group's |
| GitHubRecords.DecodeUser | GitHubSearch/GitHubAPI.swift:189-199 | a missing `login` fails with MissingRequiredKey("login"); on success each of the seven fields is what its getter returns for its key |
| GitHubRecords.UserFailFast | GitHubSearch/GitHubAPI.swift:189-199 | User decoding fails iff one of its seven field decodes fails, and then with the error of the first one in declaration order |
| GitHubRecords.DecodeRepository | GitHubSearch/GitHubAPI.swift:152-177 | a missing `id` fails with MissingRequiredKey("id"); on success each of the 22 fields is what its getter returns, and the owner is the User decoded from the `owner` object |
| GitHubRecords.HeadWalk | GitHubSearch/GitHubAPI.swift:155-165 | the first failing decode among lines 155-165 in order, or none iff all eleven succeed |
| GitHubRecords.HeadPaths | GitHubSearch/GitHubAPI.swift:155-165 | the first failing field among lines 155-165 ends Repository decoding with its own error |
| GitHubRecords.HeadFailFast | GitHubSearch/GitHubAPI.swift:155-165 | an error in the first group is the Repository error; without one, all eleven getters succeed |
| GitHubRecords.MiddleWalk | GitHubSearch/GitHubAPI.swift:166-171 | the same for the six decodes of lines 166-171 |
| GitHubRecords.MiddlePaths | GitHubSearch/GitHubAPI.swift:166-171 | once the first group succeeds, the first failing field of lines 166-171 ends decoding with its error |
| GitHubRecords.MiddleFailFast | GitHubSearch/GitHubAPI.swift:166-171 | an error in the second group, after a clean first group, is the Repository error |
| GitHubRecords.TailWalk | GitHubSearch/GitHubAPI.swift:172-176 | the same for the five decodes of lines 172-176, up to reading the `owner` object |
| GitHubRecords.TailPaths | GitHubSearch/GitHubAPI.swift:172-176 | once both earlier groups succeed, the first failing field of lines 172-176 ends decoding with its error |
| GitHubRecords.TailFailFast | GitHubSearch/GitHubAPI.swift:172-176 | an error in the third group, after two clean groups, is the Repository error |
| GitHubRecords.OwnerFailFast | GitHubSearch/GitHubAPI.swift:176 | when every other field decodes, Repository decoding fails iff the nested User decoding fails, with the same error |
| GitHubRecords.RepositoryFailFast | GitHubSearch/GitHubAPI.swift:152-177 | Repository decoding fails iff one of its field decodes fails, and then with the error of the first one in declaration order, the nested owner last |
| GitHubRecords.RepositoryOwnerNotObject | GitHubSearch/GitHubAPI.swift:176 | a present `owner` that is not an object fails with UnexpectedTye("owner", JSONObject, its class) once every other field decodes |
| GitHubRecords.RepositoryOptionalFields | GitHubSearch/GitHubAPI.swift:160-173 | description, homepage, language, master_branch and pushed_at are none iff their key is absent or null, and a present string is kept as stored |
| GitHubRecords.DecodeItems | GitHubSearch/GitHubAPI.swift:124 | succeeds iff every element decodes, giving the decoded elements in the same order and number; a failure is the error of the first failing element |
| GitHubRecords.DecodeSearchResult | GitHubSearch/GitHubAPI.swift:121-125 | on success the count and flag come from their getters and the items are the `items` array decoded element by element in order; a failing `total_count`, `incomplete_results` or `items` read ends decoding with that getter's error, in that order (so a missing or mistyped `items` fails as getValue does); once all three succeed, decoding succeeds iff every element decodes, and otherwise fails with the first failing element's error |
| GitHubAPI.AssignedIsLastValue | GitHubSearch/GitHubAPI.swift:31-35 | after the assignments, a key maps to the value of its last entry; a nil last entry or no entry leaves the key out |
| GitHubAPI.NewParameters | GitHubSearch/GitHubAPI.swift:31-35 | the loop builds the dictionary of the assignments in order, so the last occurrence of a key wins and nil drops it |
| GitHubAPI.SearchRepositories.QueryParameters | GitHubSearch/GitHubAPI.swift:88-93 | the parameters are exactly `q` to the query and `page` to the page |
| GitHubAPI.RequestFor | GitHubSearch/GitHubAPI.swift:79-93 | a search issues a GET of `search/repositories` whose parameters have exactly the keys `q` and `page`, holding the query and the page |
| GitHubAPI.SuccessHandler | GitHubSearch/GitHubAPI.swift:56-67 | exactly one side is set; UnexpectedResponse iff the body is not an object; a response iff the object decodes, and it is the decoded value; a decode failure is passed on unchanged |
| GitHubAPI.FailureHandler | GitHubSearch/GitHubAPI.swift:69-77 | a network error only, keeping domain, code and response data; its failure reason is the decoded body when the data is there and decodes as text, and is unchanged otherwise |
| GitHubAPI.Dispatch | GitHubSearch/GitHubAPI.swift:55-77 | one call of the handler with exactly one side set; a received body is handled exactly by SuccessHandler and a transport error exactly by FailureHandler, so a response comes only from an object body that decodes to it and a forwarded error keeps domain and code |
| SearchManager.SearchKeepsInvariant | GitHubSearch/SearchRepositoriesManager.swift:30-36 | a search keeps `page >= 1` and no request after completion; an accepted one is in flight, a refused one changes nothing |
| SearchManager.ResponseKeepsInvariant | GitHubSearch/SearchRepositoriesManager.swift:37-48 | the closure keeps the invariant and always clears `networking` |
| SearchManager.ResponseAppends | GitHubSearch/SearchRepositoriesManager.swift:44-45 | a response to a plain search extends the list by the new items in order and advances the page by one |
| SearchManager.ResponseReplacesOnRefresh | GitHubSearch/SearchRepositoriesManager.swift:40-45 | a response to a refresh leaves exactly the new items and page 2 |
| SearchManager.ResponseCompletion | GitHubSearch/SearchRepositoriesManager.swift:39-48 | after a response, `completed` iff the total count is at most the number of loaded repositories; after a failure only `networking` changes |
| SearchManager.RunKeepsInvariant | GitHubSearch/SearchRepositoriesManager.swift:19-53 | any sequence of searches and replies keeps `page >= 1` and no request in flight after completion |
| SearchManager.CompletedIsFinal | GitHubSearch/SearchRepositoriesManager.swift:31-33 | once completed, every later search, refresh included, is refused, so the state never changes again and `completed` is never reset |
| SearchManager.RunWithoutRefreshExtends | GitHubSearch/SearchRepositoriesManager.swift:36-45 | without a refresh the loaded list only grows at the end and the page never decreases |
| SearchManager.SearchRepositoriesManager.constructor | GitHubSearch/SearchRepositoriesManager.swift:22-28 | a new manager has an empty list, page 1, both flags false |
| SearchManager.SearchRepositoriesManager.Create | GitHubSearch/SearchRepositoriesManager.swift:22-28 | no manager iff the query is empty; otherwise a fresh one in the initial state |
| SearchManager.SearchRepositoriesManager.Search | GitHubSearch/SearchRepositoriesManager.swift:30-36 | accepted iff neither a request is in flight nor the last page was reached; a refused call changes nothing; an accepted one marks the manager busy and requests page 1 on refresh and the current page otherwise |
| SearchManager.SearchRepositoriesManager.OnResponse | GitHubSearch/SearchRepositoriesManager.swift:37-51 | the new state is AfterResponse of the old one; `networking` is cleared and the completion receives the reply's error |

## Left out

- DateFormat.ParseDate: accepts only the zero-padded 20-character form of the pattern. `NSDateFormatter`'s lenient numeric parsing (unpadded fields such as `2015-9-21T1:02:03Z`) is not modelled; such strings fail here with CannotParseDate, and the injectivity stated by `DateFormat.FormatParse` holds for this model only.
- Integer width: JSON integers are unbounded (`JInt(i: int)`), while Swift's `Int` fields and the `as? Int` bridge are 64-bit and may lose or refuse out-of-range numbers. The model does not capture that.
- Foundation's `as?` bridging: an NSNumber casts loosely between `Int`, `Double` and `Bool`. `HasType` is a strict check on the JSON tag instead.
- Floating point: `score` is an uninterpreted `Decimal`, with no arithmetic.
- `NSURL(string:)` is the parameter `isURL`. A URL is modelled by the string it came from.
- `NSDateFormatter` is modelled as the fixed pattern plus field ranges. Not modelled: calendar arithmetic such as days per month, time zones, and conversion to an instant. The formatter sets no time zone, so the literal `Z` is read in the device's local time. This model does not capture that.
- Class names in `UnexpectedTye` messages are the Foundation class names the JSON serializer produces (`NSNumber`, `NSString`, ...). The exact runtime names (for example `__NSCFNumber`) are not modelled.
- The private `getValue` at GitHubSearch/GitHubAPI.swift:106-114 is the same guard sequence as `JSONDecoder.getValue`, so both are modelled once, as `JSONDecoder.GetValue`.
- Transport: `AFHTTPSessionManager`, the base URL, the `Accept` header and the HTTP exchange (GitHubSearch/GitHubAPI.swift:46-50, 81). A request is described by value (`RequestFor`), and what came back is given as a `TransportOutcome`.
- `NSError.userInfo` is reduced to its response-data and failure-reason entries; other entries are not modelled. UTF-8 decoding of the error body is the parameter `decodeUTF8`.
- The `ErrorType` a decode failure throws is `DecodeFailure`. Other errors a decoder could throw do not arise in this code.
- Concurrency and lifetime: the asynchronous callback, the `[unowned self]` capture and threading. A reply is modelled as arriving only while a request is in flight (`OnResponse` requires `networking`).
- SearchManager.SearchRepositoriesManager.OnResponse: does not model the overflow of Swift's 64-bit `page++`, because `page` is an unbounded integer here.
- `DecodeSearchResponse` has no contract of its own: it only fixes the item decoder of `DecodeSearchResult` to `DecodeRepository`.
- The UI (GitHubSearch/MasterViewController.swift, GitHubSearch/DetailViewController.swift) is not part of this model.
