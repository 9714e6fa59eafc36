/** The response records of the search API (GitHubSearch/GitHubAPI.swift,
    SearchResult, Repository, User). Each decoder is a fixed, ordered
    sequence of field decodes; the first failing field aborts the record
    with its error, so no partial record exists. */
module GitHubRecords {
  import opened Wrappers
  import opened JSONDecoder
  import DateFormat

  datatype User = User(
    login: string,
    id: int,
    avatarURL: URL,
    gravatarID: string,
    url: URL,
    receivedEventsURL: URL,
    userType: string)

  datatype Repository = Repository(
    id: int,
    name: string,
    fullName: string,
    isPrivate: bool,
    htmlURL: URL,
    description: Option<string>,
    fork: bool,
    url: URL,
    createdAt: DateFormat.Date,
    updatedAt: DateFormat.Date,
    pushedAt: Option<DateFormat.Date>,
    homepage: Option<string>,
    size: int,
    stargazersCount: int,
    watchersCount: int,
    language: Option<string>,
    forksCount: int,
    openIssuesCount: int,
    masterBranch: Option<string>,
    defaultBranch: string,
    score: Decimal,
    owner: User)

  datatype SearchResult<T> = SearchResult(totalCount: int, incompleteResults: bool, items: seq<T>)

  /** The outcome of each field decode of a record, in the order the
      initializer performs them: None for a decode that succeeds, the error
      for one that throws. */
  datatype Outcomes = Done | Then(outcome: Option<DecodeError>, rest: Outcomes)

  function ErrorOf<T>(r: Result<T, DecodeError>): Option<DecodeError> {
    match r
    case Success(_) => None
    case Failure(e) => Some(e)
  }

  /** The error of the first decode that throws, if any. */
  function FirstFailure(os: Outcomes): (e: Option<DecodeError>)
    ensures os == Done ==> e == None
  {
    match os
    case Done => None
    case Then(o, rest) => if o.Some? then o else FirstFailure(rest)
  }

  function Append(a: Outcomes, b: Outcomes): Outcomes {
    match a
    case Done => b
    case Then(o, rest) => Then(o, Append(rest, b))
  }

  /** A later group of decodes is reached only when every decode of the
      earlier group succeeded. */
  lemma {:induction false} FirstFailureAppend(a: Outcomes, b: Outcomes)
    ensures FirstFailure(Append(a, b)) == if FirstFailure(a).Some? then FirstFailure(a) else FirstFailure(b)
  {
    match a
    case Done =>
    case Then(o, rest) => FirstFailureAppend(rest, b);
  }

  /** `User.init(json:)`: seven required fields in declaration order. */
  function DecodeUser(json: JSONObject, isURL: string -> bool): (r: Result<User, DecodeError>)
    ensures "login" !in json ==> r == Failure(MissingRequiredKey("login"))
    ensures r.Success? ==>
              && GetString(json, "login") == Success(r.value.login)
              && GetInt(json, "id") == Success(r.value.id)
              && GetURL(json, "avatar_url", isURL) == Success(r.value.avatarURL)
              && GetString(json, "gravatar_id") == Success(r.value.gravatarID)
              && GetURL(json, "url", isURL) == Success(r.value.url)
              && GetURL(json, "received_events_url", isURL) == Success(r.value.receivedEventsURL)
              && GetString(json, "type") == Success(r.value.userType)
  {
    var login :- GetString(json, "login");
    var id :- GetInt(json, "id");
    var avatarURL :- GetURL(json, "avatar_url", isURL);
    var gravatarID :- GetString(json, "gravatar_id");
    var url :- GetURL(json, "url", isURL);
    var receivedEventsURL :- GetURL(json, "received_events_url", isURL);
    var userType :- GetString(json, "type");
    Success(User(login, id, avatarURL, gravatarID, url, receivedEventsURL, userType))
  }

  /** The field decodes of User.init, in order. */
  function UserOutcomes(json: JSONObject, isURL: string -> bool): Outcomes {
    Then(ErrorOf(GetString(json, "login")),
    Then(ErrorOf(GetInt(json, "id")),
    Then(ErrorOf(GetURL(json, "avatar_url", isURL)),
    Then(ErrorOf(GetString(json, "gravatar_id")),
    Then(ErrorOf(GetURL(json, "url", isURL)),
    Then(ErrorOf(GetURL(json, "received_events_url", isURL)),
    Then(ErrorOf(GetString(json, "type")),
    Done)))))))
  }

  /** User decoding fails exactly when one of its field decodes throws, and
      then with the error of the first one in declaration order. */
  lemma UserFailFast(json: JSONObject, isURL: string -> bool)
    ensures DecodeUser(json, isURL).Failure? <==> FirstFailure(UserOutcomes(json, isURL)).Some?
    ensures DecodeUser(json, isURL).Failure? ==> DecodeUser(json, isURL).error == FirstFailure(UserOutcomes(json, isURL)).value
  {
    var os := UserOutcomes(json, isURL);
    if GetString(json, "login").Failure? {
      assert FirstFailure(os) == Some(GetString(json, "login").error);
      return;
    }
    assert FirstFailure(UserOutcomes(json, isURL)) == FirstFailure(os.rest);
    os := os.rest;
    if GetInt(json, "id").Failure? {
      assert FirstFailure(os) == Some(GetInt(json, "id").error);
      return;
    }
    assert FirstFailure(UserOutcomes(json, isURL)) == FirstFailure(os.rest);
    os := os.rest;
    if GetURL(json, "avatar_url", isURL).Failure? {
      assert FirstFailure(os) == Some(GetURL(json, "avatar_url", isURL).error);
      return;
    }
    assert FirstFailure(UserOutcomes(json, isURL)) == FirstFailure(os.rest);
    os := os.rest;
    if GetString(json, "gravatar_id").Failure? {
      assert FirstFailure(os) == Some(GetString(json, "gravatar_id").error);
      return;
    }
    assert FirstFailure(UserOutcomes(json, isURL)) == FirstFailure(os.rest);
    os := os.rest;
    if GetURL(json, "url", isURL).Failure? {
      assert FirstFailure(os) == Some(GetURL(json, "url", isURL).error);
      return;
    }
    assert FirstFailure(UserOutcomes(json, isURL)) == FirstFailure(os.rest);
    os := os.rest;
    if GetURL(json, "received_events_url", isURL).Failure? {
      assert FirstFailure(os) == Some(GetURL(json, "received_events_url", isURL).error);
      return;
    }
    assert FirstFailure(UserOutcomes(json, isURL)) == FirstFailure(os.rest);
    os := os.rest;
    if GetString(json, "type").Failure? {
      assert FirstFailure(os) == Some(GetString(json, "type").error);
      return;
    }
    assert FirstFailure(UserOutcomes(json, isURL)) == FirstFailure(os.rest);
    os := os.rest;
  }

  /** `Repository.init(json:)`: twenty-two field decodes in declaration
      order; the owner is a nested object decoded as a User. */
  function DecodeRepository(json: JSONObject, isURL: string -> bool): (r: Result<Repository, DecodeError>)
    ensures "id" !in json ==> r == Failure(MissingRequiredKey("id"))
    ensures r.Success? ==>
              && GetInt(json, "id") == Success(r.value.id)
              && GetString(json, "name") == Success(r.value.name)
              && GetString(json, "full_name") == Success(r.value.fullName)
              && GetBool(json, "private") == Success(r.value.isPrivate)
              && GetURL(json, "html_url", isURL) == Success(r.value.htmlURL)
              && GetOptionalString(json, "description") == Success(r.value.description)
              && GetBool(json, "fork") == Success(r.value.fork)
              && GetURL(json, "url", isURL) == Success(r.value.url)
              && GetDate(json, "created_at") == Success(r.value.createdAt)
              && GetDate(json, "updated_at") == Success(r.value.updatedAt)
              && GetOptionalDate(json, "pushed_at") == Success(r.value.pushedAt)
              && GetOptionalString(json, "homepage") == Success(r.value.homepage)
              && GetInt(json, "size") == Success(r.value.size)
              && GetInt(json, "stargazers_count") == Success(r.value.stargazersCount)
              && GetInt(json, "watchers_count") == Success(r.value.watchersCount)
              && GetOptionalString(json, "language") == Success(r.value.language)
              && GetInt(json, "forks_count") == Success(r.value.forksCount)
              && GetInt(json, "open_issues_count") == Success(r.value.openIssuesCount)
              && GetOptionalString(json, "master_branch") == Success(r.value.masterBranch)
              && GetString(json, "default_branch") == Success(r.value.defaultBranch)
              && GetDouble(json, "score") == Success(r.value.score)
              && GetObject(json, "owner").Success?
              && DecodeUser(GetObject(json, "owner").value, isURL) == Success(r.value.owner)
  {
    var id :- GetInt(json, "id");
    var name :- GetString(json, "name");
    var fullName :- GetString(json, "full_name");
    var isPrivate :- GetBool(json, "private");
    var htmlURL :- GetURL(json, "html_url", isURL);
    var description :- GetOptionalString(json, "description");
    var fork :- GetBool(json, "fork");
    var url :- GetURL(json, "url", isURL);
    var createdAt :- GetDate(json, "created_at");
    var updatedAt :- GetDate(json, "updated_at");
    var pushedAt :- GetOptionalDate(json, "pushed_at");
    var homepage :- GetOptionalString(json, "homepage");
    var size :- GetInt(json, "size");
    var stargazersCount :- GetInt(json, "stargazers_count");
    var watchersCount :- GetInt(json, "watchers_count");
    var language :- GetOptionalString(json, "language");
    var forksCount :- GetInt(json, "forks_count");
    var openIssuesCount :- GetInt(json, "open_issues_count");
    var masterBranch :- GetOptionalString(json, "master_branch");
    var defaultBranch :- GetString(json, "default_branch");
    var score :- GetDouble(json, "score");
    var ownerJSON :- GetObject(json, "owner");
    var owner :- DecodeUser(ownerJSON, isURL);
    Success(Repository(
      id, name, fullName, isPrivate, htmlURL, description, fork, url, createdAt, updatedAt,
      pushedAt, homepage, size, stargazersCount, watchersCount, language, forksCount,
      openIssuesCount, masterBranch, defaultBranch, score, owner))
  }

  /** The outcome of the nested User decode, once the owner object itself
      has been read (its own failure is the preceding entry). */
  function OwnerOutcome(json: JSONObject, isURL: string -> bool): Option<DecodeError> {
    match GetObject(json, "owner")
    case Failure(_) => None
    case Success(owner) => ErrorOf(DecodeUser(owner, isURL))
  }

  /** Repository.init, lines 155-165: identity, links and dates. */
  function HeadOutcomes(json: JSONObject, isURL: string -> bool): Outcomes {
    Then(ErrorOf(GetInt(json, "id")),
    Then(ErrorOf(GetString(json, "name")),
    Then(ErrorOf(GetString(json, "full_name")),
    Then(ErrorOf(GetBool(json, "private")),
    Then(ErrorOf(GetURL(json, "html_url", isURL)),
    Then(ErrorOf(GetOptionalString(json, "description")),
    Then(ErrorOf(GetBool(json, "fork")),
    Then(ErrorOf(GetURL(json, "url", isURL)),
    Then(ErrorOf(GetDate(json, "created_at")),
    Then(ErrorOf(GetDate(json, "updated_at")),
    Then(ErrorOf(GetOptionalDate(json, "pushed_at")),
    Done)))))))))))
  }

  /** Repository.init, lines 166-171: homepage and counters. */
  function MiddleOutcomes(json: JSONObject, isURL: string -> bool): Outcomes {
    Then(ErrorOf(GetOptionalString(json, "homepage")),
    Then(ErrorOf(GetInt(json, "size")),
    Then(ErrorOf(GetInt(json, "stargazers_count")),
    Then(ErrorOf(GetInt(json, "watchers_count")),
    Then(ErrorOf(GetOptionalString(json, "language")),
    Then(ErrorOf(GetInt(json, "forks_count")),
    Done))))))
  }

  /** Repository.init, lines 172-176: issues, branches, score and the owner object. */
  function TailOutcomes(json: JSONObject, isURL: string -> bool): Outcomes {
    Then(ErrorOf(GetInt(json, "open_issues_count")),
    Then(ErrorOf(GetOptionalString(json, "master_branch")),
    Then(ErrorOf(GetString(json, "default_branch")),
    Then(ErrorOf(GetDouble(json, "score")),
    Then(ErrorOf(GetObject(json, "owner")),
    Done)))))
  }

  /** The field decodes of Repository.init, in order; the last entry is the
      nested User decode. */
  function RepositoryOutcomes(json: JSONObject, isURL: string -> bool): Outcomes {
    Append(HeadOutcomes(json, isURL),
           Append(MiddleOutcomes(json, isURL),
                  Append(TailOutcomes(json, isURL), Then(OwnerOutcome(json, isURL), Done))))
  }

  predicate HeadDecodes(json: JSONObject, isURL: string -> bool) {
    && GetInt(json, "id").Success?
    && GetString(json, "name").Success?
    && GetString(json, "full_name").Success?
    && GetBool(json, "private").Success?
    && GetURL(json, "html_url", isURL).Success?
    && GetOptionalString(json, "description").Success?
    && GetBool(json, "fork").Success?
    && GetURL(json, "url", isURL).Success?
    && GetDate(json, "created_at").Success?
    && GetDate(json, "updated_at").Success?
    && GetOptionalDate(json, "pushed_at").Success?
  }

  predicate MiddleDecodes(json: JSONObject, isURL: string -> bool) {
    && GetOptionalString(json, "homepage").Success?
    && GetInt(json, "size").Success?
    && GetInt(json, "stargazers_count").Success?
    && GetInt(json, "watchers_count").Success?
    && GetOptionalString(json, "language").Success?
    && GetInt(json, "forks_count").Success?
  }

  predicate TailDecodes(json: JSONObject, isURL: string -> bool) {
    && GetInt(json, "open_issues_count").Success?
    && GetOptionalString(json, "master_branch").Success?
    && GetString(json, "default_branch").Success?
    && GetDouble(json, "score").Success?
    && GetObject(json, "owner").Success?
  }

  lemma HeadWalk(json: JSONObject, isURL: string -> bool)
    ensures FirstFailure(HeadOutcomes(json, isURL)).None? <==> HeadDecodes(json, isURL)
    ensures GetInt(json, "id").Failure? ==>
              FirstFailure(HeadOutcomes(json, isURL)) == Some(GetInt(json, "id").error)
    ensures GetInt(json, "id").Success? && GetString(json, "name").Failure? ==>
              FirstFailure(HeadOutcomes(json, isURL)) == Some(GetString(json, "name").error)
    ensures GetInt(json, "id").Success? && GetString(json, "name").Success? && GetString(json, "full_name").Failure? ==>
              FirstFailure(HeadOutcomes(json, isURL)) == Some(GetString(json, "full_name").error)
    ensures GetInt(json, "id").Success? && GetString(json, "name").Success? && GetString(json, "full_name").Success? && GetBool(json, "private").Failure? ==>
              FirstFailure(HeadOutcomes(json, isURL)) == Some(GetBool(json, "private").error)
    ensures GetInt(json, "id").Success? && GetString(json, "name").Success? && GetString(json, "full_name").Success? && GetBool(json, "private").Success? && GetURL(json, "html_url", isURL).Failure? ==>
              FirstFailure(HeadOutcomes(json, isURL)) == Some(GetURL(json, "html_url", isURL).error)
    ensures GetInt(json, "id").Success? && GetString(json, "name").Success? && GetString(json, "full_name").Success? && GetBool(json, "private").Success? && GetURL(json, "html_url", isURL).Success? && GetOptionalString(json, "description").Failure? ==>
              FirstFailure(HeadOutcomes(json, isURL)) == Some(GetOptionalString(json, "description").error)
    ensures GetInt(json, "id").Success? && GetString(json, "name").Success? && GetString(json, "full_name").Success? && GetBool(json, "private").Success? && GetURL(json, "html_url", isURL).Success? && GetOptionalString(json, "description").Success? && GetBool(json, "fork").Failure? ==>
              FirstFailure(HeadOutcomes(json, isURL)) == Some(GetBool(json, "fork").error)
    ensures GetInt(json, "id").Success? && GetString(json, "name").Success? && GetString(json, "full_name").Success? && GetBool(json, "private").Success? && GetURL(json, "html_url", isURL).Success? && GetOptionalString(json, "description").Success? && GetBool(json, "fork").Success? && GetURL(json, "url", isURL).Failure? ==>
              FirstFailure(HeadOutcomes(json, isURL)) == Some(GetURL(json, "url", isURL).error)
    ensures GetInt(json, "id").Success? && GetString(json, "name").Success? && GetString(json, "full_name").Success? && GetBool(json, "private").Success? && GetURL(json, "html_url", isURL).Success? && GetOptionalString(json, "description").Success? && GetBool(json, "fork").Success? && GetURL(json, "url", isURL).Success? && GetDate(json, "created_at").Failure? ==>
              FirstFailure(HeadOutcomes(json, isURL)) == Some(GetDate(json, "created_at").error)
    ensures GetInt(json, "id").Success? && GetString(json, "name").Success? && GetString(json, "full_name").Success? && GetBool(json, "private").Success? && GetURL(json, "html_url", isURL).Success? && GetOptionalString(json, "description").Success? && GetBool(json, "fork").Success? && GetURL(json, "url", isURL).Success? && GetDate(json, "created_at").Success? && GetDate(json, "updated_at").Failure? ==>
              FirstFailure(HeadOutcomes(json, isURL)) == Some(GetDate(json, "updated_at").error)
    ensures GetInt(json, "id").Success? && GetString(json, "name").Success? && GetString(json, "full_name").Success? && GetBool(json, "private").Success? && GetURL(json, "html_url", isURL).Success? && GetOptionalString(json, "description").Success? && GetBool(json, "fork").Success? && GetURL(json, "url", isURL).Success? && GetDate(json, "created_at").Success? && GetDate(json, "updated_at").Success? && GetOptionalDate(json, "pushed_at").Failure? ==>
              FirstFailure(HeadOutcomes(json, isURL)) == Some(GetOptionalDate(json, "pushed_at").error)
  {
    var os := HeadOutcomes(json, isURL);
    if GetInt(json, "id").Failure? {
      assert FirstFailure(os) == Some(GetInt(json, "id").error);
      return;
    }
    assert FirstFailure(HeadOutcomes(json, isURL)) == FirstFailure(os.rest);
    os := os.rest;
    if GetString(json, "name").Failure? {
      assert FirstFailure(os) == Some(GetString(json, "name").error);
      return;
    }
    assert FirstFailure(HeadOutcomes(json, isURL)) == FirstFailure(os.rest);
    os := os.rest;
    if GetString(json, "full_name").Failure? {
      assert FirstFailure(os) == Some(GetString(json, "full_name").error);
      return;
    }
    assert FirstFailure(HeadOutcomes(json, isURL)) == FirstFailure(os.rest);
    os := os.rest;
    if GetBool(json, "private").Failure? {
      assert FirstFailure(os) == Some(GetBool(json, "private").error);
      return;
    }
    assert FirstFailure(HeadOutcomes(json, isURL)) == FirstFailure(os.rest);
    os := os.rest;
    if GetURL(json, "html_url", isURL).Failure? {
      assert FirstFailure(os) == Some(GetURL(json, "html_url", isURL).error);
      return;
    }
    assert FirstFailure(HeadOutcomes(json, isURL)) == FirstFailure(os.rest);
    os := os.rest;
    if GetOptionalString(json, "description").Failure? {
      assert FirstFailure(os) == Some(GetOptionalString(json, "description").error);
      return;
    }
    assert FirstFailure(HeadOutcomes(json, isURL)) == FirstFailure(os.rest);
    os := os.rest;
    if GetBool(json, "fork").Failure? {
      assert FirstFailure(os) == Some(GetBool(json, "fork").error);
      return;
    }
    assert FirstFailure(HeadOutcomes(json, isURL)) == FirstFailure(os.rest);
    os := os.rest;
    if GetURL(json, "url", isURL).Failure? {
      assert FirstFailure(os) == Some(GetURL(json, "url", isURL).error);
      return;
    }
    assert FirstFailure(HeadOutcomes(json, isURL)) == FirstFailure(os.rest);
    os := os.rest;
    if GetDate(json, "created_at").Failure? {
      assert FirstFailure(os) == Some(GetDate(json, "created_at").error);
      return;
    }
    assert FirstFailure(HeadOutcomes(json, isURL)) == FirstFailure(os.rest);
    os := os.rest;
    if GetDate(json, "updated_at").Failure? {
      assert FirstFailure(os) == Some(GetDate(json, "updated_at").error);
      return;
    }
    assert FirstFailure(HeadOutcomes(json, isURL)) == FirstFailure(os.rest);
    os := os.rest;
    if GetOptionalDate(json, "pushed_at").Failure? {
      assert FirstFailure(os) == Some(GetOptionalDate(json, "pushed_at").error);
      return;
    }
    assert FirstFailure(HeadOutcomes(json, isURL)) == FirstFailure(os.rest);
    os := os.rest;
  }

  lemma HeadPaths(json: JSONObject, isURL: string -> bool)
    ensures GetInt(json, "id").Failure? ==>
              DecodeRepository(json, isURL) == Failure(GetInt(json, "id").error)
    ensures GetInt(json, "id").Success? && GetString(json, "name").Failure? ==>
              DecodeRepository(json, isURL) == Failure(GetString(json, "name").error)
    ensures GetInt(json, "id").Success? && GetString(json, "name").Success? && GetString(json, "full_name").Failure? ==>
              DecodeRepository(json, isURL) == Failure(GetString(json, "full_name").error)
    ensures GetInt(json, "id").Success? && GetString(json, "name").Success? && GetString(json, "full_name").Success? && GetBool(json, "private").Failure? ==>
              DecodeRepository(json, isURL) == Failure(GetBool(json, "private").error)
    ensures GetInt(json, "id").Success? && GetString(json, "name").Success? && GetString(json, "full_name").Success? && GetBool(json, "private").Success? && GetURL(json, "html_url", isURL).Failure? ==>
              DecodeRepository(json, isURL) == Failure(GetURL(json, "html_url", isURL).error)
    ensures GetInt(json, "id").Success? && GetString(json, "name").Success? && GetString(json, "full_name").Success? && GetBool(json, "private").Success? && GetURL(json, "html_url", isURL).Success? && GetOptionalString(json, "description").Failure? ==>
              DecodeRepository(json, isURL) == Failure(GetOptionalString(json, "description").error)
    ensures GetInt(json, "id").Success? && GetString(json, "name").Success? && GetString(json, "full_name").Success? && GetBool(json, "private").Success? && GetURL(json, "html_url", isURL).Success? && GetOptionalString(json, "description").Success? && GetBool(json, "fork").Failure? ==>
              DecodeRepository(json, isURL) == Failure(GetBool(json, "fork").error)
    ensures GetInt(json, "id").Success? && GetString(json, "name").Success? && GetString(json, "full_name").Success? && GetBool(json, "private").Success? && GetURL(json, "html_url", isURL).Success? && GetOptionalString(json, "description").Success? && GetBool(json, "fork").Success? && GetURL(json, "url", isURL).Failure? ==>
              DecodeRepository(json, isURL) == Failure(GetURL(json, "url", isURL).error)
    ensures GetInt(json, "id").Success? && GetString(json, "name").Success? && GetString(json, "full_name").Success? && GetBool(json, "private").Success? && GetURL(json, "html_url", isURL).Success? && GetOptionalString(json, "description").Success? && GetBool(json, "fork").Success? && GetURL(json, "url", isURL).Success? && GetDate(json, "created_at").Failure? ==>
              DecodeRepository(json, isURL) == Failure(GetDate(json, "created_at").error)
    ensures GetInt(json, "id").Success? && GetString(json, "name").Success? && GetString(json, "full_name").Success? && GetBool(json, "private").Success? && GetURL(json, "html_url", isURL).Success? && GetOptionalString(json, "description").Success? && GetBool(json, "fork").Success? && GetURL(json, "url", isURL).Success? && GetDate(json, "created_at").Success? && GetDate(json, "updated_at").Failure? ==>
              DecodeRepository(json, isURL) == Failure(GetDate(json, "updated_at").error)
    ensures GetInt(json, "id").Success? && GetString(json, "name").Success? && GetString(json, "full_name").Success? && GetBool(json, "private").Success? && GetURL(json, "html_url", isURL).Success? && GetOptionalString(json, "description").Success? && GetBool(json, "fork").Success? && GetURL(json, "url", isURL).Success? && GetDate(json, "created_at").Success? && GetDate(json, "updated_at").Success? && GetOptionalDate(json, "pushed_at").Failure? ==>
              DecodeRepository(json, isURL) == Failure(GetOptionalDate(json, "pushed_at").error)
  {
  }

  lemma HeadFailFast(json: JSONObject, isURL: string -> bool)
    ensures FirstFailure(HeadOutcomes(json, isURL)).Some? ==>
              DecodeRepository(json, isURL) == Failure(FirstFailure(HeadOutcomes(json, isURL)).value)
    ensures FirstFailure(HeadOutcomes(json, isURL)).None? ==> HeadDecodes(json, isURL)
  {
    HeadWalk(json, isURL);
    HeadPaths(json, isURL);
  }

  lemma MiddleWalk(json: JSONObject, isURL: string -> bool)
    ensures FirstFailure(MiddleOutcomes(json, isURL)).None? <==> MiddleDecodes(json, isURL)
    ensures GetOptionalString(json, "homepage").Failure? ==>
              FirstFailure(MiddleOutcomes(json, isURL)) == Some(GetOptionalString(json, "homepage").error)
    ensures GetOptionalString(json, "homepage").Success? && GetInt(json, "size").Failure? ==>
              FirstFailure(MiddleOutcomes(json, isURL)) == Some(GetInt(json, "size").error)
    ensures GetOptionalString(json, "homepage").Success? && GetInt(json, "size").Success? && GetInt(json, "stargazers_count").Failure? ==>
              FirstFailure(MiddleOutcomes(json, isURL)) == Some(GetInt(json, "stargazers_count").error)
    ensures GetOptionalString(json, "homepage").Success? && GetInt(json, "size").Success? && GetInt(json, "stargazers_count").Success? && GetInt(json, "watchers_count").Failure? ==>
              FirstFailure(MiddleOutcomes(json, isURL)) == Some(GetInt(json, "watchers_count").error)
    ensures GetOptionalString(json, "homepage").Success? && GetInt(json, "size").Success? && GetInt(json, "stargazers_count").Success? && GetInt(json, "watchers_count").Success? && GetOptionalString(json, "language").Failure? ==>
              FirstFailure(MiddleOutcomes(json, isURL)) == Some(GetOptionalString(json, "language").error)
    ensures GetOptionalString(json, "homepage").Success? && GetInt(json, "size").Success? && GetInt(json, "stargazers_count").Success? && GetInt(json, "watchers_count").Success? && GetOptionalString(json, "language").Success? && GetInt(json, "forks_count").Failure? ==>
              FirstFailure(MiddleOutcomes(json, isURL)) == Some(GetInt(json, "forks_count").error)
  {
    var os := MiddleOutcomes(json, isURL);
    if GetOptionalString(json, "homepage").Failure? {
      assert FirstFailure(os) == Some(GetOptionalString(json, "homepage").error);
      return;
    }
    assert FirstFailure(MiddleOutcomes(json, isURL)) == FirstFailure(os.rest);
    os := os.rest;
    if GetInt(json, "size").Failure? {
      assert FirstFailure(os) == Some(GetInt(json, "size").error);
      return;
    }
    assert FirstFailure(MiddleOutcomes(json, isURL)) == FirstFailure(os.rest);
    os := os.rest;
    if GetInt(json, "stargazers_count").Failure? {
      assert FirstFailure(os) == Some(GetInt(json, "stargazers_count").error);
      return;
    }
    assert FirstFailure(MiddleOutcomes(json, isURL)) == FirstFailure(os.rest);
    os := os.rest;
    if GetInt(json, "watchers_count").Failure? {
      assert FirstFailure(os) == Some(GetInt(json, "watchers_count").error);
      return;
    }
    assert FirstFailure(MiddleOutcomes(json, isURL)) == FirstFailure(os.rest);
    os := os.rest;
    if GetOptionalString(json, "language").Failure? {
      assert FirstFailure(os) == Some(GetOptionalString(json, "language").error);
      return;
    }
    assert FirstFailure(MiddleOutcomes(json, isURL)) == FirstFailure(os.rest);
    os := os.rest;
    if GetInt(json, "forks_count").Failure? {
      assert FirstFailure(os) == Some(GetInt(json, "forks_count").error);
      return;
    }
    assert FirstFailure(MiddleOutcomes(json, isURL)) == FirstFailure(os.rest);
    os := os.rest;
  }

  lemma MiddlePaths(json: JSONObject, isURL: string -> bool)
    requires HeadDecodes(json, isURL)
    ensures GetOptionalString(json, "homepage").Failure? ==>
              DecodeRepository(json, isURL) == Failure(GetOptionalString(json, "homepage").error)
    ensures GetOptionalString(json, "homepage").Success? && GetInt(json, "size").Failure? ==>
              DecodeRepository(json, isURL) == Failure(GetInt(json, "size").error)
    ensures GetOptionalString(json, "homepage").Success? && GetInt(json, "size").Success? && GetInt(json, "stargazers_count").Failure? ==>
              DecodeRepository(json, isURL) == Failure(GetInt(json, "stargazers_count").error)
    ensures GetOptionalString(json, "homepage").Success? && GetInt(json, "size").Success? && GetInt(json, "stargazers_count").Success? && GetInt(json, "watchers_count").Failure? ==>
              DecodeRepository(json, isURL) == Failure(GetInt(json, "watchers_count").error)
    ensures GetOptionalString(json, "homepage").Success? && GetInt(json, "size").Success? && GetInt(json, "stargazers_count").Success? && GetInt(json, "watchers_count").Success? && GetOptionalString(json, "language").Failure? ==>
              DecodeRepository(json, isURL) == Failure(GetOptionalString(json, "language").error)
    ensures GetOptionalString(json, "homepage").Success? && GetInt(json, "size").Success? && GetInt(json, "stargazers_count").Success? && GetInt(json, "watchers_count").Success? && GetOptionalString(json, "language").Success? && GetInt(json, "forks_count").Failure? ==>
              DecodeRepository(json, isURL) == Failure(GetInt(json, "forks_count").error)
  {
  }

  lemma MiddleFailFast(json: JSONObject, isURL: string -> bool)
    requires HeadDecodes(json, isURL)
    ensures FirstFailure(MiddleOutcomes(json, isURL)).Some? ==>
              DecodeRepository(json, isURL) == Failure(FirstFailure(MiddleOutcomes(json, isURL)).value)
    ensures FirstFailure(MiddleOutcomes(json, isURL)).None? ==> MiddleDecodes(json, isURL)
  {
    MiddleWalk(json, isURL);
    MiddlePaths(json, isURL);
  }

  lemma TailWalk(json: JSONObject, isURL: string -> bool)
    ensures FirstFailure(TailOutcomes(json, isURL)).None? <==> TailDecodes(json, isURL)
    ensures GetInt(json, "open_issues_count").Failure? ==>
              FirstFailure(TailOutcomes(json, isURL)) == Some(GetInt(json, "open_issues_count").error)
    ensures GetInt(json, "open_issues_count").Success? && GetOptionalString(json, "master_branch").Failure? ==>
              FirstFailure(TailOutcomes(json, isURL)) == Some(GetOptionalString(json, "master_branch").error)
    ensures GetInt(json, "open_issues_count").Success? && GetOptionalString(json, "master_branch").Success? && GetString(json, "default_branch").Failure? ==>
              FirstFailure(TailOutcomes(json, isURL)) == Some(GetString(json, "default_branch").error)
    ensures GetInt(json, "open_issues_count").Success? && GetOptionalString(json, "master_branch").Success? && GetString(json, "default_branch").Success? && GetDouble(json, "score").Failure? ==>
              FirstFailure(TailOutcomes(json, isURL)) == Some(GetDouble(json, "score").error)
    ensures GetInt(json, "open_issues_count").Success? && GetOptionalString(json, "master_branch").Success? && GetString(json, "default_branch").Success? && GetDouble(json, "score").Success? && GetObject(json, "owner").Failure? ==>
              FirstFailure(TailOutcomes(json, isURL)) == Some(GetObject(json, "owner").error)
  {
    var os := TailOutcomes(json, isURL);
    if GetInt(json, "open_issues_count").Failure? {
      assert FirstFailure(os) == Some(GetInt(json, "open_issues_count").error);
      return;
    }
    assert FirstFailure(TailOutcomes(json, isURL)) == FirstFailure(os.rest);
    os := os.rest;
    if GetOptionalString(json, "master_branch").Failure? {
      assert FirstFailure(os) == Some(GetOptionalString(json, "master_branch").error);
      return;
    }
    assert FirstFailure(TailOutcomes(json, isURL)) == FirstFailure(os.rest);
    os := os.rest;
    if GetString(json, "default_branch").Failure? {
      assert FirstFailure(os) == Some(GetString(json, "default_branch").error);
      return;
    }
    assert FirstFailure(TailOutcomes(json, isURL)) == FirstFailure(os.rest);
    os := os.rest;
    if GetDouble(json, "score").Failure? {
      assert FirstFailure(os) == Some(GetDouble(json, "score").error);
      return;
    }
    assert FirstFailure(TailOutcomes(json, isURL)) == FirstFailure(os.rest);
    os := os.rest;
    if GetObject(json, "owner").Failure? {
      assert FirstFailure(os) == Some(GetObject(json, "owner").error);
      return;
    }
    assert FirstFailure(TailOutcomes(json, isURL)) == FirstFailure(os.rest);
    os := os.rest;
  }

  lemma TailPaths(json: JSONObject, isURL: string -> bool)
    requires HeadDecodes(json, isURL) && MiddleDecodes(json, isURL)
    ensures GetInt(json, "open_issues_count").Failure? ==>
              DecodeRepository(json, isURL) == Failure(GetInt(json, "open_issues_count").error)
    ensures GetInt(json, "open_issues_count").Success? && GetOptionalString(json, "master_branch").Failure? ==>
              DecodeRepository(json, isURL) == Failure(GetOptionalString(json, "master_branch").error)
    ensures GetInt(json, "open_issues_count").Success? && GetOptionalString(json, "master_branch").Success? && GetString(json, "default_branch").Failure? ==>
              DecodeRepository(json, isURL) == Failure(GetString(json, "default_branch").error)
    ensures GetInt(json, "open_issues_count").Success? && GetOptionalString(json, "master_branch").Success? && GetString(json, "default_branch").Success? && GetDouble(json, "score").Failure? ==>
              DecodeRepository(json, isURL) == Failure(GetDouble(json, "score").error)
    ensures GetInt(json, "open_issues_count").Success? && GetOptionalString(json, "master_branch").Success? && GetString(json, "default_branch").Success? && GetDouble(json, "score").Success? && GetObject(json, "owner").Failure? ==>
              DecodeRepository(json, isURL) == Failure(GetObject(json, "owner").error)
  {
  }

  lemma TailFailFast(json: JSONObject, isURL: string -> bool)
    requires HeadDecodes(json, isURL) && MiddleDecodes(json, isURL)
    ensures FirstFailure(TailOutcomes(json, isURL)).Some? ==>
              DecodeRepository(json, isURL) == Failure(FirstFailure(TailOutcomes(json, isURL)).value)
    ensures FirstFailure(TailOutcomes(json, isURL)).None? ==> TailDecodes(json, isURL)
  {
    TailWalk(json, isURL);
    TailPaths(json, isURL);
  }

  /** Once every other field decodes, the outcome is the nested User's. */
  lemma OwnerFailFast(json: JSONObject, isURL: string -> bool)
    requires HeadDecodes(json, isURL) && MiddleDecodes(json, isURL) && TailDecodes(json, isURL)
    ensures DecodeRepository(json, isURL).Failure? <==> OwnerOutcome(json, isURL).Some?
    ensures DecodeRepository(json, isURL).Failure? ==> DecodeRepository(json, isURL).error == OwnerOutcome(json, isURL).value
  {
    var owner := DecodeUser(GetObject(json, "owner").value, isURL);
    if owner.Failure? {
      assert DecodeRepository(json, isURL) == Failure(owner.error);
    } else {
      assert DecodeRepository(json, isURL).Success?;
    }
  }

  /** Repository decoding fails exactly when one of its field decodes
      throws, and then with the error of the first one in declaration order:
      a missing `id` is reported before anything else, a broken `owner` only
      when every other field decodes. */
  lemma RepositoryFailFast(json: JSONObject, isURL: string -> bool)
    ensures DecodeRepository(json, isURL).Failure? <==> FirstFailure(RepositoryOutcomes(json, isURL)).Some?
    ensures DecodeRepository(json, isURL).Failure? ==> DecodeRepository(json, isURL).error == FirstFailure(RepositoryOutcomes(json, isURL)).value
  {
    var head, middle, tail := HeadOutcomes(json, isURL), MiddleOutcomes(json, isURL), TailOutcomes(json, isURL);
    var owner := Then(OwnerOutcome(json, isURL), Done);
    FirstFailureAppend(head, Append(middle, Append(tail, owner)));
    FirstFailureAppend(middle, Append(tail, owner));
    FirstFailureAppend(tail, owner);
    HeadFailFast(json, isURL);
    if FirstFailure(head).None? {
      MiddleFailFast(json, isURL);
      if FirstFailure(middle).None? {
        TailFailFast(json, isURL);
        if FirstFailure(tail).None? {
          OwnerFailFast(json, isURL);
        }
      }
    }
  }

  /** A present owner that is not an object stops decoding with
      UnexpectedTye naming the owner key, once every other field decodes. */
  lemma RepositoryOwnerNotObject(json: JSONObject, isURL: string -> bool)
    requires HeadDecodes(json, isURL) && MiddleDecodes(json, isURL)
    requires GetInt(json, "open_issues_count").Success? && GetOptionalString(json, "master_branch").Success?
    requires GetString(json, "default_branch").Success? && GetDouble(json, "score").Success?
    requires "owner" in json && !json["owner"].JObj?
    ensures DecodeRepository(json, isURL) == Failure(UnexpectedTye("owner", ObjectType, DynamicTypeOf(json["owner"])))
  {
    TailPaths(json, isURL);
  }

  /** In a decoded repository an optional field is none exactly when its key
      is absent or holds null, and otherwise carries the stored string. */
  lemma RepositoryOptionalFields(json: JSONObject, isURL: string -> bool)
    requires DecodeRepository(json, isURL).Success?
    ensures var r := DecodeRepository(json, isURL).value;
            && (r.description.None? <==> "description" !in json || json["description"] == JNull)
            && (r.homepage.None? <==> "homepage" !in json || json["homepage"] == JNull)
            && (r.language.None? <==> "language" !in json || json["language"] == JNull)
            && (r.masterBranch.None? <==> "master_branch" !in json || json["master_branch"] == JNull)
            && (r.pushedAt.None? <==> "pushed_at" !in json || json["pushed_at"] == JNull)
    ensures var r := DecodeRepository(json, isURL).value;
            && (r.description.Some? ==> json["description"] == JStr(r.description.value))
            && (r.homepage.Some? ==> json["homepage"] == JStr(r.homepage.value))
            && (r.language.Some? ==> json["language"] == JStr(r.language.value))
            && (r.masterBranch.Some? ==> json["master_branch"] == JStr(r.masterBranch.value))
  {
  }

  /** `map` over the items array with a throwing element decoder: elements
      are decoded in order and the first failure ends the walk. */
  function DecodeItems<T>(elems: seq<JSON>, decodeItem: JSONObject -> Result<T, DecodeError>): (r: Result<seq<T>, DecodeError>)
    requires forall e :: e in elems ==> e.JObj?
    ensures r.Success? <==> forall i :: 0 <= i < |elems| ==> decodeItem(elems[i].fields).Success?
    ensures r.Success? ==> |r.value| == |elems|
                           && forall i :: 0 <= i < |elems| ==> decodeItem(elems[i].fields) == Success(r.value[i])
    ensures r.Failure? ==> exists i :: 0 <= i < |elems| && decodeItem(elems[i].fields) == Failure(r.error)
                                       && forall j :: 0 <= j < i ==> decodeItem(elems[j].fields).Success?
  {
    if elems == [] then
      Success([])
    else
      var first :- decodeItem(elems[0].fields);
      var rest :- DecodeItems(elems[1..], decodeItem);
      Success([first] + rest)
  }

  /** `SearchResult.init(json:)`: total_count, incomplete_results, then the
      items array (every element an object) mapped through the item decoder. */
  function DecodeSearchResult<T>(json: JSONObject, decodeItem: JSONObject -> Result<T, DecodeError>): (r: Result<SearchResult<T>, DecodeError>)
    ensures r.Success? ==> GetInt(json, "total_count") == Success(r.value.totalCount)
                           && GetBool(json, "incomplete_results") == Success(r.value.incompleteResults)
    ensures r.Success? ==> && "items" in json && HasType(json["items"], ObjectArrayType)
                           && |r.value.items| == |json["items"].elems|
                           && forall i :: 0 <= i < |r.value.items| ==>
                                decodeItem(json["items"].elems[i].fields) == Success(r.value.items[i])
    ensures GetInt(json, "total_count").Success? && GetBool(json, "incomplete_results").Success?
            && "items" in json && !HasType(json["items"], ObjectArrayType)
            ==> r == Failure(UnexpectedTye("items", ObjectArrayType, DynamicTypeOf(json["items"])))
    ensures "items" in json && json["items"].JArr? && r.Success? ==>
              forall e :: e in json["items"].elems ==> decodeItem(e.fields).Success?
    ensures GetInt(json, "total_count").Failure? ==> r == Failure(GetInt(json, "total_count").error)
    ensures GetInt(json, "total_count").Success? && GetBool(json, "incomplete_results").Failure? ==>
              r == Failure(GetBool(json, "incomplete_results").error)
    ensures GetInt(json, "total_count").Success? && GetBool(json, "incomplete_results").Success?
            && GetValue(json, "items", ObjectArrayType).Failure? ==>
              r == Failure(GetValue(json, "items", ObjectArrayType).error)
    ensures GetInt(json, "total_count").Success? && GetBool(json, "incomplete_results").Success?
            && GetValue(json, "items", ObjectArrayType).Success? ==>
              && (r.Success? <==> DecodeItems(json["items"].elems, decodeItem).Success?)
              && (r.Failure? ==> r.error == DecodeItems(json["items"].elems, decodeItem).error)
  {
    var totalCount :- GetInt(json, "total_count");
    var incompleteResults :- GetBool(json, "incomplete_results");
    var items :- GetValue(json, "items", ObjectArrayType);
    var decoded :- DecodeItems(items.elems, decodeItem);
    Success(SearchResult(totalCount, incompleteResults, decoded))
  }
}
