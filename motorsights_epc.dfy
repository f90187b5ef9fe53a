/**
 * The bookkeeping of the Motorsights EPC client: request building with its
 * defaults, the URL join, the 401-retry-once rule, the outcome mapping of
 * `create_category` and `create_type_category`, and the batch loops that
 * sort every outcome into created, skipped or errors.
 *
 * HTTP is an oracle: for the category with index i, `replies(i, 0)` is the
 * first attempt and `replies(i, 1)` the attempt after a 401. Anything that
 * raises out of the client (a failing token fetch, `.get` on a value that
 * is not a dict) is an `Escaped` outcome.
 */
module MotorsightsEpc {
  import opened Wrappers
  import opened Text
  import opened JsonValue
  import MotorsightsAuth

  // ---------------------------------------------------------------------
  // Requests and the URL join
  // ---------------------------------------------------------------------

  /** `f"{base_url}/{endpoint.lstrip('/')}"` with `base_url` already right-stripped of '/'. */
  function ApiUrl(baseUrl: string, endpoint: string): string {
    baseUrl + "/" + LStripChar(endpoint, '/')
  }

  /** Exactly one slash at the join: none ends the base, none starts the path. */
  lemma OneSlashAtJoin(base: string, endpoint: string)
    ensures var b, e := RStripChar(base, '/'), LStripChar(endpoint, '/');
      && ApiUrl(b, endpoint) == b + ['/'] + e
      && (b == [] || b[|b| - 1] != '/')
      && (e == [] || e[0] != '/')
  {
  }

  /** What one HTTP attempt yields. `body` is `None` when `resp.json()` cannot decode it. */
  datatype HttpReply =
    | TokenFailed                                  // the bearer-token fetch raised
    | ConnectionFailed                             // a RequestException other than HTTPError
    | Response(status: int, body: Option<Json>)

  predicate IsHttpError(status: int) {
    400 <= status < 600
  }

  /** What one invocation of an inner `_call` comes to. */
  datatype CallResult =
    | CallEscaped
    | HttpFailure(status: int)                     // raise_for_status
    | RequestFailure                               // any other RequestException
    | Returned(success: bool, body: Json, skipped: bool)

  /** The inner call is run a second time: exactly on a 401 when there is an auth client. */
  predicate Retries(first: CallResult, hasAuthClient: bool) {
    first.HttpFailure? && first.status == 401 && hasAuthClient
  }

  /** `_with_401_retry`: a 401 with an auth client invalidates the token and calls once more. */
  function With401Retry(first: CallResult, second: CallResult, hasAuthClient: bool): (r: CallResult)
  {
    if Retries(first, hasAuthClient) then second else first
  }

  /**
   * The retry happens at most once: what the second attempt yields is
   * final, a 401 included, and without a retry the second attempt is never
   * looked at.
   */
  lemma RetryOnce(first: CallResult, second: CallResult, other: CallResult, hasAuthClient: bool)
    ensures Retries(first, hasAuthClient) ==> With401Retry(first, second, hasAuthClient) == second
    ensures !Retries(first, hasAuthClient) ==>
      With401Retry(first, second, hasAuthClient) == first == With401Retry(first, other, hasAuthClient)
    ensures With401Retry(first, second, hasAuthClient) == HttpFailure(401) ==>
      !hasAuthClient || second == HttpFailure(401)
  {
  }

  // ---------------------------------------------------------------------
  // Generic requests and type categories
  // ---------------------------------------------------------------------

  /** The `_call` of `_api_request`: `(True, resp.json())` unless something raises. */
  function ApiCall(reply: HttpReply): CallResult {
    match reply
    case TokenFailed => CallEscaped
    case ConnectionFailed => RequestFailure
    case Response(status, body) =>
      if IsHttpError(status) then HttpFailure(status)
      else if body.None? then RequestFailure
      else Returned(true, body.value, false)
  }

  /** What `_api_request` returns, or that it raised. `None` stands for Python's `None`. */
  datatype ApiOutcome = ApiEscaped | ApiReturned(success: bool, result: Option<Json>)

  function ApiRequest(first: HttpReply, second: HttpReply, hasAuthClient: bool): (r: ApiOutcome)
    ensures r.ApiReturned? && !r.success ==> r.result.None?
  {
    match With401Retry(ApiCall(first), ApiCall(second), hasAuthClient)
    case CallEscaped => ApiEscaped
    case Returned(s, b, _) => ApiReturned(s, Some(b))
    case _ => ApiReturned(false, None)
  }

  /**
   * With an auth client, the request after a 401 is answered exactly as a
   * single request with that reply would be; a second 401 is a plain failure.
   */
  lemma ApiRetryIsFreshRequest(body: Option<Json>, second: HttpReply, third: HttpReply)
    ensures ApiRequest(Response(401, body), second, true) == ApiRequest(second, third, false)
    ensures second.Response? && second.status == 401 ==>
      ApiRequest(Response(401, body), second, true) == ApiReturned(false, None)
  {
  }

  /** Without a 401, or without an auth client, the reply to the retry is never consulted. */
  lemma ApiNoRetryIgnoresSecond(first: HttpReply, second: HttpReply, other: HttpReply, hasAuthClient: bool)
    requires !(first.Response? && first.status == 401 && hasAuthClient)
    ensures ApiRequest(first, second, hasAuthClient) == ApiRequest(first, other, hasAuthClient)
  {
  }

  /**
   * `create_type_category` on the outcome of its request: a success whose
   * non-empty body has a falsy `success` becomes a failure; `result.get`
   * on anything but a dict raises.
   */
  function TypeCategoryOutcome(api: ApiOutcome): (r: ApiOutcome)
    ensures api.ApiReturned? && !api.success ==> r == api
    ensures api.ApiReturned? && api.success && api.result.Some? && api.result.value.JObj? && Truthy(api.result.value)
            && !Truthy(Get(api.result.value.fields, "success", JBool(false)))
            ==> r == ApiReturned(false, api.result)
    ensures r.ApiReturned? && r.success ==> r == api && api.result.Some? && api.result.value.JObj?
  {
    match api
    case ApiEscaped => ApiEscaped
    case ApiReturned(success, result) =>
      if !success then api
      else if result.None? || !result.value.JObj? then ApiEscaped
      else
        var j := result.value;
        if Truthy(j) && !Truthy(Get(j.fields, "success", JBool(false))) then ApiReturned(false, result)
        else if !Get(j.fields, "data", JObj(map[])).JObj? then ApiEscaped
        else api
  }

  // ---------------------------------------------------------------------
  // create_category
  // ---------------------------------------------------------------------

  /** The `_call` of `create_category` for the request body `data`. */
  function CategoryCall(reply: HttpReply, data: map<string, Json>): (r: CallResult)
    ensures r.Returned? && r.skipped ==> r.success && r.body.JObj? && "data" in r.body.fields && r.body.fields["data"] == JObj(data)
    ensures r.Returned? ==> r.body.JObj?
  {
    match reply
    case TokenFailed => CallEscaped
    case ConnectionFailed => RequestFailure
    case Response(status, body) =>
      if status == 409 then
        match body
        case None => RequestFailure
        case Some(j) =>
          if !j.JObj? then CallEscaped
          else
            var msg := Get(j.fields, "message", JStr("Conflict"));
            Returned(true, JObj(map["skipped" := JBool(true), "message" := msg, "data" := JObj(data)]), true)
      else if IsHttpError(status) then HttpFailure(status)
      else if body.None? then RequestFailure
      else
        var j := body.value;
        if !j.JObj? then CallEscaped
        else if !Truthy(Get(j.fields, "success", JBool(false))) then Returned(false, j, false)
        else if !Get(j.fields, "data", JObj(map[])).JObj? then CallEscaped
        else Returned(true, j, false)
  }

  /** `(success, response_data, was_skipped)`, or the exception escaping `create_category`. */
  datatype Created = Escaped | Outcome(success: bool, response: Option<Json>, skipped: bool)

  function CreateCategory(first: HttpReply, second: HttpReply, data: map<string, Json>, hasAuthClient: bool): (r: Created)
    ensures r.Outcome? && r.skipped ==> r.success
    ensures r.Outcome? && r.success ==> r.response.Some? && r.response.value.JObj?
  {
    match With401Retry(CategoryCall(first, data), CategoryCall(second, data), hasAuthClient)
    case CallEscaped => Escaped
    case Returned(s, b, k) => Outcome(s, Some(b), k)
    case _ => Outcome(false, None, false)
  }

  /** The outcome mapping: a 409 is a skip, a falsy `success` a failure with the body, any request error `(False, None, False)`. */
  lemma CreateCategoryOutcomes(reply: HttpReply, second: HttpReply, data: map<string, Json>, hasAuthClient: bool)
    ensures reply.Response? && reply.status == 409 && reply.body.Some? && reply.body.value.JObj? ==>
      CreateCategory(reply, second, data, hasAuthClient)
        == Outcome(true, Some(JObj(map["skipped" := JBool(true),
                                       "message" := Get(reply.body.value.fields, "message", JStr("Conflict")),
                                       "data" := JObj(data)])), true)
    ensures reply.Response? && reply.status == 409 && reply.body.Some? && !reply.body.value.JObj? ==>
      CreateCategory(reply, second, data, hasAuthClient) == Escaped
    ensures reply.ConnectionFailed? ==> CreateCategory(reply, second, data, hasAuthClient) == Outcome(false, None, false)
    ensures reply.Response? && IsHttpError(reply.status) && reply.status != 409 && !(reply.status == 401 && hasAuthClient) ==>
      CreateCategory(reply, second, data, hasAuthClient) == Outcome(false, None, false)
    ensures reply.Response? && !IsHttpError(reply.status) && reply.body.Some? && reply.body.value.JObj?
            && !Truthy(Get(reply.body.value.fields, "success", JBool(false))) ==>
      CreateCategory(reply, second, data, hasAuthClient) == Outcome(false, reply.body, false)
  {
  }

  /** With an auth client, the `create_category` call after a 401 is answered as a single call with that reply. */
  lemma CreateRetryIsFreshRequest(body: Option<Json>, second: HttpReply, third: HttpReply, data: map<string, Json>)
    ensures CreateCategory(Response(401, body), second, data, true) == CreateCategory(second, third, data, false)
  {
  }

  // ---------------------------------------------------------------------
  // The batch results
  // ---------------------------------------------------------------------

  datatype Results = Results(created: seq<Json>, skipped: seq<Json>, typeCreated: seq<Json>, errors: seq<Json>)

  const EmptyResults := Results([], [], [], [])

  function Count(r: Results): nat {
    |r.created| + |r.skipped| + |r.errors|
  }

  predicate Extends<T(==)>(a: seq<T>, b: seq<T>) {
    |a| <= |b| && b[..|a|] == a
  }

  predicate AppendedOne<T(==)>(a: seq<T>, b: seq<T>) {
    |b| == |a| + 1 && b[..|a|] == a
  }

  /** The entry a skip records: the name and the response's message, "Already exists" by default. */
  function SkippedEntry(nameEn: Json, response: map<string, Json>): Json {
    JObj(map["category_name_en" := nameEn, "message" := Get(response, "message", JStr("Already exists"))])
  }

  /** The entry a failure records: the response's "error" when the response is truthy, else "Unknown error". */
  function ErrorEntry(response: Option<Json>): Json
    requires response.Some? && Truthy(response.value) ==> response.value.JObj?
  {
    var error := if response.Some? && Truthy(response.value) then Get(response.value.fields, "error", JNull) else JStr("Unknown error");
    JObj(map["type" := JStr("category"), "error" := error])
  }

  /** `cat_response.get("data", {})` of a created category. */
  function CreatedData(response: map<string, Json>): Json {
    Get(response, "data", JObj(map[]))
  }

  /**
   * `_handle_category_response` on a value: exactly one of skipped, created
   * and errors grows, by the entry the source appends, and type categories
   * are added only with a created category, as its `data_type` list.
   * `None` is an exception: `.get` on a value that is not a dict, or a
   * `data_type` that is not a list.
   */
  function Handle(r: Results, outcome: Created, nameEn: Json): (h: Option<Results>)
    requires outcome.Outcome?
    ensures h.Some? ==> Count(h.value) == Count(r) + 1
    ensures outcome.success && outcome.skipped ==>
      && (h.Some? <==> outcome.response.Some? && outcome.response.value.JObj?)
      && (h.Some? ==> h.value == r.(skipped := r.skipped + [SkippedEntry(nameEn, outcome.response.value.fields)]))
    ensures outcome.success && !outcome.skipped ==>
      && (h.Some? <==> outcome.response.Some? && outcome.response.value.JObj?
                       && CreatedData(outcome.response.value.fields).JObj?
                       && Get(CreatedData(outcome.response.value.fields).fields, "data_type", JArr([])).JArr?)
      && (h.Some? ==>
            var data := CreatedData(outcome.response.value.fields);
            h.value == r.(created := r.created + [data],
                          typeCreated := r.typeCreated + Get(data.fields, "data_type", JArr([])).items))
    ensures !outcome.success ==>
      && (h.Some? <==> !(outcome.response.Some? && Truthy(outcome.response.value) && !outcome.response.value.JObj?))
      && (h.Some? ==> h.value == r.(errors := r.errors + [ErrorEntry(outcome.response)]))
  {
    if outcome.success && outcome.skipped then
      match outcome.response
      case Some(JObj(m)) => Some(r.(skipped := r.skipped + [SkippedEntry(nameEn, m)]))
      case _ => None
    else if outcome.success then
      match outcome.response
      case Some(JObj(m)) =>
        var data := CreatedData(m);
        if !data.JObj? then None
        else
          var nested := Get(data.fields, "data_type", JArr([]));
          if !nested.JArr? then None
          else Some(r.(created := r.created + [data], typeCreated := r.typeCreated + nested.items))
      case _ => None
    else
      var response := outcome.response;
      if response.Some? && Truthy(response.value) && !response.value.JObj? then None
      else Some(r.(errors := r.errors + [ErrorEntry(response)]))
  }

  /** A failure without a response records "Unknown error"; one with a dict response records its "error", None when absent. */
  lemma ErrorEntries(r: Results, nameEn: Json, m: map<string, Json>)
    ensures Handle(r, Outcome(false, None, false), nameEn)
      == Some(r.(errors := r.errors + [JObj(map["type" := JStr("category"), "error" := JStr("Unknown error")])]))
    ensures Handle(r, Outcome(false, Some(JObj(map[])), false), nameEn) == Handle(r, Outcome(false, None, false), nameEn)
    ensures m != map[] ==>
      Handle(r, Outcome(false, Some(JObj(m)), false), nameEn) == Some(r.(errors := r.errors + [JObj(map["type" := JStr("category"), "error" := Get(m, "error", JNull)])]))
  {
  }

  /** The `results` dict, whose lists the handler appends to in place. */
  class BatchResults {
    var created: seq<Json>
    var skipped: seq<Json>
    var typeCreated: seq<Json>
    var errors: seq<Json>

    /** `_empty_batch_results` */
    constructor ()
      ensures Snapshot() == EmptyResults
    {
      created, skipped, typeCreated, errors := [], [], [], [];
    }

    function Snapshot(): Results
      reads this
    {
      Results(created, skipped, typeCreated, errors)
    }

    /** `_handle_category_response`; `ok` is false when it raises. */
    method HandleCategoryResponse(outcome: Created, nameEn: Json) returns (ok: bool)
      requires outcome.Outcome?
      modifies this
      ensures ok == Handle(old(Snapshot()), outcome, nameEn).Some?
      ensures ok ==> Snapshot() == Handle(old(Snapshot()), outcome, nameEn).value
    {
      if outcome.success && outcome.skipped {
        if !(outcome.response.Some? && outcome.response.value.JObj?) {
          return false;
        }
        skipped := skipped + [SkippedEntry(nameEn, outcome.response.value.fields)];
        return true;
      } else if outcome.success {
        if !(outcome.response.Some? && outcome.response.value.JObj?) {
          return false;
        }
        var data := CreatedData(outcome.response.value.fields);
        if !data.JObj? {
          return false;
        }
        created := created + [data];
        var nested := Get(data.fields, "data_type", JArr([]));
        if !nested.JArr? {
          return false;
        }
        typeCreated := typeCreated + nested.items;
        return true;
      } else {
        var response := outcome.response;
        if response.Some? && Truthy(response.value) && !response.value.JObj? {
          return false;
        }
        errors := errors + [ErrorEntry(response)];
        return true;
      }
    }
  }

  // ---------------------------------------------------------------------
  // Building the requests
  // ---------------------------------------------------------------------

  /** The items `for x in j` visits when the loop body then calls `x.get`; `None` when that raises. */
  function Iterate(j: Json): Option<seq<Json>> {
    match j
    case JArr(xs) => Some(xs)
    case JStr(s) => if s == [] then Some([]) else None
    case JObj(m) => if m == map[] then Some([]) else None
    case _ => None
  }

  /** Python's `str()` of a scalar, for the default description. */
  function Display(j: Json): string {
    match j
    case JStr(s) => s
    case JNull => "None"
    case JBool(b) => if b then "True" else "False"
    case JNum(n) => if n < 0 then "-" + NatToString(-n) else NatToString(n)
    case _ => []
  }

  /** One element of the nested `data_type` list, every field defaulting to "". */
  function TypeCategoryRequest(tc: map<string, Json>): (r: map<string, Json>)
    ensures r.Keys == {"type_category_name_en", "type_category_name_cn", "type_category_description"}
  {
    map["type_category_name_en" := Get(tc, "type_category_name_en", JStr("")),
        "type_category_name_cn" := Get(tc, "type_category_name_cn", JStr("")),
        "type_category_description" := Get(tc, "type_category_description", JStr(""))]
  }

  function TypeCategoryRequests(tcs: seq<Json>): Option<seq<Json>>
    decreases |tcs|
  {
    if tcs == [] then Some([])
    else
      var n := |tcs| - 1;
      var init := TypeCategoryRequests(tcs[..n]);
      if init.None? || !tcs[n].JObj? then None
      else Some(init.value + [JObj(TypeCategoryRequest(tcs[n].fields))])
  }

  /** Every type category must be a dict; each becomes its request, in order. */
  lemma {:induction false} TypeCategoryRequestsSpec(tcs: seq<Json>)
    ensures TypeCategoryRequests(tcs).Some? <==> forall tc :: tc in tcs ==> tc.JObj?
    ensures var r := TypeCategoryRequests(tcs); r.Some? ==> (|r.value| == |tcs|
      && forall i :: 0 <= i < |tcs| ==> r.value[i] == JObj(TypeCategoryRequest(tcs[i].fields)))
    decreases |tcs|
  {
    if tcs != [] {
      var n := |tcs| - 1;
      TypeCategoryRequestsSpec(tcs[..n]);
      assert forall tc :: tc in tcs <==> tc in tcs[..n] || tc == tcs[n] by {
        assert tcs == tcs[..n] + [tcs[n]];
      }
    }
  }

  /** The two batch functions differ only in how they build a request. */
  datatype BatchKind = Nested | Flat

  function MasterName(masterName: Option<string>): string {
    if masterName.Some? then masterName.value else ""
  }

  function NestedDescription(cat: map<string, Json>): Json {
    Get(cat, "category_description", JStr("Category for " + Display(Get(cat, "category_name_en", JStr("")))))
  }

  const RequestKeys: set<string> := {"master_category_id", "master_category_name_en", "category_name_en",
                                     "category_name_cn", "category_description", "data_type"}

  /** The request body for one category of the catalog, or `None` when building it raises. */
  function BuildRequest(kind: BatchKind, cat: Json, masterId: string, masterName: Option<string>): Option<map<string, Json>>
  {
    if !cat.JObj? then None
    else
      var m := cat.fields;
      match kind
      case Flat =>
        Some(map["master_category_id" := JStr(masterId),
                 "master_category_name_en" := JStr(MasterName(masterName)),
                 "category_name_en" := Get(m, "category_name_en", JStr("")),
                 "category_name_cn" := Get(m, "category_name_cn", JStr("")),
                 "category_description" := Get(m, "category_description", JStr("")),
                 "data_type" := JArr([])])
      case Nested =>
        match Iterate(Get(m, "data_type", JArr([])))
        case None => None
        case Some(tcs) =>
          match TypeCategoryRequests(tcs)
          case None => None
          case Some(dataType) =>
            Some(map["master_category_id" := JStr(masterId),
                     "master_category_name_en" := JStr(MasterName(masterName)),
                     "category_name_en" := Get(m, "category_name_en", JStr("")),
                     "category_name_cn" := Get(m, "category_name_cn", JStr("")),
                     "category_description" := NestedDescription(m),
                     "data_type" := JArr(dataType)])
  }

  /** Every request carries the master category and the category's names, under the same six keys. */
  lemma BuildRequestShape(kind: BatchKind, cat: Json, masterId: string, masterName: Option<string>)
    ensures var r := BuildRequest(kind, cat, masterId, masterName);
      r.Some? ==> (cat.JObj?
      && r.value.Keys == RequestKeys
      && r.value["master_category_id"] == JStr(masterId)
      && r.value["master_category_name_en"] == JStr(MasterName(masterName))
      && r.value["category_name_en"] == Get(cat.fields, "category_name_en", JStr(""))
      && r.value["category_name_cn"] == Get(cat.fields, "category_name_cn", JStr("")))
  {
  }

  /** Flat requests never carry type categories, and their description defaults to "". */
  lemma FlatRequestDefaults(cat: map<string, Json>, masterId: string, masterName: Option<string>)
    ensures var r := BuildRequest(Flat, JObj(cat), masterId, masterName);
      && r.Some? && r.value["data_type"] == JArr([])
      && r.value["category_description"] == Get(cat, "category_description", JStr(""))
  {
  }

  /** A nested request without a description gets "Category for <name_en>"; its type categories default to "". */
  lemma NestedRequestDefaults(cat: map<string, Json>, masterId: string, masterName: Option<string>, name: string)
    requires "category_description" !in cat && Get(cat, "category_name_en", JStr("")) == JStr(name)
    requires Iterate(Get(cat, "data_type", JArr([]))).Some?
    requires var tcs := Iterate(Get(cat, "data_type", JArr([]))).value; forall tc :: tc in tcs ==> tc.JObj?
    ensures var r := BuildRequest(Nested, JObj(cat), masterId, masterName);
      && r.Some? && r.value["category_description"] == JStr("Category for " + name)
      && r.value["data_type"].JArr?
      && forall t :: t in r.value["data_type"].items ==> t.JObj? && t.fields.Keys == {"type_category_name_en", "type_category_name_cn", "type_category_description"}
  {
    TypeCategoryRequestsSpec(Iterate(Get(cat, "data_type", JArr([]))).value);
  }

  // ---------------------------------------------------------------------
  // The batch loop
  // ---------------------------------------------------------------------

  /** The state after some categories: the results and the request bodies sent, in order. */
  datatype Progress = Progress(results: Results, sent: seq<map<string, Json>>)

  /** The name the handler logs and records. */
  function NameOf(cat: Json): Json {
    if cat.JObj? then Get(cat.fields, "category_name_en", JStr("")) else JStr("")
  }

  /** What every iteration of a batch shares. */
  datatype BatchEnv = BatchEnv(kind: BatchKind, replies: (nat, nat) -> HttpReply, hasAuthClient: bool,
                               masterId: string, masterName: Option<string>)

  /** One iteration for the category with index `i`: build, send, record. */
  function Step(env: BatchEnv, p: Progress, i: nat, cat: Json): (r: Option<Progress>)
    ensures r.Some? ==> BuildRequest(env.kind, cat, env.masterId, env.masterName).Some?
    ensures r.Some? ==> r.value.sent == p.sent + [BuildRequest(env.kind, cat, env.masterId, env.masterName).value]
    ensures r.Some? ==> Count(r.value.results) == Count(p.results) + 1
  {
    match BuildRequest(env.kind, cat, env.masterId, env.masterName)
    case None => None
    case Some(req) =>
      var outcome := CreateCategory(env.replies(i, 0), env.replies(i, 1), req, env.hasAuthClient);
      if outcome.Escaped? then None
      else
        match Handle(p.results, outcome, NameOf(cat))
        case None => None
        case Some(res) => Some(Progress(res, p.sent + [req]))
  }

  /** The loop over the categories `cats`; `None` when an iteration raises. */
  function Steps(env: BatchEnv, cats: seq<Json>): Option<Progress>
    decreases |cats|
  {
    if cats == [] then Some(Progress(EmptyResults, []))
    else
      var n := |cats| - 1;
      match Steps(env, cats[..n])
      case None => None
      case Some(p) => Step(env, p, n, cats[n])
  }

  lemma StepsSnoc(env: BatchEnv, cats: seq<Json>, i: nat)
    requires i < |cats|
    ensures Steps(env, cats[..i + 1])
      == if Steps(env, cats[..i]).None? then None else Step(env, Steps(env, cats[..i]).value, i, cats[i])
  {
    assert cats[..i + 1][..i] == cats[..i];
  }

  /** Step, unfolded once for the method that runs it. */
  lemma StepCases(env: BatchEnv, p: Progress, i: nat, cat: Json)
    ensures BuildRequest(env.kind, cat, env.masterId, env.masterName).None? ==> Step(env, p, i, cat).None?
    ensures BuildRequest(env.kind, cat, env.masterId, env.masterName).Some? ==>
      var req := BuildRequest(env.kind, cat, env.masterId, env.masterName).value;
      var outcome := CreateCategory(env.replies(i, 0), env.replies(i, 1), req, env.hasAuthClient);
      && (outcome.Escaped? ==> Step(env, p, i, cat).None?)
      && (outcome.Outcome? ==>
            Step(env, p, i, cat) == if Handle(p.results, outcome, NameOf(cat)).None? then None
                                    else Some(Progress(Handle(p.results, outcome, NameOf(cat)).value, p.sent + [req])))
  {
  }

  /** Once an iteration raises, the loop as a whole has raised. */
  lemma {:induction false} StepsNoneSticks(env: BatchEnv, cats: seq<Json>, i: nat)
    requires i <= |cats| && Steps(env, cats[..i]).None?
    ensures Steps(env, cats).None?
    decreases |cats| - i
  {
    if i < |cats| {
      StepsSnoc(env, cats, i);
      StepsNoneSticks(env, cats, i + 1);
    } else {
      assert cats[..i] == cats;
    }
  }

  datatype BatchError = MissingMasterCategoryId | BatchRaised

  /** A batch's return value: success iff no error was recorded. */
  datatype Batch = Batch(success: bool, results: Results, sent: seq<map<string, Json>>)

  function RunBatchSpec(env: BatchEnv, catalog: map<string, Json>): (r: Result<Batch, BatchError>)
    ensures env.masterId == [] ==> r == Failure(MissingMasterCategoryId)
    ensures r.Success? ==> (r.value.success <==> r.value.results.errors == [])
  {
    if env.masterId == [] then Failure(MissingMasterCategoryId)
    else
      match Iterate(Get(catalog, "categories", JArr([])))
      case None => Failure(BatchRaised)
      case Some(cats) =>
        match Steps(env, cats)
        case None => Failure(BatchRaised)
        case Some(p) => Success(Batch(p.results.errors == [], p.results, p.sent))
  }

  /** One request per category, in catalog order, each as `BuildRequest` makes it. */
  lemma {:induction false} StepsSendInOrder(env: BatchEnv, cats: seq<Json>)
    requires Steps(env, cats).Some?
    ensures |Steps(env, cats).value.sent| == |cats|
    ensures forall i :: 0 <= i < |cats| ==>
      BuildRequest(env.kind, cats[i], env.masterId, env.masterName) == Some(Steps(env, cats).value.sent[i])
    decreases |cats|
  {
    if cats != [] {
      var n := |cats| - 1;
      var front := cats[..n];
      StepsSendInOrder(env, front);
      var p := Steps(env, front).value;
      assert Steps(env, cats) == Step(env, p, n, cats[n]);
      var q := Steps(env, cats).value;
      var last := BuildRequest(env.kind, cats[n], env.masterId, env.masterName);
      assert last.Some? && q.sent == p.sent + [last.value];
      assert q.sent[n] == last.value;
      forall i | 0 <= i < |cats|
        ensures BuildRequest(env.kind, cats[i], env.masterId, env.masterName) == Some(q.sent[i])
      {
        if i < n {
          assert front[i] == cats[i] && q.sent[i] == p.sent[i];
        } else {
          assert last == Some(q.sent[n]);
        }
      }
    }
  }

  /** Every category lands in exactly one of created, skipped and errors. */
  lemma {:induction false} StepsBucketEach(env: BatchEnv, cats: seq<Json>)
    requires Steps(env, cats).Some?
    ensures Count(Steps(env, cats).value.results) == |cats|
    decreases |cats|
  {
    if cats != [] {
      StepsBucketEach(env, cats[..|cats| - 1]);
    }
  }

  /** A batch that returns made one `create_category` call per category and bucketed each. */
  lemma BatchCallsAndBuckets(env: BatchEnv, catalog: map<string, Json>)
    requires RunBatchSpec(env, catalog).Success?
    ensures var b := RunBatchSpec(env, catalog).value;
      var cats := Iterate(Get(catalog, "categories", JArr([]))).value;
      && |b.sent| == |cats| == Count(b.results)
      && forall i :: 0 <= i < |cats| ==> BuildRequest(env.kind, cats[i], env.masterId, env.masterName) == Some(b.sent[i])
  {
    var cats := Iterate(Get(catalog, "categories", JArr([]))).value;
    StepsSendInOrder(env, cats);
    StepsBucketEach(env, cats);
  }

  // ---------------------------------------------------------------------
  // The client
  // ---------------------------------------------------------------------

  datatype ConfigError = NoCredentials

  class EpcClient {
    const baseUrl: string
    const bearerToken: Option<string>
    const auth: MotorsightsAuth.AuthClient?

    constructor (baseUrl: string, bearerToken: Option<string>, auth: MotorsightsAuth.AuthClient?)
      requires (bearerToken.Some? && bearerToken.value != []) || auth != null
      ensures this.baseUrl == RStripChar(baseUrl, '/')
      ensures this.bearerToken == bearerToken && this.auth == auth
    {
      this.baseUrl := RStripChar(baseUrl, '/');
      this.bearerToken := bearerToken;
      this.auth := auth;
    }

    /** `__init__` with its check that some way to get a token is given. */
    static method Create(baseUrl: string, bearerToken: Option<string>, auth: MotorsightsAuth.AuthClient?)
      returns (r: Result<EpcClient, ConfigError>)
      ensures r.Success? <==> (bearerToken.Some? && bearerToken.value != []) || auth != null
      ensures r.Success? ==> fresh(r.value) && r.value.baseUrl == RStripChar(baseUrl, '/') && r.value.auth == auth
    {
      if (bearerToken.None? || bearerToken.value == []) && auth == null {
        return Failure(NoCredentials);
      }
      var c := new EpcClient(baseUrl, bearerToken, auth);
      r := Success(c);
    }

    /**
     * `_with_401_retry` around an inner call whose two possible results are
     * given: on a 401 with an auth client the cached token is invalidated, so
     * the header of the second call is built from a newly fetched token.
     */
    method WithRetry(first: CallResult, second: CallResult) returns (r: CallResult, retried: bool)
      modifies auth
      ensures r == With401Retry(first, second, auth != null)
      ensures retried <==> Retries(first, auth != null)
      ensures retried ==> auth != null && auth.token == None && auth.expiry == None
      ensures !retried && auth != null ==> unchanged(auth)
    {
      if Retries(first, auth != null) {
        auth.InvalidateToken();
        return second, true;
      }
      return first, false;
    }

    /** `_api_request(method, endpoint)`: the URL it requests and what it returns. */
    method ApiRequestTo(endpoint: string, first: HttpReply, second: HttpReply) returns (url: string, r: ApiOutcome)
      modifies auth
      ensures url == ApiUrl(baseUrl, endpoint)
      ensures r == ApiRequest(first, second, auth != null)
    {
      url := baseUrl + "/" + LStripChar(endpoint, '/');
      var call, _ := WithRetry(ApiCall(first), ApiCall(second));
      assert ApiRequest(first, second, auth != null) == match call
        case CallEscaped => ApiEscaped
        case Returned(s, b, _) => ApiReturned(s, Some(b))
        case _ => ApiReturned(false, None);
      if call.CallEscaped? {
        r := ApiEscaped;
      } else if call.Returned? {
        r := ApiReturned(call.success, Some(call.body));
      } else {
        r := ApiReturned(false, None);
      }
    }

    /** `create_type_category` */
    method CreateTypeCategory(first: HttpReply, second: HttpReply) returns (r: ApiOutcome)
      modifies auth
      ensures r == TypeCategoryOutcome(ApiRequest(first, second, auth != null))
    {
      var _, api := ApiRequestTo("type_category/create", first, second);
      r := TypeCategoryOutcome(api);
    }

    /** `create_category(data)` */
    method CreateCategoryCall(data: map<string, Json>, first: HttpReply, second: HttpReply) returns (r: Created)
      modifies auth
      ensures r == CreateCategory(first, second, data, auth != null)
    {
      var call, _ := WithRetry(CategoryCall(first, data), CategoryCall(second, data));
      match call {
        case CallEscaped => r := Escaped;
        case Returned(s, b, k) => r := Outcome(s, Some(b), k);
        case HttpFailure(_) => r := Outcome(false, None, false);
        case RequestFailure => r := Outcome(false, None, false);
      }
    }

    /** One iteration of the batch loop: build the request, create the category, record the outcome. */
    method CategoryStep(env: BatchEnv, results: BatchResults, sent: seq<map<string, Json>>, i: nat, cat: Json)
      returns (ok: bool, sent2: seq<map<string, Json>>)
      requires env.hasAuthClient == (auth != null)
      modifies results, auth
      ensures ok <==> Step(env, Progress(old(results.Snapshot()), sent), i, cat).Some?
      ensures ok ==> Step(env, Progress(old(results.Snapshot()), sent), i, cat) == Some(Progress(results.Snapshot(), sent2))
    {
      ghost var before := Progress(results.Snapshot(), sent);
      StepCases(env, before, i, cat);
      sent2 := sent;
      var request := BuildRequest(env.kind, cat, env.masterId, env.masterName);
      if request.None? {
        return false, sent2;
      }
      var outcome := CreateCategoryCall(request.value, env.replies(i, 0), env.replies(i, 1));
      if outcome.Escaped? {
        return false, sent2;
      }
      ok := results.HandleCategoryResponse(outcome, NameOf(cat));
      sent2 := sent + [request.value];
    }

    /** The `for` loop over the categories, appending to a fresh `results` dict. */
    method RunSteps(env: BatchEnv, cats: seq<Json>) returns (r: Option<Progress>)
      requires env.hasAuthClient == (auth != null)
      modifies auth
      ensures r == Steps(env, cats)
    {
      var results := new BatchResults();
      var sent: seq<map<string, Json>> := [];
      var i := 0;
      while i < |cats|
        invariant 0 <= i <= |cats|
        invariant Steps(env, cats[..i]) == Some(Progress(results.Snapshot(), sent))
      {
        StepsSnoc(env, cats, i);
        var ok;
        ok, sent := CategoryStep(env, results, sent, i, cats[i]);
        if !ok {
          StepsNoneSticks(env, cats, i + 1);
          return None;
        }
        i := i + 1;
      }
      assert cats[..i] == cats;
      r := Some(Progress(results.Snapshot(), sent));
    }

    /** The loop both batch functions share, after the master-category check. */
    method RunBatch(kind: BatchKind, replies: (nat, nat) -> HttpReply, catalog: map<string, Json>,
                    masterId: string, masterName: Option<string>)
      returns (r: Result<Batch, BatchError>)
      modifies auth
      ensures r == RunBatchSpec(BatchEnv(kind, replies, auth != null, masterId, masterName), catalog)
    {
      var env := BatchEnv(kind, replies, auth != null, masterId, masterName);
      if masterId == [] {
        return Failure(MissingMasterCategoryId);
      }
      var items := Iterate(Get(catalog, "categories", JArr([])));
      if items.None? {
        return Failure(BatchRaised);
      }
      var p := RunSteps(env, items.value);
      if p.None? {
        return Failure(BatchRaised);
      }
      r := Success(Batch(|p.value.results.errors| == 0, p.value.results, p.value.sent));
    }

    /** `batch_create_type_categories_and_categories` */
    method BatchCreateTypeCategoriesAndCategories(replies: (nat, nat) -> HttpReply, catalog: map<string, Json>,
                                                  masterId: string, masterName: Option<string>)
      returns (r: Result<Batch, BatchError>)
      modifies auth
      ensures r == RunBatchSpec(BatchEnv(Nested, replies, auth != null, masterId, masterName), catalog)
    {
      r := RunBatch(Nested, replies, catalog, masterId, masterName);
    }

    /** `batch_create_flat_categories` */
    method BatchCreateFlatCategories(replies: (nat, nat) -> HttpReply, catalog: map<string, Json>,
                                     masterId: string, masterName: Option<string>)
      returns (r: Result<Batch, BatchError>)
      modifies auth
      ensures r == RunBatchSpec(BatchEnv(Flat, replies, auth != null, masterId, masterName), catalog)
    {
      r := RunBatch(Flat, replies, catalog, masterId, masterName);
    }
  }
}
