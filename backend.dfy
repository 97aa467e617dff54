/**
 * The `/analyze` handler of the Flask backend: validate the request body, classify the
 * upstream GitHub reply, turn each upstream repository into a summary record and pick the
 * response message. Every Python exception the handler can raise ends in its catch-all,
 * which answers 500; the model names the fault instead of the exception's text.
 */
module Backend {
  import opened Wrappers
  import opened Json
  import Text

  const MissingOrgError := "Request body must include 'org' key"
  const EmptyOrgError := "Organization name cannot be empty"
  const RateLimitError := "GitHub rate limit exceeded. Please try again later or add a valid token."
  const FormatError := "Unexpected API response format"
  const DefaultDescription := "No description available."
  const SummaryPrefix := "This repository focuses on "
  const SummaryEllipsis := "..."
  /** How many leading characters of the description the summary quotes. */
  const SummaryCut := 80

  /**
   * What the GitHub listing call gave back. `RequestFailed` is `requests.get` raising
   * (no connection, a timeout); `payload` is `None` when `response.json()` would raise.
   */
  datatype Upstream =
    | Answered(status: int, text: string, payload: Option<Json>)
    | RequestFailed

  /** The Python exceptions the handler's catch-all turns into a 500, one per place it can raise. */
  datatype Fault =
    | BodyNotContainer         // `"org" in data` on a number or a boolean
    | BodyWithoutGet           // `data.get` on a list or a string
    | OrgNotString             // `.strip()` on an `org` value that is not a string
    | UpstreamUnreachable      // `requests.get` raised
    | PayloadNotJson           // `response.json()` raised
    | RepoNotObject            // `repo.get` on a list item that is not a dict
    | DescriptionNotSliceable  // `desc[:80]` on a number, a boolean or a dict
    | StarsNotComparable       // `stars > 0` on None, a string, a list or a dict

  /**
   * The `ai_summary` field. For a string description it is the text itself; Python also
   * slices a list-valued description and the f-string then renders the slice with `repr`,
   * which `QuotedList` records without rendering.
   */
  datatype AiSummary = Sentence(text: string) | QuotedList(slice: seq<Json>)

  /** One entry of the report: `repo_name`, `description`, `stars`, `language`, `github_url`,
      `last_push`, `ai_summary` and `activity_status`. */
  datatype Summary = Summary(
    repoName: Json,
    description: Json,
    stars: Json,
    language: Json,
    githubUrl: Json,
    lastPush: Json,
    aiSummary: AiSummary,
    activityStatus: string)

  /** The JSON body of a response: `{"error": ...}`, the catch-all's `{"error": "Internal server
      error: ..."}`, or `{"message": ..., "report": [...]}`. */
  datatype Body =
    | Error(error: string)
    | InternalError(fault: Fault)
    | Analysis(message: string, report: seq<Summary>)

  datatype Outcome = Outcome(status: int, body: Body)

  /** `response.ok` of the requests library: false exactly for the 4xx and 5xx codes. */
  predicate IsOk(status: int) {
    !(400 <= status < 600)
  }

  /** The body has an `org` key in Python's sense of `"org" in data`; `None` when `in` raises. */
  function HasOrgKey(data: Json): Option<bool> {
    match data
    case JObj(fields) => Some("org" in fields)
    case JArr(items) => Some(JStr("org") in items)
    case JStr(s) => Some(Text.Contains(s, "org"))
    case _ => None
  }

  /** Validation (app.py lines 44-50): the stripped organisation name, or the response returned first. */
  function ValidateRequest(data: Json): (r: Result<string, Outcome>)
    ensures r.Failure? ==> r.error.status == 400 || r.error.status == 500
    ensures r.Success? ==>
      r.value != [] && !Text.IsSpace(Text.Python, r.value[0]) && !Text.IsSpace(Text.Python, r.value[|r.value| - 1])
  {
    if !PyTruthy(data) then Failure(Outcome(400, Error(MissingOrgError)))
    else match HasOrgKey(data)
      case None => Failure(Outcome(500, InternalError(BodyNotContainer)))
      case Some(false) => Failure(Outcome(400, Error(MissingOrgError)))
      case Some(true) =>
        match data
        case JObj(fields) =>
          (match fields["org"]
           case JStr(s) =>
             var org := Text.PyStrip(s);
             if org == [] then Failure(Outcome(400, Error(EmptyOrgError))) else Success(org)
           case _ => Failure(Outcome(500, InternalError(OrgNotString))))
        case _ => Failure(Outcome(500, InternalError(BodyWithoutGet)))
  }

  function NotFoundError(org: string): string {
    "GitHub organization '" + org + "' not found."
  }

  function ApiError(text: string): string {
    "GitHub API error: " + text
  }

  /** Status classification (app.py lines 56-69): the upstream list, or the response it leads to. */
  function ClassifyReply(org: string, reply: Upstream): (r: Result<seq<Json>, Outcome>)
    ensures r.Failure? ==> r.error.status == 404 || r.error.status == 429 || r.error.status == 500
    ensures r.Success? ==>
      reply.Answered? && IsOk(reply.status) && reply.status != 404 && reply.status != 403 &&
      reply.payload == Some(JArr(r.value))
    ensures reply.RequestFailed? ==> r == Failure(Outcome(500, InternalError(UpstreamUnreachable)))
    ensures reply.Answered? && IsOk(reply.status) && reply.payload.None? ==>
      r == Failure(Outcome(500, InternalError(PayloadNotJson)))
    ensures reply.Answered? && IsOk(reply.status) && reply.payload.Some? && reply.payload.value.JArr? ==>
      r == Success(reply.payload.value.items)
  {
    match reply
    case RequestFailed => Failure(Outcome(500, InternalError(UpstreamUnreachable)))
    case Answered(status, text, payload) =>
      if status == 404 then Failure(Outcome(404, Error(NotFoundError(org))))
      else if status == 403 then Failure(Outcome(429, Error(RateLimitError)))
      else if !IsOk(status) then Failure(Outcome(500, Error(ApiError(text))))
      else match payload
        case None => Failure(Outcome(500, InternalError(PayloadNotJson)))
        case Some(JArr(items)) => Success(items)
        case Some(_) => Failure(Outcome(500, Error(FormatError)))
  }

  function Min(a: nat, b: nat): nat {
    if a <= b then a else b
  }

  /** `f"This repository focuses on {desc[:80]}..."`; `None` where the slice raises. */
  function Summarize(desc: Json): (r: Option<AiSummary>)
    ensures r.Some? <==> desc.JStr? || desc.JArr?
    ensures r.Some? ==> (r.value.Sentence? <==> desc.JStr?)
  {
    match desc
    case JStr(s) => Some(Sentence(SummaryPrefix + s[..Min(SummaryCut, |s|)] + SummaryEllipsis))
    case JArr(items) => Some(QuotedList(items[..Min(SummaryCut, |items|)]))
    case _ => None
  }

  /** `stars > 0`, where Python lets a boolean stand for 0 or 1; `None` where the comparison raises. */
  function IsActive(stars: Json): (r: Option<bool>)
    ensures r.Some? <==> stars.JNum? || stars.JBool?
    ensures r == Some(true) <==> (stars.JNum? && stars.n > 0) || stars == JBool(true)
  {
    match stars
    case JNum(n) => Some(n > 0)
    case JBool(b) => Some(b)
    case _ => None
  }

  /** The body of the normalisation loop (app.py lines 73-91) for one upstream item. */
  function NormalizeRepo(repo: Json): (r: Result<Summary, Fault>)
    ensures !repo.JObj? ==> r == Failure(RepoNotObject)
    ensures r.Success? ==> r.value.activityStatus == "Active" || r.value.activityStatus == "Inactive"
    ensures r.Success? ==> PyTruthy(r.value.description) && PyTruthy(r.value.language)
  {
    match repo
    case JObj(f) =>
      var desc := PyOr(PyGet(f, "description", JNull), JStr(DefaultDescription));
      var stars := PyGet(f, "stargazers_count", JNum(0));
      (match (Summarize(desc), IsActive(stars))
       case (None, _) => Failure(DescriptionNotSliceable)
       case (Some(_), None) => Failure(StarsNotComparable)
       case (Some(summary), Some(active)) =>
         Success(Summary(
           PyGet(f, "name", JStr("N/A")),
           desc,
           stars,
           PyOr(PyGet(f, "language", JNull), JStr("N/A")),
           PyGet(f, "html_url", JStr("#")),
           PyGet(f, "pushed_at", JStr("Unknown")),
           summary,
           if active then "Active" else "Inactive")))
    case _ => Failure(RepoNotObject)
  }

  /** The whole loop: the report in upstream order, or the fault of the first item that raises. */
  function NormalizeAll(repos: seq<Json>): Result<seq<Summary>, Fault> {
    MapAll(NormalizeRepo, repos)
  }

  function EmptyMessage(org: string): string {
    "No public repositories found for '" + org + "'."
  }

  function SuccessMessage(count: nat, org: string): string {
    "Successfully analyzed " + Text.NatToDecimal(count) + " repositories for '" + org + "'."
  }

  /** Message choice (app.py lines 93-102). */
  function Respond(org: string, report: seq<Summary>): (r: Outcome)
    ensures r.status == 200 && r.body.Analysis? && r.body.report == report
  {
    if report == [] then Outcome(200, Analysis(EmptyMessage(org), []))
    else Outcome(200, Analysis(SuccessMessage(|report|, org), report))
  }

  /** The loop and the message choice (app.py lines 71-106) for a validated name and an upstream list. */
  function ReportOutcome(org: string, repos: seq<Json>): Outcome {
    match NormalizeAll(repos)
    case Failure(f) => Outcome(500, InternalError(f))
    case Success(report) => Respond(org, report)
  }

  /** The response `analyze` gives for a request body and an upstream reply (app.py lines 41-106). */
  function AnalyzeOutcome(data: Json, reply: Upstream): (r: Outcome)
    ensures r.status in {200, 400, 404, 429, 500}
  {
    match ValidateRequest(data)
    case Failure(early) => early
    case Success(org) =>
      match ClassifyReply(org, reply)
      case Failure(early) => early
      case Success(repos) => ReportOutcome(org, repos)
  }

  /**
   * The `for repo in repos` loop that appends one summary per item, followed by the
   * message choice; an item that raises ends the handler in its catch-all.
   */
  method BuildReport(org: string, repos: seq<Json>) returns (o: Outcome)
    ensures o == ReportOutcome(org, repos)
  {
    var report: seq<Summary> := [];
    var i := 0;
    while i < |repos|
      invariant 0 <= i <= |repos|
      invariant NormalizeAll(repos[..i]) == Success(report)
    {
      var entry := NormalizeRepo(repos[i]);
      assert repos[..i + 1][..i] == repos[..i];
      if entry.Failure? {
        MapAllFailureSticks(NormalizeRepo, repos, i + 1, |repos|);
        assert repos[..|repos|] == repos;
        return Outcome(500, InternalError(entry.error));
      }
      report := report + [entry.value];
      i := i + 1;
    }
    assert repos[..i] == repos;
    if report == [] {
      o := Outcome(200, Analysis(EmptyMessage(org), []));
    } else {
      o := Outcome(200, Analysis(SuccessMessage(|report|, org), report));
    }
  }

  /** The handler: validation, the upstream classification, then the report. */
  method Analyze(data: Json, reply: Upstream) returns (o: Outcome)
    ensures o == AnalyzeOutcome(data, reply)
  {
    var validated := ValidateRequest(data);
    if validated.Failure? {
      return validated.error;
    }
    var org := validated.value;
    var classified := ClassifyReply(org, reply);
    if classified.Failure? {
      return classified.error;
    }
    o := BuildReport(org, classified.value);
  }

  // ---------------------------------------------------------------------------
  // The normalisation loop maps every item, in order

  /** The loop succeeds exactly when every item normalises, and then gives one entry per item, in order. */
  lemma NormalizeAllMaps(repos: seq<Json>)
    ensures NormalizeAll(repos).Success? <==>
      forall i :: 0 <= i < |repos| ==> NormalizeRepo(repos[i]).Success?
    ensures NormalizeAll(repos).Success? ==>
      |NormalizeAll(repos).value| == |repos| &&
      forall i :: 0 <= i < |repos| ==> NormalizeAll(repos).value[i] == NormalizeRepo(repos[i]).value
  {
    MapAllSucceeds(NormalizeRepo, repos);
  }

  /** A failing loop failed at its first item that raises, with that item's fault. */
  lemma FirstFault(repos: seq<Json>) returns (k: nat)
    requires NormalizeAll(repos).Failure?
    ensures k < |repos| && NormalizeRepo(repos[k]) == Failure(NormalizeAll(repos).error)
    ensures forall j :: 0 <= j < k ==> NormalizeRepo(repos[j]).Success?
  {
    k := MapAllFirstFailure(NormalizeRepo, repos);
  }

  // ---------------------------------------------------------------------------
  // Validation

  /** A body that is empty or falsy, or an object without `org`, is refused whatever GitHub would say. */
  lemma MissingOrgRejected(data: Json, reply: Upstream)
    requires !PyTruthy(data) || (data.JObj? && "org" !in data.fields)
    ensures AnalyzeOutcome(data, reply) == Outcome(400, Error(MissingOrgError))
  {
  }

  /** An `org` that is empty or only white space is refused whatever GitHub would say. */
  lemma BlankOrgRejected(fields: map<string, Json>, org: string, reply: Upstream)
    requires "org" in fields && fields["org"] == JStr(org)
    requires forall i :: 0 <= i < |org| ==> Text.IsSpace(Text.Python, org[i])
    ensures AnalyzeOutcome(JObj(fields), reply) == Outcome(400, Error(EmptyOrgError))
  {
  }

  /**
   * Validation passes exactly for an object whose `org` is a string with a character that is
   * not white space, and hands on that string stripped: non-empty and trimmed at both ends.
   */
  lemma ValidationAccepts(data: Json)
    ensures ValidateRequest(data).Success? <==>
      data.JObj? && "org" in data.fields && data.fields["org"].JStr? &&
      exists i :: 0 <= i < |data.fields["org"].s| && !Text.IsSpace(Text.Python, data.fields["org"].s[i])
    ensures ValidateRequest(data).Success? ==>
      var org := ValidateRequest(data).value;
      org == Text.PyStrip(data.fields["org"].s) &&
      org != [] && !Text.IsSpace(Text.Python, org[0]) && !Text.IsSpace(Text.Python, org[|org| - 1])
  {
    match data
    case JObj(fields) =>
      if "org" in fields {
        assert fields != map[];
        match fields["org"]
        case JStr(s) =>
          var org := Text.PyStrip(s);
          assert ValidateRequest(data) ==
            if org == [] then Failure(Outcome(400, Error(EmptyOrgError))) else Success(org);
        case _ =>
      }
    case _ =>
  }

  /**
   * Which bodies that pass the first check still fail, and how: `"org" in data` raises on a
   * number or a boolean; a list or a string that contains "org" has no `get`; an `org` that is
   * not a string has no `strip`. Each is the catch-all 500. A non-empty list or string without
   * "org" is the 400 of a missing key.
   */
  lemma ValidationFaults(data: Json)
    ensures (data.JNum? && data.n != 0) || data == JBool(true) ==>
      ValidateRequest(data) == Failure(Outcome(500, InternalError(BodyNotContainer)))
    ensures data.JArr? && JStr("org") in data.items ==>
      ValidateRequest(data) == Failure(Outcome(500, InternalError(BodyWithoutGet)))
    ensures data.JArr? && data.items != [] && JStr("org") !in data.items ==>
      ValidateRequest(data) == Failure(Outcome(400, Error(MissingOrgError)))
    ensures data.JStr? && Text.Contains(data.s, "org") ==>
      ValidateRequest(data) == Failure(Outcome(500, InternalError(BodyWithoutGet)))
    ensures data.JStr? && data.s != [] && !Text.Contains(data.s, "org") ==>
      ValidateRequest(data) == Failure(Outcome(400, Error(MissingOrgError)))
    ensures data.JObj? && "org" in data.fields && !data.fields["org"].JStr? ==>
      ValidateRequest(data) == Failure(Outcome(500, InternalError(OrgNotString)))
  {
    if data.JArr? && JStr("org") in data.items {
      assert data.items != [];
    }
    if data.JStr? && Text.Contains(data.s, "org") {
      var k := Text.ContainsWitness(data.s, "org");
      assert data.s != [];
    }
    if data.JObj? && "org" in data.fields {
      assert data.fields != map[];
    }
  }

  /** When validation answers, the upstream reply is never consulted. */
  lemma ValidationIgnoresUpstream(data: Json, reply1: Upstream, reply2: Upstream)
    requires ValidateRequest(data).Failure?
    ensures AnalyzeOutcome(data, reply1) == ValidateRequest(data).error
    ensures AnalyzeOutcome(data, reply1) == AnalyzeOutcome(data, reply2)
  {
  }

  // ---------------------------------------------------------------------------
  // Upstream classification

  /**
   * After validation the status rules apply in order: a request that raises is the catch-all,
   * 404 is "not found", 403 always reads as a rate limit, any other 4xx or 5xx is an API error,
   * an OK reply that is not JSON is the catch-all, one that is not a list is a format error,
   * and an OK list goes on to the loop.
   */
  lemma UpstreamStatusOrder(data: Json, org: string, status: int, text: string, payload: Option<Json>)
    requires ValidateRequest(data) == Success(org)
    ensures var o := AnalyzeOutcome(data, Answered(status, text, payload));
      (status == 404 ==> o == Outcome(404, Error(NotFoundError(org)))) &&
      (status == 403 ==> o == Outcome(429, Error(RateLimitError))) &&
      (status != 404 && status != 403 && 400 <= status < 600 ==> o == Outcome(500, Error(ApiError(text)))) &&
      (IsOk(status) && payload.Some? && !payload.value.JArr? ==> o == Outcome(500, Error(FormatError))) &&
      (IsOk(status) && payload.None? ==> o == Outcome(500, InternalError(PayloadNotJson))) &&
      (IsOk(status) && payload.Some? && payload.value.JArr? ==> o == ReportOutcome(org, payload.value.items))
    ensures AnalyzeOutcome(data, RequestFailed) == Outcome(500, InternalError(UpstreamUnreachable))
  {
  }

  // ---------------------------------------------------------------------------
  // The report

  /**
   * When every upstream item normalises, the answer is 200 with one entry per item in
   * upstream order, and the message names the organisation (and the count, if any).
   */
  lemma ReportFollowsUpstream(data: Json, reply: Upstream, org: string, repos: seq<Json>)
    requires ValidateRequest(data) == Success(org) && ClassifyReply(org, reply) == Success(repos)
    requires forall i :: 0 <= i < |repos| ==> NormalizeRepo(repos[i]).Success?
    ensures var o := AnalyzeOutcome(data, reply);
      o.status == 200 && o.body.Analysis? && |o.body.report| == |repos| &&
      (forall i :: 0 <= i < |repos| ==> o.body.report[i] == NormalizeRepo(repos[i]).value) &&
      o.body.message == if repos == [] then EmptyMessage(org) else SuccessMessage(|repos|, org)
  {
    NormalizeAllMaps(repos);
  }

  /** A 200 answer comes only from a validated request, an OK list reply and items that all normalise. */
  lemma OkOnlyFromCleanList(data: Json, reply: Upstream)
    requires AnalyzeOutcome(data, reply).status == 200
    ensures ValidateRequest(data).Success?
    ensures ClassifyReply(ValidateRequest(data).value, reply).Success?
    ensures var repos := ClassifyReply(ValidateRequest(data).value, reply).value;
      forall i :: 0 <= i < |repos| ==> NormalizeRepo(repos[i]).Success?
  {
    var org := ValidateRequest(data).value;
    NormalizeAllMaps(ClassifyReply(org, reply).value);
  }

  /** One item that raises anywhere in the list turns the whole answer into the catch-all 500. */
  lemma FaultyItemFails(data: Json, reply: Upstream, org: string, repos: seq<Json>, k: nat)
    requires ValidateRequest(data) == Success(org) && ClassifyReply(org, reply) == Success(repos)
    requires k < |repos| && NormalizeRepo(repos[k]).Failure?
    ensures AnalyzeOutcome(data, reply).status == 500
    ensures AnalyzeOutcome(data, reply).body.InternalError?
  {
    NormalizeAllMaps(repos);
  }

  /** `desc[:80]` can be taken: a Python-true `description` is a string or a list. */
  predicate DescriptionSliceable(f: map<string, Json>) {
    "description" in f && PyTruthy(f["description"]) ==> f["description"].JStr? || f["description"].JArr?
  }

  /** `stars > 0` can be evaluated: a present `stargazers_count` is a number or a boolean. */
  predicate StarsComparable(f: map<string, Json>) {
    "stargazers_count" in f ==> f["stargazers_count"].JNum? || f["stargazers_count"].JBool?
  }

  /**
   * Exactly which objects normalise: a Python-true `description` must be a string or a list
   * (the slice `desc[:80]`), and a present `stargazers_count` must be a number or a boolean
   * (the comparison `stars > 0`).
   */
  lemma NormalizesIff(f: map<string, Json>)
    ensures NormalizeRepo(JObj(f)).Success? <==> DescriptionSliceable(f) && StarsComparable(f)
  {
  }

  /** A failing object fails at the slice first, and only otherwise at the comparison. */
  lemma NormalizeFaultOrder(f: map<string, Json>)
    ensures !DescriptionSliceable(f) ==> NormalizeRepo(JObj(f)) == Failure(DescriptionNotSliceable)
    ensures DescriptionSliceable(f) && !StarsComparable(f) ==> NormalizeRepo(JObj(f)) == Failure(StarsNotComparable)
  {
  }

  /** An item that is not an object, or whose `stargazers_count` is null, raises (lines 73 and 90). */
  lemma RaisingItems(repo: Json)
    ensures !repo.JObj? ==> NormalizeRepo(repo) == Failure(RepoNotObject)
    ensures repo.JObj? && "stargazers_count" in repo.fields && repo.fields["stargazers_count"] == JNull
      ==> NormalizeRepo(repo).Failure?
  {
  }

  /**
   * Field defaults: `description` and `language` fall back when missing or Python-false (null,
   * empty); `name`, `html_url`, `stargazers_count` and `pushed_at` fall back only when absent,
   * so a present null is kept. The entry's `ai_summary` quotes the entry's own description.
   */
  lemma FieldDefaults(f: map<string, Json>)
    requires NormalizeRepo(JObj(f)).Success?
    ensures var s := NormalizeRepo(JObj(f)).value;
      (("description" !in f || !PyTruthy(f["description"])) ==> s.description == JStr(DefaultDescription)) &&
      (("description" in f && PyTruthy(f["description"])) ==> s.description == f["description"]) &&
      (("language" !in f || !PyTruthy(f["language"])) ==> s.language == JStr("N/A")) &&
      (("language" in f && PyTruthy(f["language"])) ==> s.language == f["language"]) &&
      ("name" !in f ==> s.repoName == JStr("N/A")) && ("name" in f ==> s.repoName == f["name"]) &&
      ("html_url" !in f ==> s.githubUrl == JStr("#")) && ("html_url" in f ==> s.githubUrl == f["html_url"]) &&
      ("stargazers_count" !in f ==> s.stars == JNum(0)) &&
      ("stargazers_count" in f ==> s.stars == f["stargazers_count"]) &&
      ("pushed_at" !in f ==> s.lastPush == JStr("Unknown")) && ("pushed_at" in f ==> s.lastPush == f["pushed_at"]) &&
      Summarize(s.description) == Some(s.aiSummary) &&
      (s.description.JStr? ==>
        s.aiSummary == Sentence(SummaryPrefix + s.description.s[..Min(SummaryCut, |s.description.s|)] + SummaryEllipsis))
  {
  }

  /** A present null `name` or `html_url` stays null, while a null `description` or `language` is replaced. */
  lemma PresentNullKept(f: map<string, Json>)
    requires NormalizeRepo(JObj(f)).Success?
    ensures var s := NormalizeRepo(JObj(f)).value;
      ("name" in f && f["name"] == JNull ==> s.repoName == JNull) &&
      ("html_url" in f && f["html_url"] == JNull ==> s.githubUrl == JNull) &&
      ("description" in f && f["description"] == JNull ==> s.description == JStr(DefaultDescription)) &&
      ("language" in f && f["language"] == JNull ==> s.language == JStr("N/A"))
  {
  }

  /**
   * The summary of a string description: the fixed prefix, at most 80 quoted characters and
   * "...", so at most 110 characters; a description of 80 characters or fewer is quoted whole.
   */
  lemma SummaryOfText(d: string)
    ensures Summarize(JStr(d)).Some? && Summarize(JStr(d)).value.Sentence?
    ensures var t := Summarize(JStr(d)).value.text;
      |t| <= 27 + 80 + 3 &&
      t[..27] == SummaryPrefix && t[|t| - 3..] == SummaryEllipsis &&
      t[27..|t| - 3] == d[..Min(80, |d|)] &&
      (|d| <= 80 ==> t == SummaryPrefix + d + SummaryEllipsis && Text.Contains(t, d)) &&
      (|d| > 80 ==> |t| == 110)
  {
    var t := Summarize(JStr(d)).value.text;
    if |d| <= 80 {
      assert t[27..27 + |d|] == d;
      Text.ContainsAt(t, d, 27);
    }
  }

  /**
   * The summary of a list description records the list's first 80 items, in order; a list of
   * 80 items or fewer is recorded whole.
   */
  lemma SummaryOfList(items: seq<Json>)
    ensures Summarize(JArr(items)).Some? && Summarize(JArr(items)).value.QuotedList?
    ensures var q := Summarize(JArr(items)).value.slice;
      |q| == Min(80, |items|) && q <= items &&
      (|items| <= 80 ==> q == items)
  {
  }

  /**
   * `activity_status` is "Active" exactly when the star count is above zero (a Python boolean
   * counting as 0 or 1), and "Inactive" otherwise; an absent count reads as 0.
   */
  lemma ActivityStatus(f: map<string, Json>)
    requires NormalizeRepo(JObj(f)).Success?
    ensures var s := NormalizeRepo(JObj(f)).value;
      (s.activityStatus == "Active" || s.activityStatus == "Inactive") &&
      (s.activityStatus == "Active" <==> (s.stars.JNum? && s.stars.n > 0) || s.stars == JBool(true)) &&
      ("stargazers_count" !in f ==> s.activityStatus == "Inactive")
  {
  }

  /** An empty upstream list gives 200 with an empty report and the "No public repositories" message. */
  lemma EmptyListMessage(data: Json, reply: Upstream, org: string)
    requires ValidateRequest(data) == Success(org) && ClassifyReply(org, reply) == Success([])
    ensures AnalyzeOutcome(data, reply) == Outcome(200, Analysis(EmptyMessage(org), []))
  {
  }

  /** A non-empty report's message states its length in decimal, which reads back as that length. */
  lemma CountInMessage(org: string, report: seq<Summary>)
    requires report != []
    ensures Respond(org, report).body.message ==
      "Successfully analyzed " + Text.NatToDecimal(|report|) + " repositories for '" + org + "'."
    ensures Text.DecimalValue(Text.NatToDecimal(|report|)) == |report|
  {
    Text.DecimalRoundTrip(|report|);
  }
}
