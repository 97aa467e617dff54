/**
 * How the two halves meet: the backend's summaries as the browser reads them, and the
 * two different notions of white space the two guards use.
 */
module Interplay {
  import opened Wrappers
  import opened Json
  import Text
  import Backend
  import Frontend

  /** A summary as `jsonify` writes it, for the summaries whose `ai_summary` is a plain string. */
  function SummaryJson(s: Backend.Summary): Json
    requires s.aiSummary.Sentence?
  {
    JObj(map[
      "repo_name" := s.repoName,
      "description" := s.description,
      "stars" := s.stars,
      "language" := s.language,
      "github_url" := s.githubUrl,
      "last_push" := s.lastPush,
      "ai_summary" := JStr(s.aiSummary.text),
      "activity_status" := JStr(s.activityStatus)])
  }

  /** The fields of a serialised summary that a card reads. */
  lemma SummaryJsonFields(s: Backend.Summary)
    requires s.aiSummary.Sentence?
    ensures var f := SummaryJson(s).fields;
      "ai_summary" in f && f["ai_summary"] == JStr(s.aiSummary.text) &&
      "activity_status" in f && f["activity_status"] == JStr(s.activityStatus) &&
      "repo_name" in f && f["repo_name"] == s.repoName &&
      "description" in f && f["description"] == s.description &&
      "language" in f && f["language"] == s.language &&
      "stars" in f && f["stars"] == s.stars &&
      "github_url" in f && f["github_url"] == s.githubUrl &&
      "last_push" in f && f["last_push"] == s.lastPush
  {
  }

  /** Whatever the star count, every repository the backend reports gets the "active" badge. */
  lemma BackendStatusesDrawnActive(repo: Json)
    requires Backend.NormalizeRepo(repo).Success?
    ensures Frontend.StatusClass(Backend.NormalizeRepo(repo).value.activityStatus) == "active"
  {
    Backend.ActivityStatus(repo.fields);
    Frontend.StatusClassQuirk();
  }

  /** The card of a serialised summary with a non-empty text summary and a backend status. */
  lemma CardOfSummary(s: Backend.Summary)
    requires s.aiSummary.Sentence? && s.aiSummary.text != []
    requires s.activityStatus == "Active" || s.activityStatus == "Inactive"
    ensures Frontend.CardOf(SummaryJson(s)).Success?
    ensures var c := Frontend.CardOf(SummaryJson(s)).value;
      c.aiSummary == JStr(s.aiSummary.text) &&
      c.activityStatus == s.activityStatus && c.statusClass == "active" &&
      (s.repoName == JNull ==> c.name == JStr("Unnamed Repository")) &&
      (PyTruthy(s.description) ==> c.description == s.description) &&
      (PyTruthy(s.language) ==> c.language == s.language) &&
      (JsTruthy(s.githubUrl) ==> c.url == s.githubUrl) &&
      (!JsTruthy(s.githubUrl) ==> c.url == JStr("#")) &&
      (s.stars.JNum? ==> Frontend.StarKey(SummaryJson(s)) == s.stars.n)
  {
    SummaryJsonFields(s);
    TruthinessDiffersOnEmptyContainers(s.description);
    TruthinessDiffersOnEmptyContainers(s.language);
    Frontend.StarKeyOfStars(SummaryJson(s));
    Frontend.CardDefaults(SummaryJson(s).fields);
    Frontend.StatusClassQuirk();
  }

  /**
   * A summary the backend built becomes a card that shows the backend's `ai_summary` (it is
   * never empty) and its status, always with the "active" badge; its description and language
   * are the backend's, since the backend's `or` has already replaced every value the browser's
   * `||` would replace; a null name kept by the backend shows as "Unnamed Repository", and a
   * numeric star count is the sort key.
   */
  lemma SummaryCard(repo: Json)
    requires Backend.NormalizeRepo(repo).Success?
    requires Backend.NormalizeRepo(repo).value.aiSummary.Sentence?
    ensures var s := Backend.NormalizeRepo(repo).value;
      Frontend.CardOf(SummaryJson(s)).Success? &&
      var c := Frontend.CardOf(SummaryJson(s)).value;
      c.aiSummary == JStr(s.aiSummary.text) &&
      c.activityStatus == s.activityStatus && c.statusClass == "active" &&
      (s.repoName == JNull ==> c.name == JStr("Unnamed Repository")) &&
      c.description == s.description && c.language == s.language &&
      (s.stars.JNum? ==> Frontend.StarKey(SummaryJson(s)) == s.stars.n)
  {
    var s := Backend.NormalizeRepo(repo).value;
    Backend.ActivityStatus(repo.fields);
    assert s.aiSummary.text != [] by {
      Backend.SummaryOfText(s.description.s);
    }
    CardOfSummary(s);
  }

  /**
   * The name the browser sends is its trimmed field. The backend strips it once more: it
   * answers "cannot be empty" when Python's `strip()` leaves nothing, and otherwise works with
   * the stripped name, which is the sent name itself when that does not start or end with
   * Python white space.
   */
  lemma SentNameReachesBackend(input: string)
    requires Frontend.StartAnalysis(input).Request?
    ensures var org := Frontend.StartAnalysis(input).org;
      org == Text.JsTrim(input) &&
      Backend.ValidateRequest(JObj(map["org" := JStr(org)])) ==
        (if Text.PyStrip(org) == [] then Failure(Backend.Outcome(400, Backend.Error(Backend.EmptyOrgError)))
         else Success(Text.PyStrip(org)))
    ensures var org := Frontend.StartAnalysis(input).org;
      !Text.IsSpace(Text.Python, org[0]) && !Text.IsSpace(Text.Python, org[|org| - 1]) ==>
      Backend.ValidateRequest(JObj(map["org" := JStr(org)])) == Success(org)
  {
    var org := Frontend.StartAnalysis(input).org;
    var fields := map["org" := JStr(org)];
    assert "org" in fields && fields != map[];
    assert Backend.HasOrgKey(JObj(fields)) == Some(true);
    if !Text.IsSpace(Text.Python, org[0]) && !Text.IsSpace(Text.Python, org[|org| - 1]) {
      Text.TrimKeepsTrimmed(org, Text.Python);
    }
  }

  /**
   * The browser's guard lets through a name the backend then refuses: U+001C is white space
   * to Python's `strip()` but not to JavaScript's `trim()`.
   */
  lemma GuardsDisagree()
    ensures Frontend.StartAnalysis("\U{1C}") == Frontend.Request("\U{1C}")
    ensures Backend.ValidateRequest(JObj(map["org" := JStr("\U{1C}")])) ==
      Failure(Backend.Outcome(400, Backend.Error(Backend.EmptyOrgError)))
  {
    var name := "\U{1C}";
    assert !Text.JsIsSpace(name[0]);
    assert Text.SkipSpaces(name, Text.JavaScript, 0) == 0;
    assert Text.JsTrim(name) == name;
    assert Text.PyIsSpace(name[0]);
    assert Text.PyStrip(name) == [];
    var fields := map["org" := JStr(name)];
    assert "org" in fields && fields != map[];
    assert Backend.HasOrgKey(JObj(fields)) == Some(true);
  }
}
