/**
 * The browser script: the guard on the organisation field, what it takes from the
 * server's answer, the stars-descending sort it applies in place, and the per-card
 * field defaults. The DOM, `fetch` and `alert` are not modelled; each step returns the
 * values the page would show.
 */
module Frontend {
  import opened Wrappers
  import opened Json
  import Text

  const ServerErrorText := "Server error occurred"

  /** What pressing "Analyze" leads to: a prompt for a name, or a request for the trimmed name. */
  datatype Start = PromptForName | Request(org: string)

  /** The guard of `startAnalysis` (script.js lines 22-27): nothing is sent for a blank field. */
  function StartAnalysis(input: string): (r: Start)
    ensures r.PromptForName? <==> forall i :: 0 <= i < |input| ==> Text.IsSpace(Text.JavaScript, input[i])
    ensures r.Request? ==> r.org == Text.JsTrim(input)
    ensures r.Request? ==>
      r.org != [] && !Text.IsSpace(Text.JavaScript, r.org[0]) && !Text.IsSpace(Text.JavaScript, r.org[|r.org| - 1])
  {
    var orgName := Text.JsTrim(input);
    if orgName == [] then PromptForName else Request(orgName)
  }

  /** What the page takes from the server's answer. */
  datatype Received =
    | ServerError(message: Json)  // the value `new Error(...)` is built from
    | ScriptError                 // `response.json()` rejected, or a property of `null` was read
    | Loaded(report: seq<Json>)

  /**
   * Lines 41-44: on a non-OK answer the error is `data.error` when truthy and the fixed
   * text otherwise; on an OK answer a `report` that is not an array counts as empty.
   */
  function HandleResponse(ok: bool, data: Option<Json>): (r: Received)
    ensures r.ScriptError? <==> data.None? || data == Some(JNull)
    ensures r.ServerError? ==> !ok && JsTruthy(r.message)
    ensures r.Loaded? ==> ok
    ensures (ok && data.Some? && data.value.JObj? && "report" in data.value.fields &&
             data.value.fields["report"].JArr?) ==> r == Loaded(data.value.fields["report"].items)
  {
    match data
    case None => ScriptError
    case Some(JNull) => ScriptError
    case Some(v) =>
      if !ok then ServerError(JsOr(JsProp(v, "error"), JStr(ServerErrorText)))
      else match JsProp(v, "report")
        case Some(JArr(items)) => Loaded(items)
        case _ => Loaded([])
  }

  /** A non-OK answer shows the server's truthy `error`, and otherwise "Server error occurred". */
  lemma ErrorMessageChoice(fields: map<string, Json>)
    ensures "error" in fields && JsTruthy(fields["error"]) ==>
      HandleResponse(false, Some(JObj(fields))) == ServerError(fields["error"])
    ensures !("error" in fields && JsTruthy(fields["error"])) ==>
      HandleResponse(false, Some(JObj(fields))) == ServerError(JStr(ServerErrorText))
  {
  }

  /** A non-OK answer that is an array, string, number or boolean has no `error`: "Server error occurred". */
  lemma NonObjectErrorMessage(v: Json)
    requires v != JNull && !v.JObj?
    ensures HandleResponse(false, Some(v)) == ServerError(JStr(ServerErrorText))
  {
  }

  /** An OK answer whose `report` is missing or not an array is displayed as an empty report. */
  lemma NonArrayReportIsEmpty(data: Json)
    requires data != JNull
    requires !(data.JObj? && "report" in data.fields && data.fields["report"].JArr?)
    ensures HandleResponse(true, Some(data)) == Loaded([])
  {
  }

  // ---------------------------------------------------------------------------
  // Sorting by stars

  /**
   * `repo.stars || 0` as the comparator's subtraction reads it. It is applied only to
   * elements that are not null.
   */
  function StarKey(repo: Json): (r: int)
  {
    match JsOr(JsProp(repo, "stars"), JNum(0))
    case JNum(n) => n
    case JBool(b) => if b then 1 else 0
    case _ => 0
  }

  /**
   * The sort key is the numeric `stars` when there is one; a missing count is 0 and a boolean
   * counts as 1 or 0, as JavaScript's subtraction reads it.
   */
  lemma StarKeyOfStars(repo: Json)
    ensures JsProp(repo, "stars").None? ==> StarKey(repo) == 0
    ensures JsProp(repo, "stars").Some? && JsProp(repo, "stars").value.JNum? ==>
      StarKey(repo) == JsProp(repo, "stars").value.n
    ensures JsProp(repo, "stars").Some? && JsProp(repo, "stars").value.JBool? ==>
      StarKey(repo) == if JsProp(repo, "stars").value.b then 1 else 0
    ensures JsProp(repo, "stars").Some? && !JsTruthy(JsProp(repo, "stars").value) ==> StarKey(repo) == 0
  {
  }

  /** Non-increasing by star count. */
  predicate SortedByStars(s: seq<Json>) {
    forall p, q :: 0 <= p < q < |s| ==> StarKey(s[p]) >= StarKey(s[q])
  }

  /**
   * Exchanges two neighbouring entries inside `a[..i + 1]`, keeping the entries of that
   * prefix and leaving the rest of the array as it was.
   */
  method SwapDown(a: array<Json>, j: nat, i: nat)
    requires 0 < j <= i < a.Length
    modifies a
    ensures a[..] == old(a[..])[j - 1 := old(a[j])][j := old(a[j - 1])]
    ensures multiset(a[..i + 1]) == old(multiset(a[..i + 1]))
    ensures a[i + 1..] == old(a[i + 1..])
  {
    a[j - 1], a[j] := a[j], a[j - 1];
    assert a[..i + 1] == old(a[..i + 1])[j - 1 := old(a[j])][j := old(a[j - 1])];
  }

  /** Two sequences with the same entries before `k` and the same tail from `k` have the same entries. */
  lemma SameEntries(s: seq<Json>, t: seq<Json>, k: nat)
    requires k <= |s| && k <= |t| && multiset(s[..k]) == multiset(t[..k]) && s[k..] == t[k..]
    ensures multiset(s) == multiset(t)
  {
    assert s == s[..k] + s[k..];
    assert t == t[..k] + t[k..];
  }

  /**
   * The state of one insertion step: `s[..i + 1]` is in order except for the entry at `j`,
   * which has at least as many stars as everything after it.
   */
  predicate Inserting(s: seq<Json>, i: nat, j: nat) {
    j <= i < |s| &&
    (forall p, q :: 0 <= p < q <= i && p != j && q != j ==> StarKey(s[p]) >= StarKey(s[q])) &&
    (forall q :: j < q <= i ==> StarKey(s[j]) >= StarKey(s[q]))
  }

  /** Swapping the moving entry with a neighbour that has fewer stars keeps the step's state. */
  lemma InsertingStep(s: seq<Json>, i: nat, j: nat)
    requires Inserting(s, i, j) && 0 < j && StarKey(s[j - 1]) < StarKey(s[j])
    ensures Inserting(s[j - 1 := s[j]][j := s[j - 1]], i, j - 1)
  {
  }

  /** The step ends once the moving entry's left neighbour has at least as many stars. */
  lemma InsertingDone(s: seq<Json>, i: nat, j: nat)
    requires Inserting(s, i, j) && (j == 0 || StarKey(s[j - 1]) >= StarKey(s[j]))
    ensures SortedByStars(s[..i + 1])
  {
  }

  /** One swap of the insertion step: the moving entry passes a neighbour with fewer stars. */
  method InsertStep(a: array<Json>, i: nat, j: nat)
    requires Inserting(a[..], i, j) && 0 < j && StarKey(a[j - 1]) < StarKey(a[j])
    modifies a
    ensures Inserting(a[..], i, j - 1)
    ensures multiset(a[..i + 1]) == old(multiset(a[..i + 1]))
    ensures a[i + 1..] == old(a[i + 1..])
  {
    InsertingStep(a[..], i, j);
    SwapDown(a, j, i);
  }

  /** Moves `a[i]` left past every entry with fewer stars, so that `a[..i + 1]` is sorted. */
  method InsertDown(a: array<Json>, i: nat)
    requires i < a.Length && SortedByStars(a[..i])
    modifies a
    ensures SortedByStars(a[..i + 1])
    ensures multiset(a[..i + 1]) == old(multiset(a[..i + 1]))
    ensures a[i + 1..] == old(a[i + 1..])
    ensures multiset(a[..]) == old(multiset(a[..]))
  {
    var j: nat := i;
    assert Inserting(a[..], i, j);
    while j > 0 && StarKey(a[j - 1]) < StarKey(a[j])
      invariant Inserting(a[..], i, j)
      invariant multiset(a[..i + 1]) == old(multiset(a[..i + 1]))
      invariant a[i + 1..] == old(a[i + 1..])
    {
      InsertStep(a, i, j);
      j := j - 1;
    }
    InsertingDone(a[..], i, j);
    assert a[..][..i + 1] == a[..i + 1];
    SameEntries(a[..], old(a[..]), i + 1);
  }

  /**
   * `report.sort((a, b) => (b.stars || 0) - (a.stars || 0))` (line 66): afterwards the array
   * holds the same repositories, ordered by star count from most to fewest.
   */
  method SortByStars(a: array<Json>)
    modifies a
    ensures SortedByStars(a[..])
    ensures multiset(a[..]) == old(multiset(a[..]))
  {
    var i := 0;
    while i < a.Length
      invariant 0 <= i <= a.Length
      invariant SortedByStars(a[..i])
      invariant multiset(a[..]) == old(multiset(a[..]))
    {
      InsertDown(a, i);
      i := i + 1;
    }
    assert a[..i] == a[..];
  }

  // ---------------------------------------------------------------------------
  // Cards

  /** What one card shows; `statusClass` is the CSS class of its status badge. */
  datatype Card = Card(
    name: Json,
    url: Json,
    description: Json,
    aiSummary: Json,
    activityStatus: string,
    statusClass: string,
    stars: Json,
    language: Json)

  /**
   * The throws of building a card that the model covers: `null.repo_name`, and `toLowerCase` on
   * a status that is not a string. String conversion of field values is not modelled.
   */
  datatype CardFault = NullRepo | StatusNotString

  /** Line 86: "active" when the lower-cased status contains "active", else "inactive". */
  function StatusClass(status: string): (r: string)
    ensures r == "active" || r == "inactive"
  {
    if Text.Contains(Text.AsciiLower(status), "active") then "active" else "inactive"
  }

  /** The per-card derivation of `renderCards` (lines 81-88), with JavaScript's truthiness defaults. */
  function CardOf(repo: Json): (r: Result<Card, CardFault>)
    ensures repo == JNull ==> r == Failure(NullRepo)
    ensures r.Success? ==>
      JsTruthy(r.value.name) && JsTruthy(r.value.url) && JsTruthy(r.value.description) &&
      JsTruthy(r.value.aiSummary) && r.value.activityStatus != [] && JsTruthy(r.value.language) &&
      r.value.statusClass == StatusClass(r.value.activityStatus)
  {
    if repo == JNull then Failure(NullRepo)
    else match JsOr(JsProp(repo, "activity_status"), JStr("Unknown"))
      case JStr(status) =>
        Success(Card(
          JsOr(JsProp(repo, "repo_name"), JStr("Unnamed Repository")),
          JsOr(JsProp(repo, "github_url"), JStr("#")),
          JsOr(JsProp(repo, "description"), JStr("No description available.")),
          JsOr(JsProp(repo, "ai_summary"), JStr("No AI summary available.")),
          status,
          StatusClass(status),
          JsOr(JsProp(repo, "stars"), JNum(0)),
          JsOr(JsProp(repo, "language"), JStr("N/A"))))
      case _ => Failure(StatusNotString)
  }

  /** The cards of a list of repositories, in list order, or the fault of the first that throws. */
  function Cards(repos: seq<Json>): Result<seq<Card>, CardFault> {
    MapAll(CardOf, repos)
  }

  /** `renderCards` (lines 78-109): the `forEach` that appends one card per repository. */
  method RenderCards(repos: array<Json>) returns (cards: Result<seq<Card>, CardFault>)
    ensures cards == Cards(repos[..])
  {
    var shown: seq<Card> := [];
    var i := 0;
    while i < repos.Length
      invariant 0 <= i <= repos.Length
      invariant Cards(repos[..i]) == Success(shown)
    {
      var card := CardOf(repos[i]);
      assert repos[..i + 1][..i] == repos[..i];
      if card.Failure? {
        MapAllFailureSticks(CardOf, repos[..], i + 1, repos.Length);
        assert repos[..][..i + 1] == repos[..i + 1];
        assert repos[..][..repos.Length] == repos[..];
        return Failure(card.error);
      }
      shown := shown + [card.value];
      i := i + 1;
    }
    assert repos[..i] == repos[..];
    cards := Success(shown);
  }

  /** Rendering succeeds exactly when every repository gives a card, and then shows one card per repository, in order. */
  lemma CardsMaps(repos: seq<Json>)
    ensures Cards(repos).Success? <==> forall i :: 0 <= i < |repos| ==> CardOf(repos[i]).Success?
    ensures Cards(repos).Success? ==>
      |Cards(repos).value| == |repos| &&
      forall i :: 0 <= i < |repos| ==> Cards(repos).value[i] == CardOf(repos[i]).value
  {
    MapAllSucceeds(CardOf, repos);
  }

  /**
   * The status class is "active" exactly when the lower-cased status has "active" somewhere
   * in it; so "Active" and "Inactive" both give "active", and only a status such as
   * "Unknown" gives "inactive".
   */
  lemma StatusClassActiveIff(status: string)
    ensures StatusClass(status) == "active" <==>
      exists k :: Text.OccursAt(Text.AsciiLower(status), "active", k)
  {
    var lower := Text.AsciiLower(status);
    if Text.Contains(lower, "active") {
      var k := Text.ContainsWitness(lower, "active");
      assert Text.OccursAt(lower, "active", k);
    } else {
      forall k: nat | Text.OccursAt(lower, "active", k)
        ensures false
      {
        Text.ContainsAt(lower, "active", k);
      }
    }
  }

  /** Both statuses the backend sends are drawn as active; the card's own default is not. */
  lemma StatusClassQuirk()
    ensures StatusClass("Active") == "active"
    ensures StatusClass("Inactive") == "active"
    ensures StatusClass("Unknown") == "inactive"
  {
    assert Text.AsciiLower("Active") == "active";
    Text.ContainsAt("active", "active", 0);
    assert Text.AsciiLower("Inactive") == "inactive";
    assert "inactive"[2..8] == "active";
    Text.ContainsAt("inactive", "active", 2);
    assert Text.AsciiLower("Unknown") == "unknown";
    assert "unknown"[..6][0] != "active"[0];
    assert "unknown"[1..][..6][0] != "active"[0];
    assert |"unknown"[1..][1..]| < 6;
  }

  /**
   * Card defaults use JavaScript truthiness: a missing, null, false, zero or empty value is
   * replaced, anything else is shown as it is.
   */
  lemma CardDefaults(fields: map<string, Json>)
    requires !("activity_status" in fields && JsTruthy(fields["activity_status"]) && !fields["activity_status"].JStr?)
    ensures CardOf(JObj(fields)).Success?
    ensures var c := CardOf(JObj(fields)).value;
      c.name == (if "repo_name" in fields && JsTruthy(fields["repo_name"]) then fields["repo_name"] else JStr("Unnamed Repository")) &&
      c.url == (if "github_url" in fields && JsTruthy(fields["github_url"]) then fields["github_url"] else JStr("#")) &&
      c.description == (if "description" in fields && JsTruthy(fields["description"]) then fields["description"] else JStr("No description available.")) &&
      c.aiSummary == (if "ai_summary" in fields && JsTruthy(fields["ai_summary"]) then fields["ai_summary"] else JStr("No AI summary available.")) &&
      JStr(c.activityStatus) == (if "activity_status" in fields && JsTruthy(fields["activity_status"]) then fields["activity_status"] else JStr("Unknown")) &&
      c.stars == (if "stars" in fields && JsTruthy(fields["stars"]) then fields["stars"] else JNum(0)) &&
      c.language == (if "language" in fields && JsTruthy(fields["language"]) then fields["language"] else JStr("N/A")) &&
      c.statusClass == StatusClass(c.activityStatus)
  {
  }

  /**
   * An entry that is neither null nor an object (a string, number, boolean or array) has none
   * of the card's properties, so its card shows every default.
   */
  lemma NonObjectCard(repo: Json)
    requires repo != JNull && !repo.JObj?
    ensures CardOf(repo) == Success(Card(JStr("Unnamed Repository"), JStr("#"), JStr("No description available."),
      JStr("No AI summary available."), "Unknown", StatusClass("Unknown"), JNum(0), JStr("N/A")))
  {
  }

  /** Building a card throws for a null entry and for a truthy status that is not a string. */
  lemma CardFaults(repo: Json)
    ensures repo == JNull ==> CardOf(repo) == Failure(NullRepo)
    ensures (repo.JObj? && "activity_status" in repo.fields && JsTruthy(repo.fields["activity_status"]) &&
             !repo.fields["activity_status"].JStr?) ==> CardOf(repo) == Failure(StatusNotString)
  {
  }

  /** The results header (lines 56-62). */
  function Header(count: nat, orgName: string): string {
    if count == 0 then "No repositories found for \"" + orgName + "\""
    else "Analysis Report (" + Text.NatToDecimal(count) + " Repos)"
  }

  /**
   * `displayResults` (lines 55-67): an empty report only sets the "No repositories" header;
   * otherwise the header counts the repositories, the array is sorted in place by stars and
   * the cards are rendered in the sorted order. A null entry makes the script throw.
   */
  method DisplayResults(report: array<Json>, orgName: string) returns (header: string, cards: Result<seq<Card>, CardFault>)
    modifies report
    ensures header == Header(report.Length, orgName)
    ensures report.Length == 0 ==> cards == Success([])
    ensures JNull in old(report[..]) ==> report[..] == old(report[..]) && cards == Failure(NullRepo)
    ensures report.Length > 0 && JNull !in old(report[..]) ==>
      SortedByStars(report[..]) && multiset(report[..]) == multiset(old(report[..])) &&
      cards == Cards(report[..])
  {
    header := Header(report.Length, orgName);
    if report.Length == 0 {
      return header, Success([]);
    }
    if JNull in report[..] {
      return header, Failure(NullRepo);
    }
    SortByStars(report);
    cards := RenderCards(report);
  }

  /** The header of a non-empty report reads back as the number of repositories. */
  lemma HeaderCount(count: nat, orgName: string)
    requires count > 0
    ensures Header(count, orgName) == "Analysis Report (" + Text.NatToDecimal(count) + " Repos)"
    ensures Text.DecimalValue(Text.NatToDecimal(count)) == count
  {
    Text.DecimalRoundTrip(count);
  }
}
