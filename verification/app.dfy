/** The pure helpers of the web front end (app.py): display names, redirects,
    the database-error page, and the chat protocol of the analyse page on top
    of the result store. */
module App {
  import opened Wrappers
  import opened Text
  import opened ResultStore
  import Catalog

  // ---------------------------------------------------------------------------
  // Display names
  // ---------------------------------------------------------------------------

  /** `PROCEDURES`: menu label -> stored procedure name. */
  const Procedures: map<string, string> := map[
    "Blitz" := "sp_Blitz",
    "Blitz Index" := "sp_BlitzIndex",
    "Blitz Cache" := "sp_BlitzCache"]

  /** `PROCEDURES_ID_MAPPING`: stored procedure name -> id field of its records. */
  const ProceduresIdMapping: map<string, string> := map[
    "sp_Blitz" := "pb_id",
    "sp_BlitzIndex" := "pbi_id",
    "sp_BlitzCache" := "pbc_id"]

  /** The menu label of a procedure. */
  function DisplayName(p: Catalog.Procedure): string {
    match p
    case Blitz => "Blitz"
    case BlitzIndex => "Blitz Index"
    case BlitzCache => "Blitz Cache"
  }

  /** `get_procedure_name`: a menu label becomes its procedure name; any
      other string passes through. */
  function GetProcedureName(displayName: string): (name: string)
    ensures displayName !in Procedures ==> name == displayName
    ensures displayName in Procedures ==> name in Catalog.ProcedureNames
  {
    if displayName in Procedures then Procedures[displayName] else displayName
  }

  /** Every procedure is reached from its menu label, and the labels are
      exactly the keys of `PROCEDURES`. */
  lemma ProcedureNameOfDisplayName(p: Catalog.Procedure)
    ensures DisplayName(p) in Procedures
    ensures GetProcedureName(DisplayName(p)) == Catalog.Name(p)
    ensures Procedures.Keys == {DisplayName(Catalog.Blitz), DisplayName(Catalog.BlitzIndex), DisplayName(Catalog.BlitzCache)}
  {
  }

  /** A name is a catalogued procedure after translation iff it was a menu
      label or already a procedure name; translating twice changes nothing. */
  lemma GetProcedureNameCanonical(displayName: string)
    ensures GetProcedureName(displayName) in Catalog.ProcedureNames
        <==> displayName in Procedures || displayName in Catalog.ProcedureNames
    ensures GetProcedureName(GetProcedureName(displayName)) == GetProcedureName(displayName)
  {
    assert Procedures.Keys !! Catalog.ProcedureNames;
  }

  /** `PROCEDURES_ID_MAPPING` is the catalog's id-field table. */
  lemma IdMappingAgreesWithCatalog()
    ensures ProceduresIdMapping == Catalog.IdFields
  {
  }

  /** `PROCEDURES_ID_MAPPING.get(name, "pb_id")`: the field the agent is given
      as the record's id. */
  function RecordIdField(procedureName: string): (field: string)
    ensures procedureName in Catalog.ProcedureNames ==> field == Catalog.IdFields[procedureName]
    ensures procedureName !in Catalog.ProcedureNames ==> field == "pb_id"
  {
    if procedureName in ProceduresIdMapping then ProceduresIdMapping[procedureName] else "pb_id"
  }

  // ---------------------------------------------------------------------------
  // Redirects
  // ---------------------------------------------------------------------------

  /** The page a redirect goes to; `url_for` itself is not modelled. */
  datatype Route = Administration | Recommendations | ProcedurePage(displayName: string)

  /** `redirect_to_display_name`. */
  function RedirectToDisplayName(displayName: string): (r: Route)
    ensures r == Administration <==> displayName == "Administration"
    ensures r == Recommendations <==> displayName == "Recommendations"
    ensures r.ProcedurePage? ==> r.displayName == displayName
  {
    if displayName == "Administration" then Administration
    else if displayName == "Recommendations" then Recommendations
    else ProcedurePage(displayName)
  }

  /** Every name that is not one of the two fixed pages lands on its own
      procedure page, so distinct such names go to distinct pages. */
  lemma RedirectInjective(a: string, b: string)
    requires RedirectToDisplayName(a) == RedirectToDisplayName(b)
    ensures a == b
  {
  }

  // ---------------------------------------------------------------------------
  // Database error page
  // ---------------------------------------------------------------------------

  datatype ErrorKind = Timeout | LoginFailed | MissingObject | NetworkFailed | Generic

  /** The classification in `get_database_error_message`, on the lower-cased
      text of the exception. */
  function Classify(errorText: string): (k: ErrorKind)
    ensures var t := Lower(errorText);
      && (k == Timeout <==> Contains(t, "timeout"))
      && (k == LoginFailed <==> !Contains(t, "timeout") && Contains(t, "login"))
      && (k == MissingObject <==>
            !Contains(t, "timeout") && !Contains(t, "login") && Contains(t, "invalid object name"))
      && (k == NetworkFailed <==>
            !Contains(t, "timeout") && !Contains(t, "login") && !Contains(t, "invalid object name")
            && (Contains(t, "network") || Contains(t, "host")))
  {
    var t := Lower(errorText);
    if Contains(t, "timeout") then Timeout
    else if Contains(t, "login") then LoginFailed
    else if Contains(t, "invalid object name") then MissingObject
    else if Contains(t, "network") || Contains(t, "host") then NetworkFailed
    else Generic
  }

  lemma LowerUpperChar(c: char)
    ensures LowerChar(UpperChar(c)) == LowerChar(c)
  {
  }

  /** The classification ignores letter case. */
  lemma ClassifyIgnoresCase(errorText: string)
    ensures Classify(Upper(errorText)) == Classify(errorText)
    ensures Classify(Lower(errorText)) == Classify(errorText)
  {
    assert Lower(Upper(errorText)) == Lower(errorText) by {
      forall k | 0 <= k < |errorText|
        ensures Lower(Upper(errorText))[k] == Lower(errorText)[k]
      {
        LowerUpperChar(errorText[k]);
      }
    }
    assert Lower(Lower(errorText)) == Lower(errorText);
  }

  /** The headline sentence for each kind of failure. */
  function ErrorMessage(k: ErrorKind, context: string): string {
    match k
    case Timeout =>
      "Database connection timeout during " + context + ". The database server may be unavailable or overloaded."
    case LoginFailed =>
      "Database login failed during " + context + ". Please check your database credentials."
    case MissingObject =>
      "Database procedure not found during " + context + ". Please ensure the required procedures exist."
    case NetworkFailed =>
      "Network connection failed during " + context + ". Please check your network connectivity."
    case Generic =>
      "Database connection failed during " + context + ". Please check your database connection and try again."
  }

  /** The parts of the error page that vary; the surrounding HTML is fixed. */
  datatype ErrorPage = ErrorPage(message: string, details: string, backLink: string)

  /** Python truthiness of an optional string. */
  predicate Given(s: Option<string>) {
    s.Some? && s.value != []
  }

  /** `get_database_error_message`: the page and the status code. The URL of
      the procedure page is `procedureUrl`. */
  function DatabaseErrorResponse(errorText: string, context: string, displayName: Option<string>,
                                 procedureUrl: string): (r: (ErrorPage, int))
    ensures r.1 == 500
    ensures r.0.message == ErrorMessage(Classify(errorText), context)
    ensures r.0.details == errorText
    ensures r.0.backLink != [] <==> Given(displayName)
    ensures Given(displayName) ==> Contains(r.0.backLink, procedureUrl)
  {
    var backLink :=
      if Given(displayName) then
        var prefix := "<p><a href='";
        var link := prefix + procedureUrl + "'>← Back to " + displayName.value + "</a></p>";
        assert link[|prefix|..][..|procedureUrl|] == procedureUrl;
        ContainsAt(link, procedureUrl, |prefix|);
        link
      else "";
    (ErrorPage(ErrorMessage(Classify(errorText), context), errorText, backLink), 500)
  }

  lemma {:induction false} ContainsAt(s: string, t: string, i: nat)
    requires i + |t| <= |s| && s[i..][..|t|] == t
    ensures Contains(s, t)
    decreases i
  {
    if i == 0 {
      assert s[..|t|] == s[0..][..|t|];
    } else {
      assert s[1..][i - 1..] == s[i..];
      ContainsAt(s[1..], t, i - 1);
    }
  }

  // ---------------------------------------------------------------------------
  // Chat protocol of the analyse page
  // ---------------------------------------------------------------------------

  /** The agent's reply, or the text of the exception it raised. */
  type AgentOutcome = Result<string, string>

  /** POST to `analyze`: the stored history (or `[]`) gains the user's turn
      and the agent's reply, and is written back whole. When the agent
      raises, nothing is stored. */
  function AnalyzePost(fs: Files, proc: string, recId: int, userInput: string, agent: AgentOutcome): (r: Files)
    requires WellFormed(fs)
    ensures WellFormed(r)
    ensures agent.Failure? ==> r == fs
    ensures forall path :: path != KvChatPath(proc, recId) ==> (path in r <==> path in fs)
    ensures forall path :: path != KvChatPath(proc, recId) && path in fs ==> r[path] == fs[path]
    ensures agent.Success? ==>
      GetChatHistory(r, proc, recId)
      == Some(GetChatHistory(fs, proc, recId).GetOr([]) + [Turn("user", userInput), Turn("ai", agent.value)])
  {
    var history := GetChatHistory(fs, proc, recId).GetOr([]) + [Turn("user", userInput)];
    match agent
    case Failure(_) => fs
    case Success(output) =>
      var stored := StoreChatHistory(fs, proc, recId, history + [Turn("ai", output)]);
      ChatRoundTrip(fs, proc, recId, history + [Turn("ai", output)], []);
      assert GetChatHistory(fs, proc, recId).GetOr([]) + [Turn("user", userInput), Turn("ai", output)]
          == history + [Turn("ai", output)];
      stored
  }

  /** A reply only ever extends the conversation: the earlier turns stay in
      place, exactly two turns are added, and no other record's history moves. */
  lemma AnalyzePostExtends(fs: Files, proc: string, recId: int, userInput: string, output: string,
                           q: string, j: int)
    requires WellFormed(fs)
    requires q != proc || j != recId
    ensures var before := GetChatHistory(fs, proc, recId).GetOr([]);
      var after := GetChatHistory(AnalyzePost(fs, proc, recId, userInput, Success(output)), proc, recId).value;
      && |after| == |before| + 2
      && after[..|before|] == before
      && after[|before|] == Turn("user", userInput)
      && after[|before| + 1] == Turn("ai", output)
    ensures GetChatHistory(AnalyzePost(fs, proc, recId, userInput, Success(output)), q, j)
         == GetChatHistory(fs, q, j)
  {
    var before := GetChatHistory(fs, proc, recId).GetOr([]);
    var history := before + [Turn("user", userInput), Turn("ai", output)];
    assert history[..|before|] == before;
    ChatIsolation(fs, proc, recId, history, q, j);
  }

  /** The reply shown when the first analysis fails. */
  function AnalysisFailedMessage(error: string): string {
    "Analysis failed due to a technical issue: " + error + ". Please try again."
  }

  /** `perform_initial_analysis`: the formatted record as the user's turn and
      the agent's reply; stored only when the agent succeeds. */
  function InitialAnalysis(fs: Files, proc: string, recId: int, question: string, agent: AgentOutcome)
    : (r: (Files, seq<Turn>))
    requires WellFormed(fs)
    ensures WellFormed(r.0)
    ensures |r.1| == 2 && r.1[0] == Turn("user", question)
    ensures forall path :: path != KvChatPath(proc, recId) ==> (path in r.0 <==> path in fs)
    ensures forall path :: path != KvChatPath(proc, recId) && path in fs ==> r.0[path] == fs[path]
    ensures agent.Success? ==> r.1[1] == Turn("ai", agent.value) && GetChatHistory(r.0, proc, recId) == Some(r.1)
    ensures agent.Failure? ==> r.1[1] == Turn("ai", AnalysisFailedMessage(agent.error)) && r.0 == fs
  {
    match agent
    case Success(output) =>
      var history := [Turn("user", question), Turn("ai", output)];
      ChatRoundTrip(fs, proc, recId, history, []);
      (StoreChatHistory(fs, proc, recId, history), history)
    case Failure(error) =>
      (fs, [Turn("user", question), Turn("ai", AnalysisFailedMessage(error))])
  }

  /** GET of `analyze`: the stored history when there is a non-empty one,
      otherwise a fresh initial analysis. */
  function AnalyzeGet(fs: Files, proc: string, recId: int, question: string, agent: AgentOutcome)
    : (r: (Files, seq<Turn>))
    requires WellFormed(fs)
    ensures WellFormed(r.0)
    ensures r.1 != []
    ensures GetChatHistory(fs, proc, recId).Some? && GetChatHistory(fs, proc, recId).value != []
        ==> r == (fs, GetChatHistory(fs, proc, recId).value)
  {
    var history := GetChatHistory(fs, proc, recId);
    if history.Some? && history.value != [] then (fs, history.value)
    else InitialAnalysis(fs, proc, recId, question, agent)
  }

  /** Opening the page twice after a successful first analysis shows the same
      conversation and stores nothing more; after a failed one the agent is
      asked again. */
  lemma AnalyzeGetTwice(fs: Files, proc: string, recId: int, question: string, agent: AgentOutcome,
                        question2: string, agent2: AgentOutcome)
    requires WellFormed(fs)
    ensures var first := AnalyzeGet(fs, proc, recId, question, agent);
      var second := AnalyzeGet(first.0, proc, recId, question2, agent2);
      && (agent.Success? ==> second == first)
      && (agent.Failure? && GetChatHistory(fs, proc, recId).GetOr([]) == [] ==>
            second == InitialAnalysis(fs, proc, recId, question2, agent2))
  {
  }
}
