/**
 * The browser client's logic apart from rendering: the step viewer's
 * index, the sign-in state and the request headers built from it, the role
 * badges and labels, the case-log search box, and the reading of the
 * procedure form's step entries. Values the client reads from the page or
 * receives from the server are parameters.
 */
module Frontend {
  import opened JsValues
  import Database
  import CaseLogs
  import Auth

  // ------------------------------------------------------ client state

  /**
   * The client's module-level state. `storedToken` is the `authToken`
   * entry of the browser's local storage, from which `authToken` starts.
   */
  class App {
    var currentProcedure: Option<Database.Procedure>
    var currentStepIndex: int
    var authToken: Option<string>
    var storedToken: Option<string>
    var currentUser: Option<Auth.PublicUser>

    /**
     * The index names a step of the open procedure, or is 0; so for a
     * non-empty step list it stays within `0 .. steps.length - 1`.
     */
    ghost predicate Valid()
      reads this
    {
      || currentStepIndex == 0
      || (currentProcedure.Some? && 0 < currentStepIndex < |currentProcedure.value.steps|)
    }

    constructor(stored: Option<string>)
      ensures currentProcedure == None && currentStepIndex == 0
      ensures authToken == stored && storedToken == stored && currentUser == None
      ensures Valid()
    {
      currentProcedure := None;
      currentStepIndex := 0;
      authToken := stored;
      storedToken := stored;
      currentUser := None;
    }

    /** Within the bounds the viewer relies on whenever `Valid` holds. */
    lemma IndexInRange()
      requires Valid()
      ensures 0 <= currentStepIndex
      ensures currentProcedure.Some? && |currentProcedure.value.steps| > 0 ==>
        currentStepIndex <= |currentProcedure.value.steps| - 1
    {
    }

    /**
     * `loadProcedure(id)`. `fetched` is the procedure the server returned,
     * or `None` when the request failed, which changes nothing. A loaded
     * procedure opens at its first step.
     */
    method LoadProcedure(fetched: Option<Database.Procedure>)
      modifies this`currentProcedure, this`currentStepIndex
      ensures fetched.None? ==>
        currentProcedure == old(currentProcedure) && currentStepIndex == old(currentStepIndex)
      ensures fetched.Some? ==> currentProcedure == fetched && currentStepIndex == 0
      ensures old(Valid()) ==> Valid()
    {
      if fetched.None? {
        return;
      }
      currentProcedure := fetched;
      currentStepIndex := 0;
    }

    /** `prevStep()`: back one step unless already at the first. */
    method PrevStep()
      modifies this`currentStepIndex
      ensures old(currentStepIndex) > 0 ==> currentStepIndex == old(currentStepIndex) - 1
      ensures old(currentStepIndex) <= 0 ==> currentStepIndex == old(currentStepIndex)
      ensures old(Valid()) ==> Valid()
    {
      if currentStepIndex > 0 {
        currentStepIndex := currentStepIndex - 1;
      }
    }

    /** `nextStep()`: forward one step only when a procedure is open and this is not its last step. */
    method NextStep()
      modifies this`currentStepIndex
      ensures currentProcedure.Some? && old(currentStepIndex) < |currentProcedure.value.steps| - 1 ==>
        currentStepIndex == old(currentStepIndex) + 1
      ensures !(currentProcedure.Some? && old(currentStepIndex) < |currentProcedure.value.steps| - 1) ==>
        currentStepIndex == old(currentStepIndex)
      ensures old(Valid()) ==> Valid()
    {
      if currentProcedure.Some? && currentStepIndex < |currentProcedure.value.steps| - 1 {
        currentStepIndex := currentStepIndex + 1;
      }
    }

    /** `closeStepViewer()`. */
    method CloseStepViewer()
      modifies this`currentProcedure, this`currentStepIndex
      ensures currentProcedure == None && currentStepIndex == 0
      ensures Valid()
    {
      currentProcedure := None;
      currentStepIndex := 0;
    }

    /**
     * `authHeaders()`: always the JSON content type, and a bearer
     * authorization exactly when a token is held.
     */
    function AuthHeaders(): (r: map<string, string>)
      reads this
      ensures "Content-Type" in r && r["Content-Type"] == "application/json"
      ensures "Authorization" in r <==> Truthy(authToken)
      ensures "Authorization" in r ==> r["Authorization"] == "Bearer " + authToken.value
      ensures forall k :: k in r ==> k == "Content-Type" || k == "Authorization"
    {
      var headers := map["Content-Type" := "application/json"];
      if Truthy(authToken) then headers["Authorization" := "Bearer " + authToken.value] else headers
    }

    /**
     * `logout()`: forgets the token, in memory and in local storage, and
     * the user; later requests carry no authorization.
     */
    method Logout()
      modifies this`authToken, this`storedToken, this`currentUser
      ensures authToken == None && storedToken == None && currentUser == None
      ensures "Authorization" !in AuthHeaders()
    {
      authToken := None;
      currentUser := None;
      storedToken := None;
    }
  }

  // ------------------------------------------------------------- roles

  /** The three roles that get a coloured badge. */
  predicate ColouredRole(role: Option<string>) {
    role == Some("assistant") || role == Some("primary_surgeon") || role == Some("teaching")
  }

  /** `getRoleBadgeClass(role)`. */
  function RoleBadgeClass(role: Option<string>): (r: string)
    ensures r == "badge-green" <==> role == Some("assistant")
    ensures r == "badge-blue" <==> role == Some("primary_surgeon")
    ensures r == "badge-purple" <==> role == Some("teaching")
    ensures r == "badge-gray" <==> !ColouredRole(role)
  {
    match role
    case Some("observer") => "badge-gray"
    case Some("assistant") => "badge-green"
    case Some("primary_surgeon") => "badge-blue"
    case Some("teaching") => "badge-purple"
    case _ => "badge-gray"
  }

  /** The four roles with a fixed label. */
  predicate KnownRole(role: Option<string>) {
    role == Some("observer") || ColouredRole(role)
  }

  /** `formatRoleLabel(role)`. */
  function FormatRoleLabel(role: Option<string>): (r: string)
    ensures r != ""
    ensures !Truthy(role) ==> r == "N/A"
    ensures Truthy(role) && !KnownRole(role) ==> r == role.value
    ensures role == Some("observer") ==> r == "Observer"
    ensures role == Some("assistant") ==> r == "Assistant"
    ensures role == Some("primary_surgeon") ==> r == "Primary Surgeon"
    ensures role == Some("teaching") ==> r == "Teaching"
  {
    match role
    case Some("observer") => "Observer"
    case Some("assistant") => "Assistant"
    case Some("primary_surgeon") => "Primary Surgeon"
    case Some("teaching") => "Teaching"
    case _ => OrDefault(role, "N/A")
  }

  /** Distinct known roles get distinct labels. */
  lemma KnownLabelsDistinct(a: Option<string>, b: Option<string>)
    requires KnownRole(a) && KnownRole(b) && a != b
    ensures FormatRoleLabel(a) != FormatRoleLabel(b)
  {
  }

  // -------------------------------------------------- case-log search

  /** The search box's value, trimmed and lower-cased; `""` when the box is absent. */
  function SearchValue(input: Option<string>): string {
    if input.Some? then Lower(Trim(input.value)) else ""
  }

  predicate FieldHas(field: Option<string>, query: string) {
    Truthy(field) && Includes(Lower(field.value), query)
  }

  /** One of the five searched text fields holds the query. */
  predicate LogMatches(cl: CaseLogs.CaseLog, query: string) {
    || FieldHas(Some(cl.procedureName), query)
    || FieldHas(cl.diagnosis, query)
    || FieldHas(cl.hospital, query)
    || FieldHas(cl.supervisor, query)
    || FieldHas(cl.notes, query)
  }

  /**
   * `caseLogs.filter(...)` with the search test: each matching log is
   * shown as often as it was fetched and the others not at all, in the
   * order the server sent them (`FilterAppend`).
   */
  function FilterMatching(logs: seq<CaseLogs.CaseLog>, query: string): (r: seq<CaseLogs.CaseLog>)
    ensures |r| <= |logs|
    ensures forall cl :: cl in r <==> cl in logs && LogMatches(cl, query)
    ensures forall cl :: multiset(r)[cl] == if LogMatches(cl, query) then multiset(logs)[cl] else 0
  {
    var r := Filter(logs, (cl: CaseLogs.CaseLog) => LogMatches(cl, query));
    assert forall cl :: multiset(r)[cl] == if LogMatches(cl, query) then multiset(logs)[cl] else 0 by {
      forall cl
        ensures multiset(r)[cl] == if LogMatches(cl, query) then multiset(logs)[cl] else 0
      {
        FilterCount(logs, (cl: CaseLogs.CaseLog) => LogMatches(cl, query), cl);
      }
    }
    r
  }

  /**
   * The case logs `renderCaseLogs` shows: all of them when the search box
   * is absent or holds only white space; otherwise exactly those whose
   * procedure name, diagnosis, hospital, supervisor or notes contain the
   * query, ignoring case, each as often as it was fetched.
   */
  function VisibleCaseLogs(logs: seq<CaseLogs.CaseLog>, input: Option<string>): (r: seq<CaseLogs.CaseLog>)
    ensures |r| <= |logs|
    ensures (input.None? || forall i :: 0 <= i < |input.value| ==> IsSpace(input.value[i])) ==> r == logs
    ensures input.Some? && (exists i :: 0 <= i < |input.value| && !IsSpace(input.value[i])) ==>
      && (forall cl :: cl in r <==> cl in logs && LogMatches(cl, SearchValue(input)))
      && (forall cl :: multiset(r)[cl] == if LogMatches(cl, SearchValue(input)) then multiset(logs)[cl] else 0)
  {
    var query := SearchValue(input);
    if input.Some? then
      TrimEmpty(input.value);
      if query != "" then FilterMatching(logs, query) else logs
    else logs
  }

  /** Showing two parts of the fetched list and joining them shows the whole list. */
  lemma VisibleCaseLogsAppend(a: seq<CaseLogs.CaseLog>, b: seq<CaseLogs.CaseLog>, input: Option<string>)
    ensures VisibleCaseLogs(a + b, input) == VisibleCaseLogs(a, input) + VisibleCaseLogs(b, input)
  {
    var query := SearchValue(input);
    if input.Some? && query != "" {
      FilterAppend(a, b, (cl: CaseLogs.CaseLog) => LogMatches(cl, query));
    }
  }

  // ------------------------------------------------------ step entries

  /** The raw values of one media row of the form. */
  datatype MediaEntry = MediaEntry(kind: string, url: string, caption: string)

  /** The raw values of one step block of the form, with its media rows. */
  datatype StepField = StepField(title: string, description: string, tips: string,
                                 warnings: string, media: seq<MediaEntry>)

  /**
   * What a loop that pushes `f(x)` for each `x` of `s` satisfying `keep`
   * builds: the images of the kept elements, in order.
   */
  function KeepMap<A, B>(s: seq<A>, keep: A -> bool, f: A -> B): seq<B>
    decreases |s|
  {
    if s == [] then []
    else KeepMap(s[..|s| - 1], keep, f) + (if keep(s[|s| - 1]) then [f(s[|s| - 1])] else [])
  }

  /** Filtering keeps order: `KeepMap` distributes over concatenation. */
  lemma {:induction false} KeepMapAppend<A, B>(a: seq<A>, b: seq<A>, keep: A -> bool, f: A -> B)
    ensures KeepMap(a + b, keep, f) == KeepMap(a, keep, f) + KeepMap(b, keep, f)
    decreases |b|
  {
    if b != [] {
      var b' := b[..|b| - 1];
      assert (a + b)[..|a + b| - 1] == a + b';
      assert (a + b)[|a + b| - 1] == b[|b| - 1];
      KeepMapAppend(a, b', keep, f);
    } else {
      assert a + b == a;
    }
  }

  /** Exactly the images of the kept elements appear. */
  lemma {:induction false} KeepMapExactly<A, B>(s: seq<A>, keep: A -> bool, f: A -> B)
    ensures forall y :: y in KeepMap(s, keep, f) <==> exists i :: 0 <= i < |s| && keep(s[i]) && y == f(s[i])
    decreases |s|
  {
    if s != [] {
      var init := s[..|s| - 1];
      var last := s[|s| - 1];
      var tail := if keep(last) then [f(last)] else [];
      assert KeepMap(s, keep, f) == KeepMap(init, keep, f) + tail;
      KeepMapExactly(init, keep, f);
      forall y
        ensures y in KeepMap(s, keep, f) <==> exists i :: 0 <= i < |s| && keep(s[i]) && y == f(s[i])
      {
        if y in KeepMap(init, keep, f) {
          var i :| 0 <= i < |init| && keep(init[i]) && y == f(init[i]);
          assert s[i] == init[i];
        }
        if exists i :: 0 <= i < |s| && keep(s[i]) && y == f(s[i]) {
          var i :| 0 <= i < |s| && keep(s[i]) && y == f(s[i]);
          if i < |init| {
            assert s[i] == init[i];
          } else {
            assert y in tail;
          }
        }
      }
    }
  }

  predicate HasUrl(e: MediaEntry) {
    Trim(e.url) != ""
  }

  function MediaOf(e: MediaEntry): Database.Media {
    Database.Media(e.kind, Trim(e.url), Trim(e.caption))
  }

  /** The media the inner loop pushes for a step block's rows. */
  function KeptMedia(entries: seq<MediaEntry>): seq<Database.Media> {
    KeepMap(entries, HasUrl, MediaOf)
  }

  predicate HasTitle(f: StepField) {
    Trim(f.title) != ""
  }

  function StepOf(f: StepField): Database.StepInput {
    Database.StepInput(Some(Trim(f.title)), Some(Trim(f.description)), Some(Trim(f.tips)),
                       Some(Trim(f.warnings)), Some(KeptMedia(f.media)))
  }

  /** The steps the outer loop pushes for the form's step blocks. */
  function KeptSteps(fields: seq<StepField>): seq<Database.StepInput> {
    KeepMap(fields, HasTitle, StepOf)
  }

  /** `getStepsFromForm()` over the form's step blocks, in page order. */
  method GetStepsFromForm(fields: seq<StepField>) returns (steps: seq<Database.StepInput>)
    ensures steps == KeptSteps(fields)
  {
    steps := [];
    var i := 0;
    while i < |fields|
      invariant 0 <= i <= |fields|
      invariant steps == KeepMap(fields[..i], HasTitle, StepOf)
    {
      var field := fields[i];
      var title := Trim(field.title);
      assert fields[..i + 1][..i] == fields[..i];
      if title != "" {
        var media := [];
        var entries := field.media;
        var j := 0;
        while j < |entries|
          invariant 0 <= j <= |entries|
          invariant media == KeepMap(entries[..j], HasUrl, MediaOf)
        {
          var url := Trim(entries[j].url);
          assert entries[..j + 1][..j] == entries[..j];
          if url != "" {
            media := media + [Database.Media(entries[j].kind, url, Trim(entries[j].caption))];
          }
          j := j + 1;
        }
        assert entries[..j] == entries;
        steps := steps + [Database.StepInput(Some(title), Some(Trim(field.description)),
                                             Some(Trim(field.tips)), Some(Trim(field.warnings)),
                                             Some(media))];
      }
      i := i + 1;
    }
    assert fields[..i] == fields;
  }

  /**
   * The steps read from the form: exactly the blocks with a non-blank
   * title, each carrying exactly its media rows with a non-blank URL, in
   * page order (reading two parts of the form separately and joining the
   * results gives the same steps).
   */
  lemma FormSteps(fields: seq<StepField>)
    ensures forall s :: s in KeptSteps(fields) <==>
      exists i :: 0 <= i < |fields| && Trim(fields[i].title) != "" && s == StepOf(fields[i])
    ensures forall f :: f in fields ==> forall m :: m in KeptMedia(f.media) <==>
      exists j :: 0 <= j < |f.media| && Trim(f.media[j].url) != "" && m == MediaOf(f.media[j])
    ensures forall k :: 0 <= k <= |fields| ==>
      KeptSteps(fields) == KeptSteps(fields[..k]) + KeptSteps(fields[k..])
  {
    KeepMapExactly(fields, HasTitle, StepOf);
    forall f | f in fields
      ensures forall m :: m in KeptMedia(f.media) <==>
        exists j :: 0 <= j < |f.media| && Trim(f.media[j].url) != "" && m == MediaOf(f.media[j])
    {
      KeepMapExactly(f.media, HasUrl, MediaOf);
    }
    forall k | 0 <= k <= |fields|
      ensures KeptSteps(fields) == KeptSteps(fields[..k]) + KeptSteps(fields[k..])
    {
      assert fields == fields[..k] + fields[k..];
      KeepMapAppend(fields[..k], fields[k..], HasTitle, StepOf);
    }
  }

  /**
   * Every step read from the form has a non-empty title, so the server
   * stores each one under the title typed in and never under the default
   * "Step n".
   */
  lemma FormTitlesKept(fields: seq<StepField>, nextId: int)
    ensures var inputs := KeptSteps(fields);
      var stored := Database.IssuedSteps(inputs, 0, nextId);
      && |stored| == |inputs|
      && forall k :: 0 <= k < |stored| ==> Some(stored[k].title) == inputs[k].title
  {
    var inputs := KeptSteps(fields);
    KeepMapExactly(fields, HasTitle, StepOf);
    Database.IssuedStepsPositional(inputs, nextId);
    forall k | 0 <= k < |inputs|
      ensures Truthy(inputs[k].title)
    {
      assert inputs[k] in inputs;
    }
  }

  // ------------------------------------------- fields client and server name differently

  /** The values of the case-log form, with the numeric inputs already parsed. */
  datatype CaseLogForm = CaseLogForm(
    procedureName: string,
    procedureId: Option<int>,
    date: string,
    role: string,
    duration: Option<int>,
    supervisor: string,
    hospital: string,
    patientAge: Option<int>,
    patientSex: string,
    diagnosis: string,
    outcome: string,
    complications: string,
    notes: string)

  /** `s || null` for a form value. */
  function NullIfEmpty(s: string): Option<string> {
    if s == "" then None else Some(s)
  }

  /**
   * The case-log body as the server reads it. The client sends the
   * duration under the key `duration`, while the server reads
   * `duration_minutes`, so the server sees no duration.
   */
  function SubmittedBody(form: CaseLogForm): CaseLogs.CaseLogBody {
    CaseLogs.CaseLogBody(
      form.procedureId, Some(Trim(form.procedureName)), Some(form.date), Some(form.role),
      NullIfEmpty(Trim(form.supervisor)), NullIfEmpty(Trim(form.hospital)),
      OrNullInt(form.patientAge), NullIfEmpty(form.patientSex), NullIfEmpty(Trim(form.diagnosis)),
      NullIfEmpty(Trim(form.complications)), NullIfEmpty(Trim(form.outcome)),
      NullIfEmpty(Trim(form.notes)), None)
  }

  /**
   * `saveCaseLog`: no request without a signed-in user, nor when the
   * trimmed procedure name or the date is empty (a message is shown
   * instead); otherwise the body sent.
   */
  function SaveCaseLog(signedIn: bool, form: CaseLogForm): (r: Option<CaseLogs.CaseLogBody>)
    ensures r.Some? <==> signedIn && Trim(form.procedureName) != "" && form.date != ""
    ensures r.Some? ==> r.value == SubmittedBody(form)
  {
    if !signedIn then None
    else if Trim(form.procedureName) == "" then None
    else if form.date == "" then None
    else Some(SubmittedBody(form))
  }

  /**
   * A create request the form sends is never refused by the server's
   * check of name and date, and the log it creates never has a stored
   * duration, whatever was typed, while the hospital typed in is stored.
   */
  lemma FormDurationNotStored(userId: int, signedIn: bool, form: CaseLogForm)
    requires SaveCaseLog(signedIn, form).Some?
    ensures var r := CaseLogs.PostCaseLog(userId, SaveCaseLog(signedIn, form).value);
      && r.Create?
      && r.record.durationMinutes == None
      && (Trim(form.hospital) != "" ==> r.record.hospital == Some(Trim(form.hospital)))
  {
  }

  /** A member of the statistics reply. */
  datatype ReplyMember = Count(n: int) | Hours(tenths: int) | Dictionary(counters: map<string, CaseLogs.Counter>)

  /** The statistics reply by member name, as the server writes it. */
  function StatsReply(stats: CaseLogs.Stats): (r: map<string, ReplyMember>)
    ensures r.Keys == {"total", "totalHours", "byRole", "byCategory", "byMonth"}
  {
    map["total" := Count(stats.total), "totalHours" := Hours(CaseLogs.RoundedTenths(stats.totalMinutes)),
        "byRole" := Dictionary(stats.byRole), "byCategory" := Dictionary(stats.byCategory),
        "byMonth" := Dictionary(stats.byMonth)]
  }

  /** What one of the panel's figures shows: 0, or a reply member. */
  datatype Figure = Zero | Shows(member: ReplyMember)

  predicate TruthyMember(m: ReplyMember) {
    match m
    case Count(n) => n != 0
    case Hours(tenths) => tenths != 0
    case Dictionary(_) => true
  }

  /** `stats[key] || 0`: the member when the reply has it and it is truthy, else 0. */
  function ShownFigure(reply: map<string, ReplyMember>, key: string): (r: Figure)
    ensures key !in reply ==> r == Zero
    ensures key in reply ==> (r == Shows(reply[key]) <==> TruthyMember(reply[key]))
    ensures r == Zero || (key in reply && r == Shows(reply[key]))
  {
    if key in reply && TruthyMember(reply[key]) then Shows(reply[key]) else Zero
  }

  /**
   * The panel reads `totalCases`, `asPrimary` and `asAssistant`, none of
   * which the reply has, so it shows 0 for each whatever the logs are;
   * only the hours it reads are in the reply, and they too show 0 when
   * the minutes add up to between -3 and 2, which round to 0.
   */
  lemma TotalCasesShownAsZero(stats: CaseLogs.Stats)
    ensures ShownFigure(StatsReply(stats), "totalCases") == Zero
    ensures ShownFigure(StatsReply(stats), "asPrimary") == Zero
    ensures ShownFigure(StatsReply(stats), "asAssistant") == Zero
    ensures ShownFigure(StatsReply(stats), "totalHours") == Zero <==> -3 <= stats.totalMinutes < 3
    ensures ShownFigure(StatsReply(stats), "totalHours") != Zero ==>
      ShownFigure(StatsReply(stats), "totalHours") == Shows(Hours(CaseLogs.RoundedTenths(stats.totalMinutes)))
  {
  }
}
