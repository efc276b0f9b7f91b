/**
 * The case-log routes: the owner's list with its search and date filters,
 * the statistics aggregated over the owner's logs, the checks and defaults
 * applied when a log is created, and the not-found replies of the by-ID
 * routes. The case-log store itself (`getCaseLogs`, `getCaseLog`,
 * `createCaseLog`, `updateCaseLog`, `deleteCaseLog`) is outside this model:
 * the handlers receive what those calls returned.
 */
module CaseLogs {
  import opened JsValues
  import Database

  /** A stored case log as the store hands it out. */
  datatype CaseLog = CaseLog(
    id: int,
    userId: int,
    procedureId: Option<int>,
    procedureName: string,
    date: Option<string>,
    role: string,
    supervisor: Option<string>,
    hospital: Option<string>,
    patientAge: Option<int>,
    patientSex: Option<string>,
    diagnosis: Option<string>,
    complications: Option<string>,
    outcome: Option<string>,
    notes: Option<string>,
    durationMinutes: Option<int>)

  // ------------------------------------------------------------ GET /

  /** The search test of the list route: procedure name, diagnosis or hospital contains the query, ignoring case. */
  predicate MatchesSearch(l: CaseLog, search: string) {
    var s := Lower(search);
    || Includes(Lower(l.procedureName), s)
    || (Truthy(l.diagnosis) && Includes(Lower(l.diagnosis.value), s))
    || (Truthy(l.hospital) && Includes(Lower(l.hospital.value), s))
  }

  /**
   * The start bound of the list route, `l.date >= startDate`. A log
   * without a date is taken to fail it; see `Listed`.
   */
  predicate OnOrAfter(l: CaseLog, startDate: string) {
    l.date.Some? && StrLeq(startDate, l.date.value)
  }

  /** The end bound of the list route, `l.date <= endDate`. */
  predicate OnOrBefore(l: CaseLog, endDate: string) {
    l.date.Some? && StrLeq(l.date.value, endDate)
  }

  /**
   * All three filters of the list route. A falsy parameter does not filter;
   * the date bounds compare strings and include both ends, and a log
   * without a date fails any bound (JavaScript compares a null date with
   * the bound as numbers, so this holds for bounds that do not read as a
   * number, such as every `YYYY-MM-DD` date).
   */
  predicate Listed(l: CaseLog, search: Option<string>, startDate: Option<string>, endDate: Option<string>) {
    && (!Truthy(search) || MatchesSearch(l, search.value))
    && (!Truthy(startDate) || OnOrAfter(l, startDate.value))
    && (!Truthy(endDate) || OnOrBefore(l, endDate.value))
  }

  /**
   * `GET /api/caselogs`: the owner's logs that pass the filters, applied
   * one after the other; each passing log is kept as often as the store
   * holds it and the others not at all, and `ListCaseLogsAppend` shows the
   * store's order is kept.
   */
  function ListCaseLogs(logs: seq<CaseLog>, search: Option<string>, startDate: Option<string>,
                        endDate: Option<string>): (r: seq<CaseLog>)
    ensures forall l :: l in r <==> l in logs && Listed(l, search, startDate, endDate)
    ensures forall l :: multiset(r)[l] == if Listed(l, search, startDate, endDate) then multiset(logs)[l] else 0
    ensures |r| <= |logs|
    ensures !Truthy(search) && !Truthy(startDate) && !Truthy(endDate) ==> r == logs
  {
    var searched := if Truthy(search) then Filter(logs, (l: CaseLog) => MatchesSearch(l, search.value)) else logs;
    var started := if Truthy(startDate) then Filter(searched, (l: CaseLog) => OnOrAfter(l, startDate.value)) else searched;
    var r := if Truthy(endDate) then Filter(started, (l: CaseLog) => OnOrBefore(l, endDate.value)) else started;
    assert forall l :: multiset(r)[l] == if Listed(l, search, startDate, endDate) then multiset(logs)[l] else 0 by {
      forall l
        ensures multiset(r)[l] == if Listed(l, search, startDate, endDate) then multiset(logs)[l] else 0
      {
        if Truthy(search) {
          FilterCount(logs, (l: CaseLog) => MatchesSearch(l, search.value), l);
        }
        if Truthy(startDate) {
          FilterCount(searched, (l: CaseLog) => OnOrAfter(l, startDate.value), l);
        }
        if Truthy(endDate) {
          FilterCount(started, (l: CaseLog) => OnOrBefore(l, endDate.value), l);
        }
      }
    }
    r
  }

  /** Listing two parts of the store and joining the results gives the listing of the whole. */
  lemma ListCaseLogsAppend(a: seq<CaseLog>, b: seq<CaseLog>, search: Option<string>,
                           startDate: Option<string>, endDate: Option<string>)
    ensures ListCaseLogs(a + b, search, startDate, endDate)
         == ListCaseLogs(a, search, startDate, endDate) + ListCaseLogs(b, search, startDate, endDate)
  {
    var sa, sb := a, b;
    if Truthy(search) {
      var bySearch := (l: CaseLog) => MatchesSearch(l, search.value);
      FilterAppend(a, b, bySearch);
      sa, sb := Filter(a, bySearch), Filter(b, bySearch);
    }
    var ta, tb := sa, sb;
    if Truthy(startDate) {
      var byStart := (l: CaseLog) => OnOrAfter(l, startDate.value);
      FilterAppend(sa, sb, byStart);
      ta, tb := Filter(sa, byStart), Filter(sb, byStart);
    }
    if Truthy(endDate) {
      FilterAppend(ta, tb, (l: CaseLog) => OnOrBefore(l, endDate.value));
    }
  }

  /** The three filters in a row list exactly what one pass of `Listed` would. */
  lemma ListCaseLogsOnePass(logs: seq<CaseLog>, search: Option<string>, startDate: Option<string>,
                            endDate: Option<string>)
    ensures ListCaseLogs(logs, search, startDate, endDate)
         == Filter(logs, (l: CaseLog) => Listed(l, search, startDate, endDate))
  {
    // `p`, then `q`, is the test the filters applied so far amount to
    var searched, p := logs, (l: CaseLog) => true;
    if Truthy(search) {
      p := (l: CaseLog) => MatchesSearch(l, search.value);
      searched := Filter(logs, p);
    } else {
      FilterAll(logs, p);
    }
    var started, q := searched, p;
    if Truthy(startDate) {
      var byStart := (l: CaseLog) => OnOrAfter(l, startDate.value);
      q := (l: CaseLog) => p(l) && byStart(l);
      started := Filter(searched, byStart);
      FilterFilter(logs, p, byStart, q);
    }
    var listed := (l: CaseLog) => Listed(l, search, startDate, endDate);
    if Truthy(endDate) {
      FilterFilter(logs, q, (l: CaseLog) => OnOrBefore(l, endDate.value), listed);
    } else {
      FilterSame(logs, q, listed);
    }
  }

  // ------------------------------------------------------- GET /stats

  /**
   * A value in one of the statistics dictionaries. The dictionaries are
   * plain `{}` objects, so a key that `Object.prototype` already has reads
   * a method first: `(m[k] || 0) + 1` then concatenates the method's text
   * with "1", and later bumps append further "1"s.
   */
  datatype Counter = Number(n: nat) | Text(text: string)

  /**
   * `Math.round(minutes / 60 * 10)`: the hours to one decimal, counted in
   * tenths of an hour. `Math.round` rounds halves up, so a total rounds to
   * the nearest multiple of 6 minutes, and a half goes to the larger one.
   */
  function RoundedTenths(minutes: int): (r: int)
    ensures 6 * r - 3 <= minutes < 6 * r + 3
    ensures r == 0 <==> -3 <= minutes < 3
    ensures minutes >= 0 ==> r >= 0
  {
    (minutes + 3) / 6
  }

  /** The result of the statistics route, with the hours kept as whole minutes. */
  datatype Stats = Stats(
    total: nat,
    totalMinutes: int,
    byRole: map<string, Counter>,
    byCategory: map<string, Counter>,
    byMonth: map<string, Counter>)

  /** The three dictionaries the statistics route fills. */
  datatype Facet = ByRole | ByCategory | ByMonth

  /** The property names every `{}` inherits from `Object.prototype`. */
  predicate Inherited(k: string) {
    k in {"constructor", "__proto__", "hasOwnProperty", "isPrototypeOf", "propertyIsEnumerable",
          "toLocaleString", "toString", "valueOf", "__defineGetter__", "__defineSetter__",
          "__lookupGetter__", "__lookupSetter__"}
  }

  /** The text a built-in method of `Object.prototype` converts to. */
  function NativeText(k: string): string {
    "function " + (if k == "constructor" then "Object" else k) + "() { [native code] }"
  }

  function Ones(n: nat): string {
    seq(n, _ => '1')
  }

  /** `date.substring(0, 7)`. */
  function Month(date: string): string {
    if |date| <= 7 then date else date[..7]
  }

  /**
   * The category a log counts under: its procedure's, when `procedureId`
   * finds a procedure whose category is truthy. A null ID finds nothing
   * (`parseInt(null)` is NaN).
   */
  function CategoryOf(l: CaseLog, procedures: seq<Database.Procedure>): Option<string> {
    if l.procedureId.None? then None
    else
      var p := Database.GetProcedure(procedures, l.procedureId.value);
      if p.Some? && Truthy(p.value.category) then p.value.category else None
  }

  /** The key a log is counted under in each dictionary, if any. */
  function KeyOf(l: CaseLog, facet: Facet, procedures: seq<Database.Procedure>): Option<string> {
    match facet
    case ByRole => Some(l.role)
    case ByCategory => CategoryOf(l, procedures)
    case ByMonth => if Truthy(l.date) then Some(Month(l.date.value)) else None
  }

  /** How many of `logs` have key `k`. */
  function Count(logs: seq<CaseLog>, facet: Facet, procedures: seq<Database.Procedure>, k: string): nat
    decreases |logs|
  {
    if logs == [] then 0
    else
      Count(logs[..|logs| - 1], facet, procedures, k)
      + (if KeyOf(logs[|logs| - 1], facet, procedures) == Some(k) then 1 else 0)
  }

  /** A log whose key is counted as a number: it has a key and the key is not inherited. */
  predicate CountsAsNumber(l: CaseLog, facet: Facet, procedures: seq<Database.Procedure>) {
    KeyOf(l, facet, procedures).Some? && !Inherited(KeyOf(l, facet, procedures).value)
  }

  /** How many of `logs` are counted as numbers. */
  function Counted(logs: seq<CaseLog>, facet: Facet, procedures: seq<Database.Procedure>): nat
    decreases |logs|
  {
    if logs == [] then 0
    else
      Counted(logs[..|logs| - 1], facet, procedures)
      + (if CountsAsNumber(logs[|logs| - 1], facet, procedures) then 1 else 0)
  }

  /** The sum of the truthy `duration_minutes`. */
  function Minutes(logs: seq<CaseLog>): int
    decreases |logs|
  {
    if logs == [] then 0
    else
      var d := logs[|logs| - 1].durationMinutes;
      Minutes(logs[..|logs| - 1]) + (if TruthyInt(d) then d.value else 0)
  }

  /** Every log has a role, so every log is counted by role exactly when no role is an inherited name. */
  lemma {:induction false} CountedByRole(logs: seq<CaseLog>, procedures: seq<Database.Procedure>)
    ensures Counted(logs, ByRole, procedures) <= |logs|
    ensures Counted(logs, ByRole, procedures) == |logs| <==> forall l :: l in logs ==> !Inherited(l.role)
    decreases |logs|
  {
    if logs != [] {
      var init := logs[..|logs| - 1];
      CountedByRole(init, procedures);
      assert logs == init + [logs[|logs| - 1]];
      assert forall l :: l in logs <==> l in init || l == logs[|logs| - 1];
    }
  }

  /** No dictionary counts more logs than there are. */
  lemma {:induction false} CountedAtMost(logs: seq<CaseLog>, facet: Facet, procedures: seq<Database.Procedure>)
    ensures Counted(logs, facet, procedures) <= |logs|
    decreases |logs|
  {
    if logs != [] {
      CountedAtMost(logs[..|logs| - 1], facet, procedures);
    }
  }

  /** The numeric part of a counter. */
  function Value(c: Counter): nat {
    if c.Number? then c.n else 0
  }

  /** The sum of a dictionary's numeric counts. */
  ghost function Total(m: map<string, Counter>): nat
    decreases |m|
  {
    if m == map[] then 0
    else
      var k :| k in m;
      assert |m - {k}| < |m| by { assert m.Keys - {k} < m.Keys; }
      Value(m[k]) + Total(m - {k})
  }

  lemma {:induction false} TotalRemove(m: map<string, Counter>, k: string)
    requires k in m
    ensures Total(m) == Value(m[k]) + Total(m - {k})
    decreases |m|
  {
    var j :| j in m && Total(m) == Value(m[j]) + Total(m - {j});
    if j != k {
      assert (m - {j}).Keys < m.Keys && (m - {k}).Keys < m.Keys;
      TotalRemove(m - {j}, k);
      TotalRemove(m - {k}, j);
      assert m - {j} - {k} == m - {k} - {j};
    }
  }

  /** One more "1" on a counter. */
  function Plus1(c: Counter): Counter {
    match c
    case Number(n) => Number(n + 1)
    case Text(t) => Text(t + "1")
  }

  /**
   * `m[k] = (m[k] || 0) + 1` on a `{}`: an own key counts up; a fresh
   * inherited key turns into the method's text followed by "1"; assigning
   * a number to `__proto__` is ignored; any other fresh key starts at 1.
   */
  function Bump(m: map<string, Counter>, k: string): map<string, Counter> {
    if k == "__proto__" then m
    else if k in m then m[k := Plus1(m[k])]
    else if Inherited(k) then m[k := Text(NativeText(k) + "1")]
    else m[k := Number(1)]
  }

  /** What a dictionary holds under `k` after `n > 0` bumps. */
  function Shown(k: string, n: nat): Counter {
    if Inherited(k) then Text(NativeText(k) + Ones(n)) else Number(n)
  }

  /**
   * Counting one more log under a key that is not inherited raises the
   * dictionary's numeric sum by one; under an inherited key, whose value
   * is text, the sum stays.
   */
  lemma TotalBump(m: map<string, Counter>, k: string)
    requires k in m ==> (m[k].Text? <==> Inherited(k))
    ensures Total(Bump(m, k)) == Total(m) + (if Inherited(k) then 0 else 1)
  {
    var b := Bump(m, k);
    if k != "__proto__" {
      TotalRemove(b, k);
      if k in m {
        TotalRemove(m, k);
        assert b - {k} == m - {k};
      } else {
        assert b - {k} == m;
      }
    }
  }

  /**
   * `m` is the dictionary the source builds from `logs`: exactly the keys
   * some log has, except `__proto__`, each holding what that many bumps
   * leave there.
   */
  ghost predicate Tallies(m: map<string, Counter>, logs: seq<CaseLog>, facet: Facet,
                          procedures: seq<Database.Procedure>)
  {
    forall k :: (k in m <==> k != "__proto__" && Count(logs, facet, procedures, k) > 0)
                && (k in m ==> m[k] == Shown(k, Count(logs, facet, procedures, k)))
  }

  /** Adding log `l` to a tally of `logs` gives the tally of `logs + [l]`. */
  lemma TallyStep(m: map<string, Counter>, logs: seq<CaseLog>, l: CaseLog, facet: Facet,
                  procedures: seq<Database.Procedure>)
    requires Tallies(m, logs, facet, procedures)
    ensures Tallies(Tally(m, KeyOf(l, facet, procedures)), logs + [l], facet, procedures)
    ensures Counted(logs + [l], facet, procedures)
      == Counted(logs, facet, procedures) + (if CountsAsNumber(l, facet, procedures) then 1 else 0)
  {
    var ext := logs + [l];
    assert ext[..|ext| - 1] == logs;
    var t := Tally(m, KeyOf(l, facet, procedures));
    forall k
      ensures && (k in t <==> k != "__proto__" && Count(ext, facet, procedures, k) > 0)
              && (k in t ==> t[k] == Shown(k, Count(ext, facet, procedures, k)))
    {
      TallyStepAt(m, logs, l, facet, procedures, k);
    }
  }

  /** `TallyStep` for the one key `k`. */
  lemma TallyStepAt(m: map<string, Counter>, logs: seq<CaseLog>, l: CaseLog, facet: Facet,
                    procedures: seq<Database.Procedure>, k: string)
    requires Tallies(m, logs, facet, procedures)
    ensures var t := Tally(m, KeyOf(l, facet, procedures));
      && (k in t <==> k != "__proto__" && Count(logs + [l], facet, procedures, k) > 0)
      && (k in t ==> t[k] == Shown(k, Count(logs + [l], facet, procedures, k)))
  {
    var ext := logs + [l];
    assert ext[..|ext| - 1] == logs;
    var key := KeyOf(l, facet, procedures);
    var c := Count(logs, facet, procedures, k);
    assert Count(ext, facet, procedures, k) == c + (if key == Some(k) then 1 else 0);
    if key == Some(k) && k != "__proto__" {
      if k in m {
        assert Ones(c + 1) == Ones(c) + "1";
        assert NativeText(k) + Ones(c + 1) == NativeText(k) + Ones(c) + "1";
      } else {
        assert Ones(1) == "1";
      }
    }
  }

  /** `m` after counting one log whose key is `key` (no key: unchanged). */
  function Tally(m: map<string, Counter>, key: Option<string>): map<string, Counter> {
    if key.Some? then Bump(m, key.value) else m
  }

  /** The running values of the statistics loop are those of the logs seen so far. */
  ghost predicate Summarizes(byRole: map<string, Counter>, byCategory: map<string, Counter>,
                             byMonth: map<string, Counter>, minutes: int, logs: seq<CaseLog>,
                             procedures: seq<Database.Procedure>)
  {
    && minutes == Minutes(logs)
    && Tallies(byRole, logs, ByRole, procedures)
    && Total(byRole) == Counted(logs, ByRole, procedures)
    && Tallies(byCategory, logs, ByCategory, procedures)
    && Total(byCategory) == Counted(logs, ByCategory, procedures)
    && Tallies(byMonth, logs, ByMonth, procedures)
    && Total(byMonth) == Counted(logs, ByMonth, procedures)
  }

  /** Counting log `l` in one dictionary keeps that dictionary's part of `Summarizes`. */
  lemma FacetStep(m: map<string, Counter>, logs: seq<CaseLog>, l: CaseLog, facet: Facet,
                  procedures: seq<Database.Procedure>)
    requires Tallies(m, logs, facet, procedures) && Total(m) == Counted(logs, facet, procedures)
    ensures var t := Tally(m, KeyOf(l, facet, procedures));
      Tallies(t, logs + [l], facet, procedures) && Total(t) == Counted(logs + [l], facet, procedures)
  {
    TallyStep(m, logs, l, facet, procedures);
    var key := KeyOf(l, facet, procedures);
    if key.Some? {
      TotalBump(m, key.value);
    }
  }

  lemma SummarizesStep(byRole: map<string, Counter>, byCategory: map<string, Counter>,
                       byMonth: map<string, Counter>, minutes: int, logs: seq<CaseLog>, l: CaseLog,
                       procedures: seq<Database.Procedure>)
    requires Summarizes(byRole, byCategory, byMonth, minutes, logs, procedures)
    ensures Summarizes(Tally(byRole, KeyOf(l, ByRole, procedures)),
                       Tally(byCategory, KeyOf(l, ByCategory, procedures)),
                       Tally(byMonth, KeyOf(l, ByMonth, procedures)),
                       minutes + (if TruthyInt(l.durationMinutes) then l.durationMinutes.value else 0),
                       logs + [l], procedures)
  {
    var ext := logs + [l];
    assert ext[..|ext| - 1] == logs;
    FacetStep(byRole, logs, l, ByRole, procedures);
    FacetStep(byCategory, logs, l, ByCategory, procedures);
    FacetStep(byMonth, logs, l, ByMonth, procedures);
  }

  /**
   * `GET /api/caselogs/stats`: `total` is the number of logs; each
   * dictionary holds exactly the keys the logs have (role, resolved
   * category, `YYYY-MM` month), bar `__proto__`, with what the per-key
   * counts leave there; the numeric counts add up to the number of logs
   * counted as numbers, so the role counts add up to `total` exactly when
   * no role is an inherited name, and the others to at most `total`; and
   * the minutes are the sum of the truthy durations.
   */
  method ComputeStats(logs: seq<CaseLog>, procedures: seq<Database.Procedure>) returns (stats: Stats)
    ensures stats.total == |logs|
    ensures stats.totalMinutes == Minutes(logs)
    ensures Tallies(stats.byRole, logs, ByRole, procedures)
    ensures Total(stats.byRole) == stats.total <==> forall l :: l in logs ==> !Inherited(l.role)
    ensures Total(stats.byRole) <= stats.total
    ensures Tallies(stats.byCategory, logs, ByCategory, procedures)
    ensures Total(stats.byCategory) == Counted(logs, ByCategory, procedures) <= stats.total
    ensures Tallies(stats.byMonth, logs, ByMonth, procedures)
    ensures Total(stats.byMonth) == Counted(logs, ByMonth, procedures) <= stats.total
  {
    var byRole: map<string, Counter> := map[];
    var byCategory: map<string, Counter> := map[];
    var byMonth: map<string, Counter> := map[];
    var minutes := 0;
    var i := 0;
    while i < |logs|
      invariant 0 <= i <= |logs|
      invariant Summarizes(byRole, byCategory, byMonth, minutes, logs[..i], procedures)
    {
      var log := logs[i];
      SummarizesStep(byRole, byCategory, byMonth, minutes, logs[..i], log, procedures);
      assert logs[..i + 1] == logs[..i] + [log];

      byRole := Bump(byRole, log.role);

      var category := CategoryOf(log, procedures);
      if category.Some? {
        byCategory := Bump(byCategory, category.value);
      }

      if Truthy(log.date) {
        byMonth := Bump(byMonth, Month(log.date.value));
      }

      if TruthyInt(log.durationMinutes) {
        minutes := minutes + log.durationMinutes.value;
      }
      i := i + 1;
    }
    assert logs[..|logs|] == logs;
    CountedByRole(logs, procedures);
    CountedAtMost(logs, ByCategory, procedures);
    CountedAtMost(logs, ByMonth, procedures);
    stats := Stats(|logs|, minutes, byRole, byCategory, byMonth);
  }

  // ------------------------------------------------------------ POST /

  /** The fields of a create request; any may be missing. */
  datatype CaseLogBody = CaseLogBody(
    procedureId: Option<int>,
    procedureName: Option<string>,
    date: Option<string>,
    role: Option<string>,
    supervisor: Option<string>,
    hospital: Option<string>,
    patientAge: Option<int>,
    patientSex: Option<string>,
    diagnosis: Option<string>,
    complications: Option<string>,
    outcome: Option<string>,
    notes: Option<string>,
    durationMinutes: Option<int>)

  /** The record handed to `createCaseLog`. */
  datatype NewCaseLog = NewCaseLog(
    userId: int,
    procedureId: Option<int>,
    procedureName: string,
    date: string,
    role: string,
    supervisor: Option<string>,
    hospital: Option<string>,
    patientAge: Option<int>,
    patientSex: Option<string>,
    diagnosis: Option<string>,
    complications: Option<string>,
    outcome: Option<string>,
    notes: Option<string>,
    durationMinutes: Option<int>)

  /** Either the 400 reply, or the record the store is asked to create. */
  datatype PostOutcome = BadRequest(error: string) | Create(record: NewCaseLog)

  /**
   * `POST /api/caselogs`: without a truthy procedure name or date, a 400
   * and no record; otherwise a record owned by the caller, with the given
   * name and date, the role defaulting to "observer", and every other
   * falsy field stored as null.
   */
  function PostCaseLog(userId: int, body: CaseLogBody): (r: PostOutcome)
    ensures r.BadRequest? <==> !Truthy(body.procedureName) || !Truthy(body.date)
    ensures r.BadRequest? ==> r.error == "Procedure name and date are required"
    ensures r.Create? ==>
      && r.record.userId == userId
      && Some(r.record.procedureName) == body.procedureName && r.record.procedureName != ""
      && Some(r.record.date) == body.date && r.record.date != ""
      && r.record.role == (if Truthy(body.role) then body.role.value else "observer")
      && NullDefaultedInt(body.procedureId, r.record.procedureId)
      && NullDefaulted(body.supervisor, r.record.supervisor)
      && NullDefaulted(body.hospital, r.record.hospital)
      && NullDefaultedInt(body.patientAge, r.record.patientAge)
      && NullDefaulted(body.patientSex, r.record.patientSex)
      && NullDefaulted(body.diagnosis, r.record.diagnosis)
      && NullDefaulted(body.complications, r.record.complications)
      && NullDefaulted(body.outcome, r.record.outcome)
      && NullDefaulted(body.notes, r.record.notes)
      && NullDefaultedInt(body.durationMinutes, r.record.durationMinutes)
  {
    if !Truthy(body.procedureName) || !Truthy(body.date) then
      BadRequest("Procedure name and date are required")
    else
      Create(NewCaseLog(
        userId, OrNullInt(body.procedureId), body.procedureName.value, body.date.value,
        OrDefault(body.role, "observer"), OrNull(body.supervisor), OrNull(body.hospital),
        OrNullInt(body.patientAge), OrNull(body.patientSex), OrNull(body.diagnosis),
        OrNull(body.complications), OrNull(body.outcome), OrNull(body.notes),
        OrNullInt(body.durationMinutes)))
  }

  // ------------------------------------------- GET / PUT / DELETE /:id

  /** A reply of the by-ID routes. */
  datatype Reply = Reply(status: int, body: ReplyBody)
  datatype ReplyBody = LogBody(log: CaseLog) | Message(message: string) | Error(error: string)

  const NotFoundReply := Reply(404, Error("Case log not found"))

  /** `GET /api/caselogs/:id`, given what `getCaseLog(id, userId)` returned. */
  function GetReply(found: Option<CaseLog>): (r: Reply)
    ensures r.status == 404 <==> found.None?
    ensures found.None? ==> r == NotFoundReply
    ensures found.Some? ==> r.status == 200 && r.body == LogBody(found.value)
  {
    if found.None? then NotFoundReply else Reply(200, LogBody(found.value))
  }

  /** The two by-ID routes that change a log. */
  datatype Change = Update | Delete

  /**
   * `PUT` and `DELETE /api/caselogs/:id`, given the flag
   * `updateCaseLog(id, userId, body)` or `deleteCaseLog(id, userId)`
   * returned: 404 exactly when the store reports failure.
   */
  function ChangeReply(change: Change, success: bool): (r: Reply)
    ensures r.status == 404 <==> !success
    ensures !success ==> r == NotFoundReply
    ensures success && change == Update ==> r == Reply(200, Message("Case log updated successfully"))
    ensures success && change == Delete ==> r == Reply(200, Message("Case log deleted successfully"))
  {
    if !success then NotFoundReply
    else if change == Update then Reply(200, Message("Case log updated successfully"))
    else Reply(200, Message("Case log deleted successfully"))
  }
}
