/**
 * The procedure record store: one document holding the procedures and two
 * ID counters. Every operation loads the whole document, changes it in
 * memory and writes it back; here the document is the state of a `Store`
 * object and each operation is one method on it.
 */
module Database {
  import opened JsValues
  import opened JsSort

  /** An image or video attached to a step, as a client sends it. */
  datatype Media = Media(kind: string, url: string, caption: string)

  /** One element of a request's `steps` array. Its `media` are accepted and then dropped. */
  datatype StepInput = StepInput(
    title: Option<string>,
    description: Option<string>,
    tips: Option<string>,
    warnings: Option<string>,
    media: Option<seq<Media>>)

  /** The fields of a create or update request. */
  datatype ProcedureInput = ProcedureInput(
    name: string,
    category: Option<string>,
    description: Option<string>,
    indications: Option<string>,
    contraindications: Option<string>,
    steps: Option<seq<StepInput>>)

  /** A stored step (`step_number` in the document is `stepNumber` here). */
  datatype Step = Step(
    id: int,
    stepNumber: int,
    title: string,
    description: Option<string>,
    tips: Option<string>,
    warnings: Option<string>)

  /** A stored procedure (`created_at` / `updated_at` are `createdAt` / `updatedAt`). */
  datatype Procedure = Procedure(
    id: int,
    name: string,
    category: Option<string>,
    description: Option<string>,
    indications: Option<string>,
    contraindications: Option<string>,
    steps: seq<Step>,
    createdAt: string,
    updatedAt: string)

  // ------------------------------------------------------------ steps

  /** `procedureData.steps || []`. */
  function StepInputs(steps: Option<seq<StepInput>>): seq<StepInput> {
    if steps.Some? then steps.value else []
  }

  /** `step.title || "Step " + (index + 1)`. */
  function StepTitle(title: Option<string>, index: nat): string {
    OrDefault(title, "Step " + NatToString(index + 1))
  }

  /** The step built for the input at position `index`, given the step counter's value `id`. */
  function MakeStep(input: StepInput, index: nat, id: int): Step {
    Step(id, index + 1, StepTitle(input.title, index),
         OrNull(input.description), OrNull(input.tips), OrNull(input.warnings))
  }

  /**
   * The steps `map` issues for `inputs` when the first of them sits at
   * position `offset` and the step counter stands at `nextId`: each step
   * takes the counter's value and then advances it.
   */
  function IssuedSteps(inputs: seq<StepInput>, offset: nat, nextId: int): seq<Step>
    decreases |inputs|
  {
    if inputs == [] then []
    else [MakeStep(inputs[0], offset, nextId)] + IssuedSteps(inputs[1..], offset + 1, nextId + 1)
  }

  lemma {:induction false} IssuedStepsAt(inputs: seq<StepInput>, offset: nat, nextId: int)
    ensures |IssuedSteps(inputs, offset, nextId)| == |inputs|
    ensures forall k :: 0 <= k < |inputs| ==>
      IssuedSteps(inputs, offset, nextId)[k] == MakeStep(inputs[k], offset + k, nextId + k)
    decreases |inputs|
  {
    if inputs != [] {
      IssuedStepsAt(inputs[1..], offset + 1, nextId + 1);
    }
  }

  /** Step `k` is numbered `k + 1` and carries an ID below `bound`. */
  ghost predicate WellNumbered(steps: seq<Step>, bound: int) {
    forall k :: 0 <= k < |steps| ==> steps[k].stepNumber == k + 1 && steps[k].id < bound
  }

  /**
   * What the issued steps are: step `k` is numbered `k + 1`, takes ID
   * `nextId + k`, keeps its description, tips and warnings when truthy and
   * otherwise gets null, and gets the title "Step k+1" when its own is falsy;
   * so every issued title is non-empty.
   */
  lemma IssuedStepsPositional(inputs: seq<StepInput>, nextId: int)
    ensures var r := IssuedSteps(inputs, 0, nextId);
      && |r| == |inputs|
      && WellNumbered(r, nextId + |inputs|)
      && forall k :: 0 <= k < |r| ==>
           && r[k].id == nextId + k
           && r[k].title == (if Truthy(inputs[k].title) then inputs[k].title.value
                             else "Step " + NatToString(k + 1))
           && r[k].title != ""
           && r[k].description == OrNull(inputs[k].description)
           && r[k].tips == OrNull(inputs[k].tips)
           && r[k].warnings == OrNull(inputs[k].warnings)
  {
    IssuedStepsAt(inputs, 0, nextId);
  }

  // -------------------------------------------------- procedure records

  /** The record `createProcedure` appends: ID `id`, step IDs from `firstStepId`. */
  function NewProcedure(data: ProcedureInput, id: int, firstStepId: int,
                        createdAt: string, updatedAt: string): Procedure
  {
    Procedure(id, data.name, OrNull(data.category), OrNull(data.description),
              OrNull(data.indications), OrNull(data.contraindications),
              IssuedSteps(StepInputs(data.steps), 0, firstStepId), createdAt, updatedAt)
  }

  /** The record `updateProcedure` stores in place of `p`: `{...p, <new fields>}`. */
  function Replaced(p: Procedure, data: ProcedureInput, firstStepId: int, updatedAt: string): Procedure {
    p.(name := data.name, category := OrNull(data.category), description := OrNull(data.description),
       indications := OrNull(data.indications), contraindications := OrNull(data.contraindications),
       steps := IssuedSteps(StepInputs(data.steps), 0, firstStepId), updatedAt := updatedAt)
  }

  /**
   * An update keeps the record's ID and creation time, replaces every other
   * field from the request (absent optional fields become null rather than
   * keeping their old value), and gives every new step an ID no old step
   * had, even when the request repeats the old steps unchanged.
   */
  lemma UpdateReplacesEverything(p: Procedure, data: ProcedureInput, firstStepId: int, updatedAt: string)
    requires forall t :: t in p.steps ==> t.id < firstStepId
    ensures var r := Replaced(p, data, firstStepId, updatedAt);
      && r.id == p.id && r.createdAt == p.createdAt && r.updatedAt == updatedAt
      && r.name == data.name
      && (Truthy(data.category) ==> r.category == data.category) && (!Truthy(data.category) ==> r.category == None)
      && (Truthy(data.description) ==> r.description == data.description)
      && (!Truthy(data.description) ==> r.description == None)
      && (Truthy(data.indications) ==> r.indications == data.indications)
      && (!Truthy(data.indications) ==> r.indications == None)
      && (Truthy(data.contraindications) ==> r.contraindications == data.contraindications)
      && (!Truthy(data.contraindications) ==> r.contraindications == None)
      && |r.steps| == |StepInputs(data.steps)|
      && forall s, t :: s in r.steps && t in p.steps ==> s.id != t.id
  {
    var inputs := StepInputs(data.steps);
    IssuedStepsAt(inputs, 0, firstStepId);
    var r := Replaced(p, data, firstStepId, updatedAt);
    forall s, t | s in r.steps && t in p.steps
      ensures s.id != t.id
    {
      var k :| 0 <= k < |r.steps| && r.steps[k] == s;
      assert s.id == firstStepId + k;
    }
  }

  // --------------------------------------------------------- lookups

  /** `procedures.findIndex(p => p.id === id)`: the first position holding `id`. */
  function IndexOf(procedures: seq<Procedure>, id: int): (r: Option<nat>)
    ensures r.Some? ==>
      && r.value < |procedures| && procedures[r.value].id == id
      && forall j :: 0 <= j < r.value ==> procedures[j].id != id
    ensures r.None? <==> forall p :: p in procedures ==> p.id != id
    decreases |procedures|
  {
    if procedures == [] then None
    else if procedures[0].id == id then Some(0)
    else
      var rest := IndexOf(procedures[1..], id);
      assert procedures == [procedures[0]] + procedures[1..];
      if rest.None? then None else Some(rest.value + 1)
  }

  /** `getProcedure`: the first procedure holding `id`, or nothing. */
  function GetProcedure(procedures: seq<Procedure>, id: int): (r: Option<Procedure>)
    ensures r.Some? <==> exists p :: p in procedures && p.id == id
    ensures r.Some? ==> r.value in procedures && r.value.id == id
  {
    var k := IndexOf(procedures, id);
    if k.Some? then Some(procedures[k.value]) else None
  }

  /** `procedures.filter(p => p.id !== id)`. */
  function WithoutId(procedures: seq<Procedure>, id: int): (r: seq<Procedure>)
    ensures |r| <= |procedures|
    ensures forall p :: p in r <==> p in procedures && p.id != id
    ensures |r| == |procedures| <==> forall p :: p in procedures ==> p.id != id
    decreases |procedures|
  {
    if procedures == [] then []
    else
      assert procedures == [procedures[0]] + procedures[1..];
      (if procedures[0].id != id then [procedures[0]] else []) + WithoutId(procedures[1..], id)
  }

  /** IDs are pairwise distinct. */
  ghost predicate UniqueIds(procedures: seq<Procedure>) {
    forall i, j :: 0 <= i < j < |procedures| ==> procedures[i].id != procedures[j].id
  }

  /** With distinct IDs, removing `id` cuts out exactly its one record and keeps the rest in order. */
  lemma {:induction false} WithoutIdCutsOne(procedures: seq<Procedure>, id: int, k: nat)
    requires UniqueIds(procedures) && k < |procedures| && procedures[k].id == id
    ensures WithoutId(procedures, id) == procedures[..k] + procedures[k + 1..]
    decreases |procedures|
  {
    var tail := procedures[1..];
    if k == 0 {
      WithoutIdCutsHead(procedures, id);
    } else {
      assert procedures[0].id != procedures[k].id;
      UniqueIdsTail(procedures);
      WithoutIdCutsOne(tail, id, k - 1);
      var rest := WithoutId(tail, id);
      assert WithoutId(procedures, id) == [procedures[0]] + rest;
      assert procedures[..k] == [procedures[0]] + tail[..k - 1];
      assert tail[k..] == procedures[k + 1..];
    }
  }

  lemma WithoutIdCutsHead(procedures: seq<Procedure>, id: int)
    requires UniqueIds(procedures) && procedures != [] && procedures[0].id == id
    ensures WithoutId(procedures, id) == procedures[1..]
  {
    var tail := procedures[1..];
    forall j | 0 <= j < |tail|
      ensures tail[j].id != id
    {
      assert tail[j] == procedures[j + 1];
    }
    NoMatchKeepsAll(tail, id);
  }

  lemma UniqueIdsTail(procedures: seq<Procedure>)
    requires UniqueIds(procedures) && procedures != []
    ensures UniqueIds(procedures[1..])
  {
    var tail := procedures[1..];
    forall i, j | 0 <= i < j < |tail|
      ensures tail[i].id != tail[j].id
    {
      assert tail[i] == procedures[i + 1] && tail[j] == procedures[j + 1];
    }
  }

  lemma {:induction false} NoMatchKeepsAll(procedures: seq<Procedure>, id: int)
    requires forall j :: 0 <= j < |procedures| ==> procedures[j].id != id
    ensures WithoutId(procedures, id) == procedures
    decreases |procedures|
  {
    if procedures != [] {
      NoMatchKeepsAll(procedures[1..], id);
      assert procedures == [procedures[0]] + procedures[1..];
    }
  }

  // ------------------------------------------------------------ listing

  /** The search test of `getAllProcedures`: name, description or indications contains the query, ignoring case. */
  predicate MatchesSearch(p: Procedure, search: string) {
    var q := Lower(search);
    || Includes(Lower(p.name), q)
    || (Truthy(p.description) && Includes(Lower(p.description.value), q))
    || (Truthy(p.indications) && Includes(Lower(p.indications.value), q))
  }

  /** Both filters of `getAllProcedures`; an empty search or category does not filter. */
  predicate Listed(p: Procedure, search: string, category: string) {
    (search == "" || MatchesSearch(p, search)) && (category == "" || p.category == Some(category))
  }

  /**
   * The two filters of `getAllProcedures`, one after the other: each
   * listed record is kept as often as it is stored, and the others not at
   * all; `FilterListedAppend` shows the store's order is kept.
   */
  function FilterListed(procedures: seq<Procedure>, search: string, category: string): (r: seq<Procedure>)
    ensures forall p :: p in r <==> p in procedures && Listed(p, search, category)
    ensures forall p :: multiset(r)[p] == if Listed(p, search, category) then multiset(procedures)[p] else 0
  {
    var searched := if search != "" then Filter(procedures, (p: Procedure) => MatchesSearch(p, search)) else procedures;
    var r := if category != "" then Filter(searched, (p: Procedure) => p.category == Some(category)) else searched;
    assert forall p :: multiset(r)[p] == if Listed(p, search, category) then multiset(procedures)[p] else 0 by {
      forall p
        ensures multiset(r)[p] == if Listed(p, search, category) then multiset(procedures)[p] else 0
      {
        if search != "" {
          FilterCount(procedures, (p: Procedure) => MatchesSearch(p, search), p);
        }
        if category != "" {
          FilterCount(searched, (p: Procedure) => p.category == Some(category), p);
        }
      }
    }
    r
  }

  /** Listing two parts of the store and joining the results gives the listing of the whole. */
  lemma FilterListedAppend(a: seq<Procedure>, b: seq<Procedure>, search: string, category: string)
    ensures FilterListed(a + b, search, category) == FilterListed(a, search, category) + FilterListed(b, search, category)
  {
    var bySearch := (p: Procedure) => MatchesSearch(p, search);
    var byCategory := (p: Procedure) => p.category == Some(category);
    if search != "" {
      FilterAppend(a, b, bySearch);
      if category != "" {
        FilterAppend(Filter(a, bySearch), Filter(b, bySearch), byCategory);
      }
    } else if category != "" {
      FilterAppend(a, b, byCategory);
    }
  }

  /** The two filters in a row list exactly what one pass of `Listed` would. */
  lemma FilterListedOnePass(procedures: seq<Procedure>, search: string, category: string)
    ensures FilterListed(procedures, search, category) == Filter(procedures, (p: Procedure) => Listed(p, search, category))
  {
    var bySearch := (p: Procedure) => MatchesSearch(p, search);
    var byCategory := (p: Procedure) => p.category == Some(category);
    var listed := (p: Procedure) => Listed(p, search, category);
    if search != "" && category != "" {
      FilterFilter(procedures, bySearch, byCategory, listed);
    } else if search != "" {
      FilterSame(procedures, bySearch, listed);
    } else if category != "" {
      FilterSame(procedures, byCategory, listed);
    } else {
      FilterAll(procedures, listed);
    }
  }

  function NameOf(p: Procedure): string {
    p.name
  }

  /**
   * `getAllProcedures(search, category)`: exactly the procedures passing
   * both filters, each as often as it is stored, ordered by name; records
   * with the same name keep their order in the store.
   */
  function GetAllProcedures(procedures: seq<Procedure>, search: string, category: string): (r: seq<Procedure>)
    ensures SortedBy(r, NameOf)
    ensures forall p :: multiset(r)[p] == if Listed(p, search, category) then multiset(procedures)[p] else 0
    ensures forall p :: p in r <==> p in procedures && Listed(p, search, category)
    ensures forall n :: WithKey(r, NameOf, n) == WithKey(FilterListed(procedures, search, category), NameOf, n)
  {
    var listed := FilterListed(procedures, search, category);
    var r := SortBy(listed, NameOf);
    assert forall n :: WithKey(r, NameOf, n) == WithKey(listed, NameOf, n) by {
      forall n
        ensures WithKey(r, NameOf, n) == WithKey(listed, NameOf, n)
      {
        SortByStable(listed, NameOf, n);
      }
    }
    assert forall p :: p in r <==> p in multiset(r);
    r
  }

  // --------------------------------------------------------- categories

  predicate NoDuplicates<T(==)>(s: seq<T>) {
    forall i, j :: 0 <= i < j < |s| ==> s[i] != s[j]
  }

  /** `procedures.map(p => p.category).filter(c => c !== null)`. */
  function CategoryValues(procedures: seq<Procedure>): (r: seq<string>)
    ensures forall c :: c in r <==> exists p :: p in procedures && p.category == Some(c)
    decreases |procedures|
  {
    if procedures == [] then []
    else
      assert procedures == [procedures[0]] + procedures[1..];
      (if procedures[0].category.Some? then [procedures[0].category.value] else [])
      + CategoryValues(procedures[1..])
  }

  /** `[...new Set(s)]`: the first occurrence of each value, in order. */
  function Distinct(s: seq<string>): (r: seq<string>)
    ensures NoDuplicates(r)
    ensures forall x :: x in r <==> x in s
    decreases |s|
  {
    if s == [] then []
    else
      var d := Distinct(s[..|s| - 1]);
      assert s == s[..|s| - 1] + [s[|s| - 1]];
      if s[|s| - 1] in d then d else d + [s[|s| - 1]]
  }

  lemma {:induction false} NoDuplicatesCount(s: seq<string>, x: string)
    requires NoDuplicates(s)
    ensures multiset(s)[x] <= 1
    decreases |s|
  {
    if s != [] {
      assert s == [s[0]] + s[1..];
      NoDuplicatesCount(s[1..], x);
      if s[0] == x {
        assert x !in s[1..] by {
          forall j | 0 <= j < |s[1..]| ensures s[1..][j] != x {
            assert s[1..][j] == s[j + 1];
          }
        }
      }
    }
  }

  lemma RepeatCount(t: seq<string>, i: nat, j: nat)
    requires i < j < |t|
    ensures t[i] == t[j] ==> multiset(t)[t[i]] >= 2
  {
    assert t == t[..j] + [t[j]] + t[j + 1..];
    assert t[i] in t[..j];
  }

  /** A permutation of a sequence without duplicates has none either. */
  lemma NoDuplicatesPermutation(s: seq<string>, t: seq<string>)
    requires NoDuplicates(s) && multiset(s) == multiset(t)
    ensures NoDuplicates(t)
  {
    forall i, j | 0 <= i < j < |t|
      ensures t[i] != t[j]
    {
      NoDuplicatesCount(s, t[i]);
      RepeatCount(t, i, j);
    }
  }

  /** `getCategories`: each non-null category once, in ascending order. */
  function GetCategories(procedures: seq<Procedure>): (r: seq<string>)
    ensures SortedBy(r, (c: string) => c)
    ensures NoDuplicates(r)
    ensures forall c :: c in r <==> exists p :: p in procedures && p.category == Some(c)
  {
    var d := Distinct(CategoryValues(procedures));
    var r := SortBy(d, (c: string) => c);
    NoDuplicatesPermutation(d, r);
    assert forall c :: c in r <==> c in multiset(d);
    r
  }

  // -------------------------------------------------------------- store

  /**
   * What the store's operations keep true of the document: procedure IDs
   * are distinct and below the procedure counter, steps are numbered by
   * position, and step IDs are below the step counter.
   */
  ghost predicate ValidDocument(procedures: seq<Procedure>, nextProcedureId: int, nextStepId: int) {
    && UniqueIds(procedures)
    && UniqueStepIds(procedures)
    && forall i :: 0 <= i < |procedures| ==>
         procedures[i].id < nextProcedureId && WellNumbered(procedures[i].steps, nextStepId)
  }

  /** No step ID occurs twice in the document, within one procedure or across two. */
  ghost predicate UniqueStepIds(procedures: seq<Procedure>) {
    forall i, a, j, b ::
      && 0 <= i < |procedures| && 0 <= a < |procedures[i].steps|
      && 0 <= j < |procedures| && 0 <= b < |procedures[j].steps|
      && (i != j || a != b)
      ==> procedures[i].steps[a].id != procedures[j].steps[b].id
  }

  /** Steps numbered by position whose IDs run `first`, `first + 1`, ... */
  ghost predicate IssuedFrom(steps: seq<Step>, first: int) {
    forall a :: 0 <= a < |steps| ==> steps[a].stepNumber == a + 1 && steps[a].id == first + a
  }

  /**
   * Storing a record whose steps were just issued from the step counter,
   * at position `k` in place of the record with its ID, or appended
   * (`k == |procedures|`) under an unused ID below the new procedure
   * counter, keeps the document valid once the step counter has advanced
   * past the new steps.
   */
  lemma PutValid(procedures: seq<Procedure>, k: nat, p: Procedure,
                 nextProcedureId: int, nextStepId: int, newProcedureId: int)
    requires ValidDocument(procedures, nextProcedureId, nextStepId) && k <= |procedures|
    requires IssuedFrom(p.steps, nextStepId) && nextProcedureId <= newProcedureId
    requires k < |procedures| ==> p.id == procedures[k].id
    requires k == |procedures| ==> p.id < newProcedureId && forall q :: q in procedures ==> q.id != p.id
    ensures ValidDocument(if k == |procedures| then procedures + [p] else procedures[k := p],
                          newProcedureId, nextStepId + |p.steps|)
  {
    var t := if k == |procedures| then procedures + [p] else procedures[k := p];
    assert forall i :: 0 <= i < |t| ==> t[i] == if i == k then p else procedures[i];
    forall i, a, j, b |
      && 0 <= i < |t| && 0 <= a < |t[i].steps| && 0 <= j < |t| && 0 <= b < |t[j].steps|
      && (i != j || a != b)
      ensures t[i].steps[a].id != t[j].steps[b].id
    {
      if i != k && j != k {
        assert t[i] == procedures[i] && t[j] == procedures[j];
      } else if i != k {
        assert WellNumbered(procedures[i].steps, nextStepId);
      } else if j != k {
        assert WellNumbered(procedures[j].steps, nextStepId);
      }
    }
    forall i, j | 0 <= i < j < |t|
      ensures t[i].id != t[j].id
    {
      if k == |procedures| && j == k {
        assert procedures[i] in procedures;
      }
    }
  }

  /** Cutting one record out of a valid document leaves it valid. */
  lemma SpliceValid(procedures: seq<Procedure>, k: nat, nextProcedureId: int, nextStepId: int)
    requires ValidDocument(procedures, nextProcedureId, nextStepId) && k < |procedures|
    ensures ValidDocument(procedures[..k] + procedures[k + 1..], nextProcedureId, nextStepId)
  {
    var kept := procedures[..k] + procedures[k + 1..];
    assert forall i :: 0 <= i < |kept| ==> kept[i] == procedures[if i < k then i else i + 1];
    forall i, a, j, b |
      && 0 <= i < |kept| && 0 <= a < |kept[i].steps| && 0 <= j < |kept| && 0 <= b < |kept[j].steps|
      && (i != j || a != b)
      ensures kept[i].steps[a].id != kept[j].steps[b].id
    {
      var i' := if i < k then i else i + 1;
      var j' := if j < k then j else j + 1;
      assert kept[i] == procedures[i'] && kept[j] == procedures[j'];
    }
  }

  /** The document: the procedures and the two ID counters. */
  class Store {
    var procedures: seq<Procedure>
    var nextProcedureId: int
    var nextStepId: int

    ghost predicate Valid()
      reads this
    {
      ValidDocument(procedures, nextProcedureId, nextStepId)
    }

    /** `initDB`: a new document has no procedures and both counters at 1. */
    constructor ()
      ensures procedures == [] && nextProcedureId == 1 && nextStepId == 1
      ensures Valid()
    {
      procedures := [];
      nextProcedureId := 1;
      nextStepId := 1;
    }

    /** The steps `map` with `data.nextStepId++` in its callback. */
    method IssueSteps(inputs: seq<StepInput>) returns (steps: seq<Step>)
      modifies this`nextStepId
      ensures steps == IssuedSteps(inputs, 0, old(nextStepId))
      ensures nextStepId == old(nextStepId) + |inputs|
    {
      steps := [];
      var index := 0;
      while index < |inputs|
        invariant 0 <= index <= |inputs|
        invariant nextStepId == old(nextStepId) + index
        invariant |steps| == index
        invariant forall k :: 0 <= k < index ==> steps[k] == MakeStep(inputs[k], k, old(nextStepId) + k)
      {
        steps := steps + [MakeStep(inputs[index], index, nextStepId)];
        nextStepId := nextStepId + 1;
        index := index + 1;
      }
      IssuedStepsAt(inputs, 0, old(nextStepId));
    }

    /**
     * `createProcedure`: returns the old procedure counter, advances it by
     * one, advances the step counter by the number of steps, and appends the
     * new record after the unchanged existing ones.
     */
    method CreateProcedure(data: ProcedureInput, createdAt: string, updatedAt: string) returns (id: int)
      modifies this
      ensures id == old(nextProcedureId) && nextProcedureId == old(nextProcedureId) + 1
      ensures nextStepId == old(nextStepId) + |StepInputs(data.steps)|
      ensures procedures == old(procedures) + [NewProcedure(data, id, old(nextStepId), createdAt, updatedAt)]
      ensures old(Valid()) ==> Valid()
    {
      ghost var wasValid := Valid();
      id := nextProcedureId;
      nextProcedureId := nextProcedureId + 1;
      var steps := IssueSteps(StepInputs(data.steps));
      var p := Procedure(id, data.name, OrNull(data.category), OrNull(data.description),
                         OrNull(data.indications), OrNull(data.contraindications),
                         steps, createdAt, updatedAt);
      IssuedStepsPositional(StepInputs(data.steps), old(nextStepId));
      if wasValid {
        PutValid(procedures, |procedures|, p, id, old(nextStepId), nextProcedureId);
      }
      procedures := procedures + [p];
    }

    /**
     * `updateProcedure`: for an unknown ID, returns false and changes
     * nothing (no step ID is consumed); otherwise replaces the first record
     * with that ID in place, issuing all its step IDs afresh.
     */
    method UpdateProcedure(id: int, data: ProcedureInput, updatedAt: string) returns (found: bool)
      modifies this
      ensures found <==> exists p :: p in old(procedures) && p.id == id
      ensures nextProcedureId == old(nextProcedureId)
      ensures !found ==> procedures == old(procedures) && nextStepId == old(nextStepId)
      ensures found ==>
        var k := IndexOf(old(procedures), id).value;
        && procedures == old(procedures)[k := Replaced(old(procedures)[k], data, old(nextStepId), updatedAt)]
        && nextStepId == old(nextStepId) + |StepInputs(data.steps)|
      ensures old(Valid()) ==> Valid()
    {
      ghost var wasValid := Valid();
      var index := IndexOf(procedures, id);
      if index.None? {
        return false;
      }
      var k := index.value;
      var steps := IssueSteps(StepInputs(data.steps));
      var p := procedures[k].(
        name := data.name, category := OrNull(data.category), description := OrNull(data.description),
        indications := OrNull(data.indications), contraindications := OrNull(data.contraindications),
        steps := steps, updatedAt := updatedAt);
      IssuedStepsPositional(StepInputs(data.steps), old(nextStepId));
      if wasValid {
        PutValid(procedures, k, p, nextProcedureId, old(nextStepId), nextProcedureId);
      }
      procedures := procedures[k := p];
      return true;
    }

    /**
     * `deleteProcedure`: removes every record with the ID, keeping the rest
     * in order; returns false and changes nothing when none has it.
     */
    method DeleteProcedure(id: int) returns (removed: bool)
      modifies this`procedures
      ensures removed <==> exists p :: p in old(procedures) && p.id == id
      ensures procedures == WithoutId(old(procedures), id)
      ensures old(Valid()) && removed ==>
        procedures == old(procedures)[..IndexOf(old(procedures), id).value]
                      + old(procedures)[IndexOf(old(procedures), id).value + 1..]
      ensures old(Valid()) ==> Valid()
    {
      var initialLength := |procedures|;
      var kept := WithoutId(procedures, id);
      if |kept| == initialLength {
        NoMatchKeepsAll(procedures, id);
        return false;
      }
      var k := IndexOf(procedures, id).value;
      if Valid() {
        WithoutIdCutsOne(procedures, id, k);
        SpliceValid(procedures, k, nextProcedureId, nextStepId);
      }
      procedures := kept;
      return true;
    }
  }
}
