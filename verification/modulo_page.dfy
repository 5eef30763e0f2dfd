/** The module page: whether the module in the route is complete, the
    previous/next module buttons, the lesson sidebar's progress, which
    update failures count as success, and which screen is rendered. */
module ModuloPage {
  import opened Common
  import opened Records
  import TrilhaDetalhes

  /** The module in the route is complete: progress data and the route id are
      present and the first record for that module is at 100%. */
  function ModuloCompleto(progresso: Option<seq<Progresso>>, moduloId: Param): (r: bool)
    ensures r <==> progresso.Some? && moduloId.Numeric? &&
                   exists k :: 0 <= k < |progresso.value| &&
                               progresso.value[k].moduloId == moduloId.n && IsDone(progresso.value[k]) &&
                               forall j :: 0 <= j < k ==> progresso.value[j].moduloId != moduloId.n
  {
    if progresso.None? || moduloId.Missing? || moduloId.NonNumeric? then false
    else IsModuleCompleted(progresso.value, moduloId.n)
  }

  datatype Neighbours = Neighbours(proximo: Option<Modulo>, anterior: Option<Modulo>)

  /** Position of the route's module in the track (`findIndex`, -1 if absent). */
  function CurrentIndex(todos: seq<Modulo>, moduloId: Param): (k: int)
    ensures -1 <= k < |todos|
    ensures k >= 0 ==> moduloId.Numeric? && todos[k].moduloId == moduloId.n
    ensures forall j :: 0 <= j < |todos| && (k < 0 || j < k) ==>
              !(moduloId.Numeric? && todos[j].moduloId == moduloId.n)
  {
    FindIndex(todos, (m: Modulo) => moduloId.Numeric? && m.moduloId == moduloId.n)
  }

  /** The next and previous modules: the neighbours of the route's module in
      the track, none at the ends; with the module not found, no previous and
      the first module as next. */
  function ProximoAnterior(todos: Option<seq<Modulo>>, moduloId: Param): (r: Neighbours)
    ensures todos.None? || moduloId.Missing? ==> r == Neighbours(None, None)
    ensures todos.Some? && !moduloId.Missing? ==>
      var ms, k := todos.value, CurrentIndex(todos.value, moduloId);
      && (r.proximo.Some? <==> k + 1 < |ms|)
      && (r.proximo.Some? ==> r.proximo.value == ms[k + 1])
      && (r.anterior.Some? <==> k > 0)
      && (r.anterior.Some? ==> r.anterior.value == ms[k - 1])
  {
    if todos.None? || moduloId.Missing? then Neighbours(None, None)
    else
      var ms := todos.value;
      var k := CurrentIndex(ms, moduloId);
      Neighbours(if k < |ms| - 1 then Some(ms[k + 1]) else None,
                 if k > 0 then Some(ms[k - 1]) else None)
  }

  /** The first module of a track has no previous module and the last has no
      next one. */
  lemma EndsHaveNoNeighbour(ms: seq<Modulo>, moduloId: int)
    requires |ms| > 0
    ensures ms[0].moduloId == moduloId ==>
            ProximoAnterior(Some(ms), Numeric(moduloId)).anterior.None?
    ensures ms[|ms| - 1].moduloId == moduloId &&
            (forall j :: 0 <= j < |ms| - 1 ==> ms[j].moduloId != moduloId) ==>
            ProximoAnterior(Some(ms), Numeric(moduloId)).proximo.None?
  {
  }

  /** A module id that is not in the track: no previous, and the first module
      as next. */
  lemma UnknownModuleGoesToFirst(ms: seq<Modulo>, moduloId: Param)
    requires !moduloId.Missing?
    requires forall j :: 0 <= j < |ms| ==> !(moduloId.Numeric? && ms[j].moduloId == moduloId.n)
    ensures ProximoAnterior(Some(ms), moduloId).anterior.None?
    ensures ProximoAnterior(Some(ms), moduloId).proximo == if |ms| > 0 then Some(ms[0]) else None
  {
  }

  // ---------------------------------------------------------------------
  // Lessons (a fixed list of six)
  // ---------------------------------------------------------------------

  datatype Aula = Aula(id: int, title: string, duration: string, completed: bool)

  function AulaTitle(id: int): string
  {
    match id
    case 1 => "Introdução ao tema"
    case 2 => "Conceitos fundamentais"
    case 3 => "Prática guiada"
    case 4 => "Exercícios práticos"
    case 5 => "Projeto final"
    case _ => "Revisão e quiz"
  }

  function AulaDuration(id: int): string
  {
    match id
    case 1 => "8 min"
    case 2 => "15 min"
    case 3 => "20 min"
    case 4 => "25 min"
    case 5 => "30 min"
    case _ => "12 min"
  }

  /** The sidebar's six lessons: the first two are done, the third once a
      later lesson is selected, the rest never. */
  function Aulas(selectedAula: int): (r: seq<Aula>)
    ensures |r| == 6
    ensures forall i :: 0 <= i < 6 ==> r[i].id == i + 1
    ensures forall i :: 0 <= i < 6 ==> r[i].completed == (i < 2 || (i == 2 && selectedAula > 3))
  {
    seq(6, i requires 0 <= i < 6 =>
      Aula(i + 1, AulaTitle(i + 1), AulaDuration(i + 1), i < 2 || (i == 2 && selectedAula > 3)))
  }

  predicate AulaDone(a: Aula) { a.completed }

  /** The sidebar percentage: completed lessons over all lessons, rounded. */
  function LessonProgress(selectedAula: int): (r: int)
    ensures 0 <= r <= 100
  {
    var aulas := Aulas(selectedAula);
    var done := |Filter(aulas, AulaDone)|;
    RoundPercentBounds(done, |aulas|);
    RoundPercent(done, |aulas|)
  }

  /** With the fixed lessons the percentage is 33 up to the third lesson and
      50 past it. */
  lemma LessonProgressValues(selectedAula: int)
    ensures LessonProgress(selectedAula) == if selectedAula > 3 then 50 else 33
  {
    var aulas := Aulas(selectedAula);
    var tail := Filter(aulas[2..], AulaDone);
    FilterDropsAll(aulas[3..], AulaDone);
    assert aulas[2..] == [aulas[2]] + aulas[3..];
    FilterCons(aulas[2], aulas[3..], AulaDone);
    assert |tail| == if selectedAula > 3 then 1 else 0;
    assert aulas[1..] == [aulas[1]] + aulas[2..];
    FilterCons(aulas[1], aulas[2..], AulaDone);
    assert aulas == [aulas[0]] + aulas[1..];
    FilterCons(aulas[0], aulas[1..], AulaDone);
    assert |Filter(aulas, AulaDone)| == 2 + |tail|;
  }

  /** The lesson shown in the content area (`aulas[selectedAula - 1]?`). */
  function SelectedLesson(selectedAula: int): (r: Option<Aula>)
    ensures r.Some? <==> 1 <= selectedAula <= 6
    ensures r.Some? ==> r.value.id == selectedAula
  {
    var aulas := Aulas(selectedAula);
    if 1 <= selectedAula <= |aulas| then Some(aulas[selectedAula - 1]) else None
  }

  // ---------------------------------------------------------------------
  // Progress update failures and the rendered screen
  // ---------------------------------------------------------------------

  /** A failed progress update is treated as success only when the server
      answered 500 with a message mentioning "progresso". */
  function UpdateErrorTolerated(status: Option<int>, message: Option<string>): (r: bool)
    ensures r <==> status == Some(500) && message.Some? &&
                   exists i :: OccursAt(message.value, "progresso", i)
  {
    match message
    case None => false
    case Some(text) =>
      ContainsIff(text, "progresso");
      status == Some(500) && Contains(text, "progresso")
  }

  /** The module page tolerates fewer failures than the track page: every
      failure it treats as success the track page does too, but a 500 whose
      message does not mention "progresso" is tolerated only on the track
      page. */
  lemma ToleranceNarrowerThanTrackPage(status: Option<int>, message: Option<string>)
    ensures UpdateErrorTolerated(status, message) ==> TrilhaDetalhes.UpdateErrorTolerated(status)
    ensures TrilhaDetalhes.UpdateErrorTolerated(Some(500)) && !UpdateErrorTolerated(Some(500), Some(""))
  {
    assert !OccursAt("", "progresso", 0);
  }

  /** What the update mutation yields: success (possibly after a tolerated
      failure) or the failure rethrown to the error handler. */
  datatype UpdateOutcome = Succeeded | Rethrown(status: Option<int>, message: Option<string>)

  function UpdateOutcomeOf(failure: Option<(Option<int>, Option<string>)>): (r: UpdateOutcome)
    ensures failure.None? ==> r == Succeeded
    ensures failure.Some? ==>
      (r == Succeeded <==> UpdateErrorTolerated(failure.value.0, failure.value.1))
    ensures r.Rethrown? ==> failure == Some((r.status, r.message))
  {
    if failure.None? then Succeeded
    else if UpdateErrorTolerated(failure.value.0, failure.value.1) then Succeeded
    else Rethrown(failure.value.0, failure.value.1)
  }

  datatype Screen = LoginPrompt | EnrollmentPrompt | Loading | NotFound | Content

  /** Checks are made in order: user, enrollment, loading, module. */
  function ScreenFor(hasUser: bool, inscricao: Option<Inscricao>, isLoadingModulo: bool,
                     modulo: Option<Modulo>): (s: Screen)
    ensures s == LoginPrompt <==> !hasUser
    ensures s == EnrollmentPrompt <==> hasUser && inscricao.None?
    ensures s == Loading <==> hasUser && inscricao.Some? && isLoadingModulo
    ensures s == NotFound <==> hasUser && inscricao.Some? && !isLoadingModulo && modulo.None?
    ensures s == Content <==> hasUser && inscricao.Some? && !isLoadingModulo && modulo.Some?
  {
    if !hasUser then LoginPrompt
    else if inscricao.None? then EnrollmentPrompt
    else if isLoadingModulo then Loading
    else if modulo.None? then NotFound
    else Content
  }
}
