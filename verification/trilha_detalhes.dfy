/** The track page: which enrollment belongs to the track in the route, the
    overall progress percentage, the list of module cards with their
    completed / locked / current flags, the "continue" target and the
    difficulty badge. */
module TrilhaDetalhes {
  import opened Common
  import opened Records

  /** The enrollment for the track in the route: the first enrollment whose
      `trilhaId` equals the route id, none when the list or the id is absent. */
  function FindInscricao(inscricoes: Option<seq<Inscricao>>, id: Param): (r: Option<Inscricao>)
    ensures inscricoes.None? || id.Missing? || id.NonNumeric? ==> r.None?
    ensures inscricoes.Some? && id.Numeric? ==>
      (r.None? <==> forall j :: 0 <= j < |inscricoes.value| ==> inscricoes.value[j].trilhaId != id.n)
    ensures r.Some? ==>
      && inscricoes.Some? && id.Numeric?
      && exists k :: 0 <= k < |inscricoes.value| && inscricoes.value[k] == r.value &&
                     r.value.trilhaId == id.n &&
                     forall j :: 0 <= j < k ==> inscricoes.value[j].trilhaId != id.n
  {
    if inscricoes.None? || id.Missing? then None
    else FindFirst(inscricoes.value, (i: Inscricao) => id.Numeric? && i.trilhaId == id.n)
  }

  /** The overall progress: 0 without progress or module data or with no
      modules; otherwise the rounded share of records at 100% among the
      modules of the track. */
  function ProgressoGeral(progresso: Option<seq<Progresso>>, modulos: Option<seq<Modulo>>): (r: int)
    ensures progresso.None? || modulos.None? || |modulos.value| == 0 ==> r == 0
    ensures progresso.Some? && modulos.Some? && |modulos.value| > 0 ==>
      var c, t := CompletedCount(progresso.value), |modulos.value|;
      2 * t * r <= 200 * c + t < 2 * t * (r + 1)
  {
    if progresso.None? || modulos.None? || |modulos.value| == 0 then 0
    else RoundPercent(CompletedCount(progresso.value), |modulos.value|)
  }

  /** The overall progress is a percentage as long as no more records are
      complete than the track has modules, and it is 100 when all are. */
  lemma ProgressoGeralBounds(progresso: seq<Progresso>, modulos: seq<Modulo>)
    requires CompletedCount(progresso) <= |modulos|
    ensures 0 <= ProgressoGeral(Some(progresso), Some(modulos)) <= 100
    ensures |modulos| > 0 && CompletedCount(progresso) == |modulos| ==>
            ProgressoGeral(Some(progresso), Some(modulos)) == 100
  {
    if |modulos| > 0 {
      RoundPercentBounds(CompletedCount(progresso), |modulos|);
      if CompletedCount(progresso) == |modulos| {
        RoundPercentAll(|modulos|);
      }
    }
  }

  /** The props handed to one module card. */
  datatype ModuloView = ModuloView(id: int, title: string, aulas: int, duration: string,
                                   completed: bool, locked: bool, current: bool)

  /** The card of the module at `index`. */
  function ViewAt(m: Modulo, index: int, progresso: Option<seq<Progresso>>,
                  enrolled: bool): ModuloView
  {
    var ps := if progresso.Some? then progresso.value else [];
    var completed := progresso.Some? && IsModuleCompleted(ps, m.moduloId);
    var done := CompletedCount(ps);
    ModuloView(m.moduloId, m.title, 8, IntToString(m.durationMinutes) + " min",
               completed,
               enrolled && index > done,
               enrolled && index == done && !completed)
  }

  /** The module cards: one per fetched module, in the same order. */
  function ModuloViews(modulosData: Option<seq<Modulo>>, progresso: Option<seq<Progresso>>,
                       inscricao: Option<Inscricao>): (r: seq<ModuloView>)
    ensures modulosData.None? ==> r == []
    ensures modulosData.Some? ==> |r| == |modulosData.value|
    ensures modulosData.Some? ==> forall i :: 0 <= i < |r| ==>
      r[i].id == modulosData.value[i].moduloId && r[i].title == modulosData.value[i].title
    ensures forall i :: 0 <= i < |r| ==>
      (r[i].completed <==> progresso.Some? && IsModuleCompleted(progresso.value, r[i].id))
    ensures inscricao.None? ==> forall i :: 0 <= i < |r| ==> !r[i].locked && !r[i].current
    ensures inscricao.Some? ==> forall i :: 0 <= i < |r| ==>
      var done := if progresso.Some? then CompletedCount(progresso.value) else 0;
      (r[i].locked <==> i > done) && (r[i].current <==> i == done && !r[i].completed)
  {
    if modulosData.None? then []
    else
      var ms := modulosData.value;
      seq(|ms|, i requires 0 <= i < |ms| => ViewAt(ms[i], i, progresso, inscricao.Some?))
  }

  /** At most one module is current, and no module is both locked and current. */
  lemma AtMostOneCurrent(modulosData: Option<seq<Modulo>>, progresso: Option<seq<Progresso>>,
                         inscricao: Option<Inscricao>, i: int, j: int)
    requires var r := ModuloViews(modulosData, progresso, inscricao);
             0 <= i < |r| && 0 <= j < |r|
    ensures var r := ModuloViews(modulosData, progresso, inscricao);
            (r[i].current && r[j].current ==> i == j) && !(r[i].locked && r[i].current)
  {
  }

  /** The module "Continuar Aprendendo" opens: the first current module that
      is not completed, else the first module, else nothing. */
  function ContinueTarget(modulos: seq<ModuloView>): (r: Option<ModuloView>)
    ensures r.None? <==> |modulos| == 0
    ensures (exists k :: 0 <= k < |modulos| && modulos[k].current && !modulos[k].completed) ==>
      exists k :: 0 <= k < |modulos| && r == Some(modulos[k]) && modulos[k].current &&
                  !modulos[k].completed &&
                  forall j :: 0 <= j < k ==> !(modulos[j].current && !modulos[j].completed)
    ensures ((forall k :: 0 <= k < |modulos| ==> !(modulos[k].current && !modulos[k].completed)) &&
             |modulos| > 0) ==> r == Some(modulos[0])
  {
    var found := FindFirst(modulos, (m: ModuloView) => m.current && !m.completed);
    if found.Some? then found
    else if |modulos| > 0 then Some(modulos[0])
    else None
  }

  /** Path of the module page the continue button navigates to; `routeId` is
      the track id exactly as it appears in the current route. */
  function ContinuePath(routeId: string, modulos: seq<ModuloView>): (r: Option<string>)
    ensures r.Some? <==> |modulos| > 0
    ensures r.Some? ==> exists m :: (ContinueTarget(modulos) == Some(m) &&
      r.value == "/trilhas/" + routeId + "/modulos/" + IntToString(m.id))
  {
    match ContinueTarget(modulos)
    case None => None
    case Some(m) => Some("/trilhas/" + routeId + "/modulos/" + IntToString(m.id))
  }

  /** For an enrolled user the continue button opens the module whose index is
      the number of completed records, when that module exists and is not
      completed; otherwise it opens the first module. */
  lemma {:induction false} ContinueOpensCurrent(ms: seq<Modulo>, progresso: Option<seq<Progresso>>,
                                                inscricao: Inscricao)
    requires |ms| > 0
    ensures var r := ModuloViews(Some(ms), progresso, Some(inscricao));
            var done := if progresso.Some? then CompletedCount(progresso.value) else 0;
            ContinueTarget(r) == if done < |ms| && !r[done].completed then Some(r[done]) else Some(r[0])
  {
    var r := ModuloViews(Some(ms), progresso, Some(inscricao));
    var done := if progresso.Some? then CompletedCount(progresso.value) else 0;
    if done < |ms| && !r[done].completed {
      assert r[done].current;
      forall k | 0 <= k < |r| && r[k].current && !r[k].completed ensures k == done {
        AtMostOneCurrent(Some(ms), progresso, Some(inscricao), k, done);
      }
    } else {
      forall k | 0 <= k < |r| ensures !(r[k].current && !r[k].completed) {
      }
    }
  }

  /** The badge colour of a difficulty. */
  datatype Tone = Success | Warning | Destructive

  function DifficultyTone(difficulty: string): (t: Tone)
    ensures t == Success <==> DifficultyLabel(difficulty) == "Iniciante"
    ensures t == Warning <==> DifficultyLabel(difficulty) == "Intermediário"
    ensures t == Destructive <==> DifficultyLabel(difficulty) == "Avançado"
  {
    if difficulty == "INICIANTE" then Success
    else if difficulty == "INTERMEDIARIO" then Warning
    else Destructive
  }

  /** A failed progress update is reported as a success when the server
      answered 500; every other failure is an error. */
  function UpdateErrorTolerated(status: Option<int>): (tolerated: bool)
    ensures tolerated <==> status.Some? && status.value == 500
  {
    status == Some(500)
  }
}
