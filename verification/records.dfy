/** The records the pages receive from the backend, reduced to the fields the
    derived state reads, plus the rules that more than one page applies to
    them: "a module is complete", "how many modules are complete" and the
    difficulty label. Dates are integer timestamps in milliseconds. */
module Records {
  import opened Common

  /** A route parameter after `Number(...)`: absent or empty, not a number
      (NaN, equal to nothing), or a number. */
  datatype Param = Missing | NonNumeric | Numeric(n: int)

  /** Per-module completion record of one enrollment. */
  datatype Progresso = Progresso(inscricaoId: int, moduloId: int, percentage: int)

  /** An enrollment of the user in a track. */
  datatype Inscricao = Inscricao(inscricaoId: int, trilhaId: int, enrolledAt: int)

  /** A module of a track. */
  datatype Modulo = Modulo(moduloId: int, title: string, durationMinutes: int)

  /** A track; an absent `imageUrl` is the empty string (both are falsy). */
  datatype Trilha = Trilha(trilhaId: int, title: string, description: string,
                           difficulty: string, durationHours: int, imageUrl: string)

  /** An in-app notification. */
  datatype Notificacao = Notificacao(notificacaoId: int, titulo: string, lida: bool,
                                     tipo: string, criadaEm: int)

  /** An unlocked achievement. */
  datatype Achievement = Achievement(nome: string, xpGanho: int)

  /** `p.percentage === 100`. */
  predicate IsDone(p: Progresso) { p.percentage == 100 }

  /** `progresso.filter(p => p.percentage === 100).length`. */
  function CompletedCount(ps: seq<Progresso>): (n: nat)
    ensures n <= |ps|
  {
    |Filter(ps, IsDone)|
  }

  /** Every record at 100% counts; records below never do. */
  lemma CompletedCountExtremes(ps: seq<Progresso>)
    ensures (forall i :: 0 <= i < |ps| ==> !IsDone(ps[i])) ==> CompletedCount(ps) == 0
    ensures (forall i :: 0 <= i < |ps| ==> IsDone(ps[i])) ==> CompletedCount(ps) == |ps|
  {
    if forall i :: 0 <= i < |ps| ==> !IsDone(ps[i]) {
      FilterDropsAll(ps, IsDone);
    }
    if forall i :: 0 <= i < |ps| ==> IsDone(ps[i]) {
      FilterKeepsAll(ps, IsDone);
    }
  }

  /** The first progress record whose module is `moduloId` has percentage
      exactly 100 (`progressos.find(p => p.moduloId === id)?.percentage === 100`). */
  function IsModuleCompleted(ps: seq<Progresso>, moduloId: int): (r: bool)
    ensures r <==> exists k :: 0 <= k < |ps| && ps[k].moduloId == moduloId && IsDone(ps[k]) &&
                              forall j :: 0 <= j < k ==> ps[j].moduloId != moduloId
  {
    var found := FindFirst(ps, (p: Progresso) => p.moduloId == moduloId);
    found.Some? && IsDone(found.value)
  }

  /** With at most one record per module, "the first record is done" is the
      same as "some record for the module is done". */
  lemma ModuleCompletedWhenUnique(ps: seq<Progresso>, moduloId: int)
    requires forall i, j :: 0 <= i < j < |ps| ==> ps[i].moduloId != ps[j].moduloId
    ensures IsModuleCompleted(ps, moduloId) <==>
            exists k :: 0 <= k < |ps| && ps[k].moduloId == moduloId && IsDone(ps[k])
  {
  }

  /** The test `p.inscricaoId === inscricaoId`. */
  function OfEnrollment(inscricaoId: int): Progresso -> bool
  {
    (p: Progresso) => p.inscricaoId == inscricaoId
  }

  /** The progress records of one enrollment. */
  function ProgressOf(all: seq<Progresso>, inscricaoId: int): (r: seq<Progresso>)
    ensures forall i :: 0 <= i < |r| ==> r[i].inscricaoId == inscricaoId && r[i] in all
  {
    Filter(all, OfEnrollment(inscricaoId))
  }

  /** Nothing of the enrollment is dropped: every record with its id is kept,
      in the order of the fetched list. */
  lemma ProgressOfComplete(all: seq<Progresso>, inscricaoId: int)
    ensures forall i :: 0 <= i < |all| && all[i].inscricaoId == inscricaoId ==>
              all[i] in ProgressOf(all, inscricaoId)
    ensures IsSubsequence(ProgressOf(all, inscricaoId), all)
  {
    FilterIsSubsequence(all, OfEnrollment(inscricaoId));
  }

  /** The first fetched track with the given id. */
  function FindTrilha(trilhas: seq<Trilha>, trilhaId: int): (r: Option<Trilha>)
    ensures r.Some? ==> r.value in trilhas && r.value.trilhaId == trilhaId
    ensures r.None? ==> forall i :: 0 <= i < |trilhas| ==> trilhas[i].trilhaId != trilhaId
  {
    FindFirst(trilhas, (t: Trilha) => t.trilhaId == trilhaId)
  }

  /** With several fetched tracks sharing the id, the first one is used. */
  lemma FindTrilhaIsFirst(trilhas: seq<Trilha>, trilhaId: int, k: int)
    requires 0 <= k < |trilhas| && trilhas[k].trilhaId == trilhaId
    requires forall j :: 0 <= j < k ==> trilhas[j].trilhaId != trilhaId
    ensures FindTrilha(trilhas, trilhaId) == Some(trilhas[k])
  {
    var p := (t: Trilha) => t.trilhaId == trilhaId;
    assert FindTrilha(trilhas, trilhaId) == FindFirst(trilhas, p);
    var m :| 0 <= m < |trilhas| && trilhas[m] == FindFirst(trilhas, p).value && p(trilhas[m]) &&
             forall j :: 0 <= j < m ==> !p(trilhas[j]);
    assert m == k;
  }

  /** The label shown for a backend difficulty value. */
  function DifficultyLabel(difficulty: string): (name: string)
    ensures name == "Iniciante" <==> difficulty == "INICIANTE"
    ensures name == "Intermediário" <==> difficulty == "INTERMEDIARIO"
    ensures name == "Avançado" <==> difficulty != "INICIANTE" && difficulty != "INTERMEDIARIO"
  {
    if difficulty == "INICIANTE" then "Iniciante"
    else if difficulty == "INTERMEDIARIO" then "Intermediário"
    else "Avançado"
  }

  /** "N semanas" for a duration in hours, four hours per week rounded up. */
  function WeeksLabel(durationHours: int): (s: string)
    ensures exists w :: 4 * (w - 1) < durationHours <= 4 * w && s == IntToString(w) + " semanas"
  {
    IntToString(CeilQuarter(durationHours)) + " semanas"
  }
}
