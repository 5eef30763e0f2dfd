/** The card of one module on the track page: its icon, the "Atual" badge
    and the "Concluir" button. */
module ModuloCard {
  import opened Common
  import opened Records
  import TrilhaDetalhes

  /** The props the card reads. `current` and `isUpdating` may be omitted
      (both default to false); `hasOnComplete` says whether a completion
      handler was passed. */
  datatype Props = Props(id: int, completed: bool, locked: bool, current: Option<bool>,
                         hasOnComplete: bool, isUpdating: Option<bool>, inscricaoId: Option<int>)

  datatype StatusIcon = Check | Lock | Play

  /** The "Concluir" button: disabled with a spinner while updating; a click
      completes the card's own module. */
  datatype ConcluirButton = ConcluirButton(disabled: bool, spinner: bool, completes: int)

  datatype Display = Display(highlighted: bool, dimmed: bool, icon: StatusIcon,
                             atualBadge: bool, concluir: Option<ConcluirButton>)

  function OrFalse(b: Option<bool>): (r: bool)
    ensures r <==> b == Some(true)
  {
    b.Some? && b.value
  }

  /** What the card shows for its props. */
  function DisplayOf(p: Props): (d: Display)
    ensures d.highlighted <==> p.current == Some(true)
    ensures d.dimmed <==> p.locked
    ensures d.icon == Check <==> p.completed
    ensures d.icon == Lock <==> !p.completed && p.locked
    ensures d.icon == Play <==> !p.completed && !p.locked
    ensures d.atualBadge <==> p.current == Some(true) && !p.completed
    ensures d.concluir.Some? <==>
              !p.completed && !p.locked && p.inscricaoId.Some? && p.inscricaoId.value != 0 && p.hasOnComplete
    ensures d.concluir.Some? ==>
              && d.concluir.value.completes == p.id
              && (d.concluir.value.disabled <==> p.isUpdating == Some(true))
              && d.concluir.value.spinner == d.concluir.value.disabled
  {
    var current := OrFalse(p.current);
    var updating := OrFalse(p.isUpdating);
    Display(current, p.locked,
            if p.completed then Check else if p.locked then Lock else Play,
            current && !p.completed,
            if !p.completed && !p.locked && OrDefault(p.inscricaoId, 0) != 0 && p.hasOnComplete
            then Some(ConcluirButton(updating, updating, p.id))
            else None)
  }

  /** The props the track page passes for one module view: the view's own
      fields, the completion handler, "updating" for the module being
      completed, and the enrollment's id when enrolled. */
  function PropsFor(v: TrilhaDetalhes.ModuloView, inscricao: Option<Inscricao>, updatingModuloId: Option<int>): (p: Props)
    ensures p.id == v.id && p.completed == v.completed && p.locked == v.locked
    ensures OrFalse(p.current) == v.current
    ensures p.hasOnComplete
    ensures OrFalse(p.isUpdating) <==> updatingModuloId == Some(v.id)
    ensures p.inscricaoId.Some? <==> inscricao.Some?
    ensures inscricao.Some? ==> p.inscricaoId.value == inscricao.value.inscricaoId
  {
    Props(v.id, v.completed, v.locked, Some(v.current), true,
          Some(updatingModuloId == Some(v.id)),
          if inscricao.Some? then Some(inscricao.value.inscricaoId) else None)
  }

  /** On the track page, at most one card shows "Atual"; no card offers
      "Concluir" to a visitor who is not enrolled; and for an enrolled user
      (with a non-zero enrollment id) the button is offered exactly on the
      incomplete modules up to the number of completed records. */
  lemma TrackPageCards(modulosData: Option<seq<Modulo>>, progresso: Option<seq<Progresso>>,
                       inscricao: Option<Inscricao>, updatingModuloId: Option<int>, i: int, j: int)
    requires var vs := TrilhaDetalhes.ModuloViews(modulosData, progresso, inscricao);
             0 <= i < |vs| && 0 <= j < |vs|
    ensures var vs := TrilhaDetalhes.ModuloViews(modulosData, progresso, inscricao);
            var di := DisplayOf(PropsFor(vs[i], inscricao, updatingModuloId));
            var dj := DisplayOf(PropsFor(vs[j], inscricao, updatingModuloId));
            var done := if progresso.Some? then CompletedCount(progresso.value) else 0;
            && (di.atualBadge && dj.atualBadge ==> i == j)
            && (inscricao.None? ==> di.concluir.None?)
            && (inscricao.Some? && inscricao.value.inscricaoId != 0 ==>
                  (di.concluir.Some? <==> i <= done && !vs[i].completed))
  {
    TrilhaDetalhes.AtMostOneCurrent(modulosData, progresso, inscricao, i, j);
  }
}
