/** The notifications page: the read/unread tabs and their counts, the
    "mark all as read" button, the type colour and the empty state. */
module Notificacoes {
  import opened Common
  import opened Records

  /** The selected tab. */
  datatype Filtro = Todas | NaoLidas | Lidas

  predicate Unread(n: Notificacao) { !n.lida }

  predicate Read(n: Notificacao) { n.lida }

  /** Whether a notification is listed under a tab. */
  predicate InTab(filtro: Filtro, n: Notificacao)
  {
    match filtro
    case NaoLidas => Unread(n)
    case Lidas => Read(n)
    case Todas => true
  }

  /** The notifications listed under the selected tab, in order. */
  function Filtradas(notificacoes: seq<Notificacao>, filtro: Filtro): (r: seq<Notificacao>)
    ensures filtro == Todas ==> r == notificacoes
    ensures filtro == NaoLidas ==> forall k :: 0 <= k < |r| ==> !r[k].lida
    ensures filtro == Lidas ==> forall k :: 0 <= k < |r| ==> r[k].lida
    ensures forall k :: 0 <= k < |r| ==> r[k] in notificacoes
    ensures forall k :: 0 <= k < |notificacoes| && InTab(filtro, notificacoes[k]) ==> notificacoes[k] in r
  {
    var keep := n => InTab(filtro, n);
    if filtro == Todas then
      FilterKeepsAll(notificacoes, keep);
      Filter(notificacoes, keep)
    else Filter(notificacoes, keep)
  }

  /** Each tab keeps the order of the full list, and selecting it again
      changes nothing. */
  lemma FiltradasOrderAndIdempotence(notificacoes: seq<Notificacao>, filtro: Filtro)
    ensures IsSubsequence(Filtradas(notificacoes, filtro), notificacoes)
    ensures Filtradas(Filtradas(notificacoes, filtro), filtro) == Filtradas(notificacoes, filtro)
  {
    FilterIsSubsequence(notificacoes, n => InTab(filtro, n));
    FilterIdempotent(notificacoes, n => InTab(filtro, n));
  }

  /** The three tab counters. */
  datatype TabCounts = TabCounts(todas: nat, naoLidas: nat, lidas: nat)

  function Counts(notificacoes: seq<Notificacao>): (c: TabCounts)
    ensures c.todas == |notificacoes|
    ensures c.naoLidas == |Filtradas(notificacoes, NaoLidas)|
    ensures c.lidas == |Filtradas(notificacoes, Lidas)|
  {
    FilterSamePredicate(notificacoes, Unread, n => InTab(NaoLidas, n));
    FilterSamePredicate(notificacoes, Read, n => InTab(Lidas, n));
    TabCounts(|notificacoes|, |Filter(notificacoes, Unread)|, |Filter(notificacoes, Read)|)
  }

  /** The unread and read counters add up to the total. */
  lemma {:induction false} CountsAddUp(notificacoes: seq<Notificacao>)
    ensures Counts(notificacoes).naoLidas + Counts(notificacoes).lidas == Counts(notificacoes).todas
  {
    FilterPartition(notificacoes, Unread, Read);
  }

  /** "Marcar todas como lidas" is disabled when nothing is unread or the
      request is under way. */
  function MarkAllDisabled(notificacoes: seq<Notificacao>, isPending: bool): (disabled: bool)
    ensures disabled <==> isPending || forall k :: 0 <= k < |notificacoes| ==> notificacoes[k].lida
  {
    isPending || !exists k :: 0 <= k < |notificacoes| && !notificacoes[k].lida
  }

  /** With the request idle, the button is enabled exactly when the unread
      counter is positive. */
  lemma MarkAllEnabledIffUnread(notificacoes: seq<Notificacao>)
    ensures !MarkAllDisabled(notificacoes, false) <==> Counts(notificacoes).naoLidas > 0
  {
    if forall k :: 0 <= k < |notificacoes| ==> notificacoes[k].lida {
      FilterDropsAll(notificacoes, n => InTab(NaoLidas, n));
    }
  }

  /** The colour of a notification type. */
  datatype TipoColor = Yellow | Green | Blue | Purple | Gray

  function TipoColorOf(tipo: string): (c: TipoColor)
    ensures c == Yellow <==> tipo == "ACHIEVEMENT"
    ensures c == Green <==> tipo == "CERTIFICADO"
    ensures c == Blue <==> tipo == "TRILHA"
    ensures c == Purple <==> tipo == "OPORTUNIDADE"
  {
    match tipo
    case "ACHIEVEMENT" => Yellow
    case "CERTIFICADO" => Green
    case "TRILHA" => Blue
    case "OPORTUNIDADE" => Purple
    case _ => Gray
  }

  /** The CSS class of a colour: a "bg-…-500" background, the gray one
      exactly for the default colour. */
  function ColorClass(c: TipoColor): (cls: string)
    ensures |cls| > 7 && cls[..3] == "bg-" && cls[|cls| - 4..] == "-500"
    ensures cls == "bg-gray-500" <==> c == Gray
  {
    match c
    case Yellow => "bg-yellow-500"
    case Green => "bg-green-500"
    case Blue => "bg-blue-500"
    case Purple => "bg-purple-500"
    case Gray => "bg-gray-500"
  }

  /** Distinct types of notification with distinct colours get distinct
      classes; an unknown type gets the gray one. */
  lemma TipoClassDistinct(tipo1: string, tipo2: string)
    ensures TipoColorOf(tipo1) != TipoColorOf(tipo2) ==>
              ColorClass(TipoColorOf(tipo1)) != ColorClass(TipoColorOf(tipo2))
    ensures ColorClass(TipoColorOf(tipo1)) == "bg-gray-500" <==>
              tipo1 !in {"ACHIEVEMENT", "CERTIFICADO", "TRILHA", "OPORTUNIDADE"}
  {
  }

  /** The message when the tab is empty. */
  function EmptyText(filtro: Filtro): (text: string)
    ensures text == "Nenhuma notificação não lida" <==> filtro == NaoLidas
    ensures filtro != NaoLidas ==> text == "Nenhuma notificação encontrada"
  {
    if filtro == NaoLidas then "Nenhuma notificação não lida" else "Nenhuma notificação encontrada"
  }

  datatype ListScreen = Carregando | Vazio(text: string) | Lista(items: seq<Notificacao>)

  /** Loading first, then the empty state of the tab, then the list. */
  function ListScreenFor(isLoading: bool, notificacoes: seq<Notificacao>, filtro: Filtro): (s: ListScreen)
    ensures s == Carregando <==> isLoading
    ensures s.Vazio? <==> !isLoading && |Filtradas(notificacoes, filtro)| == 0
    ensures s.Vazio? ==> s.text == EmptyText(filtro)
    ensures s.Lista? ==> s.items == Filtradas(notificacoes, filtro) && |s.items| > 0
  {
    var shown := Filtradas(notificacoes, filtro);
    if isLoading then Carregando
    else if |shown| == 0 then Vazio(EmptyText(filtro))
    else Lista(shown)
  }
}
