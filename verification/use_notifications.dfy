/** The notification hooks: the toasts and cache refreshes after checking for
    new achievements, and the request sent when creating a notification. The
    effects are returned as a list of values instead of being performed. */
module UseNotifications {
  import opened Common
  import opened Records

  /** A React Query cache key: a name and the user id. */
  datatype QueryKey = QueryKey(name: string, userId: int)

  datatype Effect =
    | Invalidate(key: QueryKey)
    | Toast(title: string, description: string, duration: int)

  /** A user id is usable when present and non-zero. */
  predicate HasUser(userId: Option<int>)
  {
    OrDefault(userId, 0) != 0
  }

  /** The toast announcing one achievement. */
  function AchievementToast(a: Achievement): (e: Effect)
    ensures e.Toast? && e.title == "🏆 Nova Conquista Desbloqueada!" && e.duration == 5000
    ensures e.description == a.nome + " - +" + IntToString(a.xpGanho) + " XP"
  {
    Toast("🏆 Nova Conquista Desbloqueada!", a.nome + " - +" + IntToString(a.xpGanho) + " XP", 5000)
  }

  function Toasts(achievements: seq<Achievement>): (r: seq<Effect>)
    ensures |r| == |achievements|
    ensures forall k :: 0 <= k < |r| ==> r[k] == AchievementToast(achievements[k])
  {
    if achievements == [] then []
    else [AchievementToast(achievements[0])] + Toasts(achievements[1..])
  }

  /** `checkForNewAchievements`. `response` is what the service returned, or
      none when the call failed (the error is only logged). */
  function CheckForNewAchievements(userId: Option<int>, response: Option<seq<Achievement>>): (effects: seq<Effect>)
    ensures !HasUser(userId) || response.None? || |response.value| == 0 ==> effects == []
    ensures HasUser(userId) && response.Some? && |response.value| > 0 ==>
      && |effects| == 2 + |response.value|
      && effects[0] == Invalidate(QueryKey("achievements", userId.value))
      && effects[1] == Invalidate(QueryKey("notificacoes", userId.value))
      && forall k :: 0 <= k < |response.value| ==> effects[2 + k] == AchievementToast(response.value[k])
  {
    if !HasUser(userId) || response.None? || |response.value| == 0 then []
    else
      [Invalidate(QueryKey("achievements", userId.value)), Invalidate(QueryKey("notificacoes", userId.value))]
      + Toasts(response.value)
  }

  predicate IsToast(e: Effect) { e.Toast? }

  /** Two leading cache refreshes add no toast. */
  lemma SkipTwoInvalidations(x: Effect, y: Effect, rest: seq<Effect>)
    requires x.Invalidate? && y.Invalidate?
    ensures Filter([x, y] + rest, IsToast) == Filter(rest, IsToast)
  {
    assert [x, y] + rest == [x] + ([y] + rest);
    FilterCons(x, [y] + rest, IsToast);
    FilterCons(y, rest, IsToast);
  }

  /** Exactly one toast per new achievement, and nothing at all when there is
      none. */
  lemma {:induction false} OneToastPerAchievement(userId: Option<int>, response: Option<seq<Achievement>>)
    ensures |Filter(CheckForNewAchievements(userId, response), IsToast)| ==
            if HasUser(userId) && response.Some? then |response.value| else 0
  {
    if HasUser(userId) && response.Some? && |response.value| > 0 {
      var ts := Toasts(response.value);
      FilterKeepsAll(ts, IsToast);
      SkipTwoInvalidations(Invalidate(QueryKey("achievements", userId.value)),
                           Invalidate(QueryKey("notificacoes", userId.value)), ts);
    }
  }

  /** The title stored with a notification of the given type. */
  function TituloFor(tipo: string): (titulo: string)
    ensures titulo == "Informação" <==> tipo == "INFO"
    ensures titulo == "Nova Conquista" <==> tipo == "CONQUISTA"
    ensures titulo == "Certificado" <==> tipo == "CERTIFICADO"
    ensures titulo == "Lembrete" <==> tipo !in ["INFO", "CONQUISTA", "CERTIFICADO"]
  {
    if tipo == "INFO" then "Informação"
    else if tipo == "CONQUISTA" then "Nova Conquista"
    else if tipo == "CERTIFICADO" then "Certificado"
    else "Lembrete"
  }

  datatype CriarRequest = CriarRequest(userId: int, titulo: string, mensagem: string, tipo: string)

  /** The request `createNotification` sends: none without a user; the type
      defaults to "INFO". */
  function CreateRequest(userId: Option<int>, mensagem: string, tipo: Option<string>): (r: Option<CriarRequest>)
    ensures r.Some? <==> HasUser(userId)
    ensures r.Some? ==>
      && r.value.userId == userId.value && r.value.mensagem == mensagem
      && r.value.tipo == (if tipo.Some? then tipo.value else "INFO")
      && r.value.titulo == TituloFor(r.value.tipo)
    ensures r.Some? && tipo.None? ==> r.value.titulo == "Informação"
  {
    if !HasUser(userId) then None
    else
      var t := if tipo.Some? then tipo.value else "INFO";
      Some(CriarRequest(userId.value, TituloFor(t), mensagem, t))
  }

  /** The cache refreshes after the request: both notification lists when it
      succeeded, nothing when it failed or was not sent. */
  function AfterCreate(request: Option<CriarRequest>, succeeded: bool): (effects: seq<Effect>)
    ensures request.None? || !succeeded ==> effects == []
    ensures request.Some? && succeeded ==>
      effects == [Invalidate(QueryKey("notificacoes", request.value.userId)),
                  Invalidate(QueryKey("notificacoesNaoLidas", request.value.userId))]
  {
    if request.None? || !succeeded then []
    else [Invalidate(QueryKey("notificacoes", request.value.userId)),
          Invalidate(QueryKey("notificacoesNaoLidas", request.value.userId))]
  }

  /** Without a user id neither hook sends anything or has any effect. */
  lemma NoUserNoEffects(userId: Option<int>, response: Option<seq<Achievement>>, mensagem: string,
                        tipo: Option<string>, succeeded: bool)
    requires !HasUser(userId)
    ensures CheckForNewAchievements(userId, response) == []
    ensures CreateRequest(userId, mensagem, tipo).None?
    ensures AfterCreate(CreateRequest(userId, mensagem, tipo), succeeded) == []
  {
  }
}
