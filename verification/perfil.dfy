/** The profile page: the statistics block, the track history, the badges,
    the skill bars and the avatar initials. */
module Perfil {
  import opened Common
  import opened Records

  // ---------------------------------------------------------------------
  // Statistics
  // ---------------------------------------------------------------------

  datatype PerfilStats = PerfilStats(totalModulosCompletos: nat, horasEstudadas: nat,
                                     taxaConclusao: int, level: int, badges: int, streak: int)

  /** The statistics block. `draw` is `Math.floor(Math.random() * 30)`, an
      integer in 0..29 supplied by the caller. */
  function ComputeStats(inscricoes: Option<seq<Inscricao>>, allProgresso: Option<seq<Progresso>>,
                        draw: int): (s: PerfilStats)
    requires 0 <= draw < 30
    ensures inscricoes.None? || allProgresso.None? ==> s == PerfilStats(0, 0, 0, 1, 0, 0)
    ensures inscricoes.Some? && allProgresso.Some? ==>
      var c, t := CompletedCount(allProgresso.value), |allProgresso.value|;
      && s.totalModulosCompletos == c
      && s.horasEstudadas == 2 * c
      && (t == 0 ==> s.taxaConclusao == 0)
      && (t > 0 ==> 2 * t * s.taxaConclusao <= 200 * c + t < 2 * t * (s.taxaConclusao + 1))
      && 5 * (s.level - 1) <= c < 5 * s.level
      && 3 * s.badges <= c < 3 * (s.badges + 1)
      && (|inscricoes.value| == 0 ==> s.streak == 0)
      && (|inscricoes.value| > 0 ==> s.streak == draw + 1)
    ensures 0 <= s.taxaConclusao <= 100 && s.level >= 1 && s.badges >= 0 && 0 <= s.streak <= 30
  {
    if inscricoes.None? || allProgresso.None? then PerfilStats(0, 0, 0, 1, 0, 0)
    else
      var c := CompletedCount(allProgresso.value);
      var t := |allProgresso.value|;
      var taxa := if t > 0 then RoundPercentBounds(c, t); RoundPercent(c, t) else 0;
      PerfilStats(c, 2 * c, taxa, FloorDiv(c, 5) + 1, FloorDiv(c, 3),
                  if |inscricoes.value| > 0 then draw + 1 else 0)
  }

  /** The rate is 100 exactly when every record is complete, as long as there
      are fewer than 200 records; from 200 records on, one incomplete record
      still rounds to 100. */
  lemma {:induction false} TaxaFullIffAllDone(inscricoes: seq<Inscricao>, allProgresso: seq<Progresso>,
                                              draw: int)
    requires 0 <= draw < 30
    requires 0 < |allProgresso| < 200
    ensures ComputeStats(Some(inscricoes), Some(allProgresso), draw).taxaConclusao == 100 <==>
            CompletedCount(allProgresso) == |allProgresso|
  {
    var c, t := CompletedCount(allProgresso), |allProgresso|;
    RoundPercentFull(c, t);
    if c < t {
      MulMonotone(200, c, t - 1);
    }
  }

  // ---------------------------------------------------------------------
  // Track history
  // ---------------------------------------------------------------------

  datatype Status = Concluida | EmAndamento

  datatype HistoricoItem = HistoricoItem(title: string, progress: int, status: Status)

  /** The history entry of one enrollment; none when its track was not
      fetched. */
  function ItemFor(i: Inscricao, trilhas: seq<Trilha>, all: seq<Progresso>): (r: Option<HistoricoItem>)
    ensures r.None? <==> FindTrilha(trilhas, i.trilhaId).None?
    ensures r.Some? ==>
      var ps := ProgressOf(all, i.inscricaoId);
      var c, t := CompletedCount(ps), |ps|;
      && r.value.title == FindTrilha(trilhas, i.trilhaId).value.title
      && 0 <= r.value.progress <= 100
      && (t == 0 ==> r.value.progress == 0)
      && (t > 0 ==> 2 * t * r.value.progress <= 200 * c + t < 2 * t * (r.value.progress + 1))
      && (r.value.status == Concluida <==> r.value.progress == 100)
  {
    var trilha := FindTrilha(trilhas, i.trilhaId);
    if trilha.None? then None
    else
      var ps := ProgressOf(all, i.inscricaoId);
      var c, t := CompletedCount(ps), |ps|;
      var percentual := if t > 0 then RoundPercentBounds(c, t); RoundPercent(c, t) else 0;
      Some(HistoricoItem(trilha.value.title, percentual,
                         if percentual == 100 then Concluida else EmAndamento))
  }

  /** Entries of the enrollments in order, skipping those whose track is
      missing. */
  function Entries(inscricoes: seq<Inscricao>, trilhas: seq<Trilha>, all: seq<Progresso>): (r: seq<HistoricoItem>)
    ensures |r| <= |inscricoes|
    ensures forall k :: 0 <= k < |r| ==> 0 <= r[k].progress <= 100
  {
    if inscricoes == [] then []
    else
      var rest := Entries(inscricoes[1..], trilhas, all);
      match ItemFor(inscricoes[0], trilhas, all)
      case None => rest
      case Some(item) => [item] + rest
  }

  /** The history: empty while any of the three lists is missing. */
  function Historico(inscricoes: Option<seq<Inscricao>>, trilhas: Option<seq<Trilha>>,
                     allProgresso: Option<seq<Progresso>>): (r: seq<HistoricoItem>)
    ensures inscricoes.None? || trilhas.None? || allProgresso.None? ==> r == []
    ensures inscricoes.Some? ==> |r| <= |inscricoes.value|
    ensures forall k :: 0 <= k < |r| ==> 0 <= r[k].progress <= 100
  {
    if inscricoes.None? || trilhas.None? || allProgresso.None? then []
    else Entries(inscricoes.value, trilhas.value, allProgresso.value)
  }

  predicate HasTrack(trilhas: seq<Trilha>, i: Inscricao)
  {
    FindTrilha(trilhas, i.trilhaId).Some?
  }

  /** The history has exactly one entry per enrollment whose track was
      fetched, in enrollment order: it is "keep the enrollments with a track,
      then build each entry". */
  lemma {:induction false} EntriesAreFoundTracks(inscricoes: seq<Inscricao>, trilhas: seq<Trilha>,
                                                 all: seq<Progresso>)
    ensures var f := Filter(inscricoes, (i: Inscricao) => HasTrack(trilhas, i));
            var r := Entries(inscricoes, trilhas, all);
            |r| == |f| && forall k :: 0 <= k < |f| ==> Some(r[k]) == ItemFor(f[k], trilhas, all)
  {
    var p := (i: Inscricao) => HasTrack(trilhas, i);
    if inscricoes != [] {
      var x, tail := inscricoes[0], inscricoes[1..];
      var f, r := Filter(tail, p), Entries(tail, trilhas, all);
      EntriesAreFoundTracks(tail, trilhas, all);
      assert inscricoes == [x] + tail;
      FilterCons(x, tail, p);
      var item := ItemFor(x, trilhas, all);
      if item.Some? {
        assert Entries(inscricoes, trilhas, all) == [item.value] + r;
        assert Filter(inscricoes, p) == [x] + f;
        ConsItems(x, item.value, f, r, trilhas, all);
      } else {
        assert Entries(inscricoes, trilhas, all) == r;
        assert Filter(inscricoes, p) == f;
      }
    }
  }

  /** Putting an enrollment and its entry in front of two lists that
      correspond entry by entry keeps them corresponding. */
  lemma ConsItems(x: Inscricao, item: HistoricoItem, f: seq<Inscricao>, r: seq<HistoricoItem>,
                  trilhas: seq<Trilha>, all: seq<Progresso>)
    requires Some(item) == ItemFor(x, trilhas, all)
    requires |r| == |f| && forall k :: 0 <= k < |f| ==> Some(r[k]) == ItemFor(f[k], trilhas, all)
    ensures var f', r' := [x] + f, [item] + r;
            |r'| == |f'| && forall k :: 0 <= k < |f'| ==> Some(r'[k]) == ItemFor(f'[k], trilhas, all)
  {
    var f', r' := [x] + f, [item] + r;
    forall k | 0 <= k < |f'|
      ensures Some(r'[k]) == ItemFor(f'[k], trilhas, all)
    {
      if k > 0 {
        assert r'[k] == r[k - 1] && f'[k] == f[k - 1];
      }
    }
  }

  // ---------------------------------------------------------------------
  // Badges and skills
  // ---------------------------------------------------------------------

  datatype Badge = Badge(title: string, unlocked: bool)

  /** The six badges in display order. */
  function Badges(stats: PerfilStats): (r: seq<Badge>)
    ensures |r| == 6
    ensures r[0] == Badge("Mestre em ML", stats.totalModulosCompletos >= 5)
    ensures r[1] == Badge("Sequência de " + IntToString(stats.streak) + " dias", stats.streak >= 7)
    ensures r[2] == Badge("Aprendiz Dedicado", stats.totalModulosCompletos >= 3)
    ensures r[3] == Badge("Nível " + IntToString(stats.level), stats.level >= 2)
    ensures r[4] == Badge("IA Expert", stats.totalModulosCompletos >= 12)
    ensures r[5] == Badge("Mentor", false)
  {
    [ Badge("Mestre em ML", stats.totalModulosCompletos >= 5),
      Badge("Sequência de " + IntToString(stats.streak) + " dias", stats.streak >= 7),
      Badge("Aprendiz Dedicado", stats.totalModulosCompletos >= 3),
      Badge("Nível " + IntToString(stats.level), stats.level >= 2),
      Badge("IA Expert", stats.totalModulosCompletos >= 12),
      Badge("Mentor", false) ]
  }

  /** With statistics computed from data, the badges unlock in a chain: IA
      Expert implies Mestre em ML, which implies Aprendiz Dedicado; Mestre em
      ML and the level badge unlock together; Mentor never unlocks. */
  lemma BadgeChain(inscricoes: Option<seq<Inscricao>>, allProgresso: Option<seq<Progresso>>, draw: int)
    requires 0 <= draw < 30
    ensures var b := Badges(ComputeStats(inscricoes, allProgresso, draw));
            && (b[4].unlocked ==> b[0].unlocked)
            && (b[0].unlocked ==> b[2].unlocked)
            && (b[0].unlocked <==> b[3].unlocked)
            && !b[5].unlocked
  {
  }

  datatype Competencia = Competencia(name: string, level: int)

  function SkillLevel(completos: int, weight: int): (r: int)
    ensures r <= 100 && r <= completos * weight
    ensures r == 100 || r == completos * weight
  {
    if completos * weight < 100 then completos * weight else 100
  }

  /** The five skill bars, each the completed-module count times its weight,
      capped at 100. */
  function Competencias(completos: nat): (r: seq<Competencia>)
    ensures |r| == 5
    ensures forall k :: 0 <= k < 5 ==> 0 <= r[k].level <= 100
    ensures r[0].name == "Machine Learning" && r[1].name == "Python" &&
            r[2].name == "Deep Learning" && r[3].name == "Análise de Dados" &&
            r[4].name == "TensorFlow"
    ensures forall k :: 0 <= k < 5 ==> (r[k].level == 100 <==> completos * [8, 9, 7, 8, 6][k] >= 100)
    ensures forall k :: 0 <= k < 5 ==> (r[k].level < 100 ==> r[k].level == completos * [8, 9, 7, 8, 6][k])
  {
    [ Competencia("Machine Learning", SkillLevel(completos, 8)),
      Competencia("Python", SkillLevel(completos, 9)),
      Competencia("Deep Learning", SkillLevel(completos, 7)),
      Competencia("Análise de Dados", SkillLevel(completos, 8)),
      Competencia("TensorFlow", SkillLevel(completos, 6)) ]
  }

  /** Completing more modules never lowers a skill bar; from 17 completed
      modules on, every bar is full. */
  lemma CompetenciasMonotone(a: nat, b: nat)
    requires a <= b
    ensures forall k :: 0 <= k < 5 ==> Competencias(a)[k].level <= Competencias(b)[k].level
    ensures a >= 17 ==> forall k :: 0 <= k < 5 ==> Competencias(a)[k].level == 100
  {
    var ws := [8, 9, 7, 8, 6];
    forall k | 0 <= k < 5 ensures a * ws[k] <= b * ws[k] {
      MulMonotone(ws[k], a, b);
    }
    if a >= 17 {
      forall k | 0 <= k < 5 ensures a * ws[k] >= 100 {
        MulMonotone(ws[k], 17, a);
      }
    }
  }

  // ---------------------------------------------------------------------
  // Avatar initials
  // ---------------------------------------------------------------------

  /** `s.split(' ')`: the pieces between single spaces, empty pieces
      included; there is always at least one. */
  function Split(s: string): (r: seq<string>)
    ensures |r| >= 1
    ensures forall k :: 0 <= k < |r| ==> ' ' !in r[k]
  {
    if s == [] then [""]
    else
      var rest := Split(s[1..]);
      if s[0] == ' ' then [""] + rest
      else [[s[0]] + rest[0]] + rest[1..]
  }

  /** `words.join(' ')`. */
  function Join(words: seq<string>): (r: string)
    requires |words| >= 1
  {
    if |words| == 1 then words[0] else words[0] + " " + Join(words[1..])
  }

  /** Joining the pieces of a split gives the name back. */
  lemma {:induction false} SplitJoin(s: string)
    ensures Join(Split(s)) == s
  {
    if s != [] {
      SplitJoin(s[1..]);
      var rest := Split(s[1..]);
      if s[0] == ' ' {
        assert ([""] + rest)[1..] == rest;
      } else if |rest| > 1 {
        assert ([[s[0]] + rest[0]] + rest[1..])[1..] == rest[1..];
      }
    }
  }

  /** `words.map(n => n[0]).join('')`: the first character of each piece, an
      empty piece contributing nothing. */
  function Heads(words: seq<string>): (r: string)
    ensures |r| <= |words|
  {
    if words == [] then []
    else (if words[0] == [] then [] else [words[0][0]]) + Heads(words[1..])
  }

  /** The characters that begin a word: not a space, and first in the name or
      right after a space. `atStart` says the previous character was a space
      or there was none. */
  function WordStarts(s: string, atStart: bool): (r: string)
    ensures forall k :: 0 <= k < |r| ==> r[k] != ' ' && r[k] in s
  {
    if s == [] then []
    else (if atStart && s[0] != ' ' then [s[0]] else []) + WordStarts(s[1..], s[0] == ' ')
  }

  lemma HeadsCons(w: string, ws: seq<string>)
    ensures Heads([w] + ws) == (if w == [] then [] else [w[0]]) + Heads(ws)
  {
    assert ([w] + ws)[1..] == ws;
  }

  /** The heads of the pieces are the word starts; the heads of all pieces
      but the first are the word starts after the first character. */
  lemma {:induction false} HeadsAreWordStarts(s: string)
    ensures Heads(Split(s)) == WordStarts(s, true)
    ensures Heads(Split(s)[1..]) == WordStarts(s, false)
  {
    if s != [] {
      HeadsAreWordStarts(s[1..]);
      var rest := Split(s[1..]);
      if s[0] == ' ' {
        HeadsCons("", rest);
        assert ([""] + rest)[1..] == rest;
      } else {
        HeadsCons([s[0]] + rest[0], rest[1..]);
        assert ([[s[0]] + rest[0]] + rest[1..])[1..] == rest[1..];
      }
    }
  }

  /** The avatar fallback: the first two word starts of the user's name, or
      "US" when there is no user or the name has no word start. */
  function Initials(name: Option<string>): (r: string)
    ensures name.None? ==> r == "US"
    ensures name.Some? ==>
      var starts := WordStarts(name.value, true);
      r == if starts == [] then "US" else Take(starts, 2)
    ensures 1 <= |r| <= 2
  {
    if name.None? then "US"
    else
      HeadsAreWordStarts(name.value);
      var joined := Take(Heads(Split(name.value)), 2);
      if joined == [] then "US" else joined
  }
}
