/** The dashboard: the statistics cards and the "current track", the most
    recently enrolled track that is started and not yet finished. */
module Dashboard {
  import opened Common
  import opened Records

  datatype Stats = Stats(level: int, badges: nat, streak: int,
                         totalModulosCompletos: nat, horasEstudadas: nat)

  /** The statistics cards. Without enrollments or progress everything is zero
      and the level is 1. The level is the user record's, else the session's,
      else 1, where a level of 0 counts as missing. */
  function ComputeStats(inscricoes: Option<seq<Inscricao>>, allProgresso: Option<seq<Progresso>>,
                        userLevel: Option<int>, sessionLevel: Option<int>,
                        streakDias: Option<int>, achievements: seq<Achievement>): (s: Stats)
    ensures inscricoes.None? || allProgresso.None? ==> s == Stats(1, 0, 0, 0, 0)
    ensures inscricoes.Some? && allProgresso.Some? ==>
      && s.totalModulosCompletos == CompletedCount(allProgresso.value)
      && s.horasEstudadas == 2 * s.totalModulosCompletos
      && s.badges == |achievements|
      && (userLevel.Some? && userLevel.value != 0 ==> s.level == userLevel.value)
      && ((userLevel.None? || userLevel.value == 0) && sessionLevel.Some? && sessionLevel.value != 0 ==>
            s.level == sessionLevel.value)
      && ((userLevel.None? || userLevel.value == 0) && (sessionLevel.None? || sessionLevel.value == 0) ==>
            s.level == 1)
      && (streakDias.Some? ==> s.streak == streakDias.value)
      && (streakDias.None? ==> s.streak == 0)
    ensures s.level != 0
  {
    if inscricoes.None? || allProgresso.None? then Stats(1, 0, 0, 0, 0)
    else
      var done := CompletedCount(allProgresso.value);
      Stats(OrDefault(userLevel, OrDefault(sessionLevel, 1)), |achievements|,
            OrDefault(streakDias, 0), done, done * 2)
  }

  // ---------------------------------------------------------------------
  // Enrollments, newest first (`[...inscricoes].sort(...)`, a stable sort)
  // ---------------------------------------------------------------------

  ghost predicate NewestFirst(s: seq<Inscricao>)
  {
    forall i, j :: 0 <= i < j < |s| ==> s[i].enrolledAt >= s[j].enrolledAt
  }

  /** The enrollments made at time `t`, in their order in `s`. */
  function AtTime(s: seq<Inscricao>, t: int): seq<Inscricao>
  {
    if s == [] then [] else (if s[0].enrolledAt == t then [s[0]] else []) + AtTime(s[1..], t)
  }

  /** Inserts x before the first element that is not newer than x. */
  function Insert(x: Inscricao, s: seq<Inscricao>): (r: seq<Inscricao>)
    ensures multiset(r) == multiset(s) + multiset{x}
    ensures forall i :: 0 <= i < |r| ==> r[i] == x || r[i] in s
  {
    if s == [] || s[0].enrolledAt <= x.enrolledAt then [x] + s
    else
      assert s == [s[0]] + s[1..];
      [s[0]] + Insert(x, s[1..])
  }

  lemma {:induction false} InsertKeepsOrder(x: Inscricao, s: seq<Inscricao>)
    requires NewestFirst(s)
    ensures NewestFirst(Insert(x, s))
  {
    if s != [] && s[0].enrolledAt > x.enrolledAt {
      var rest := Insert(x, s[1..]);
      InsertKeepsOrder(x, s[1..]);
      forall j | 0 <= j < |rest| ensures rest[j].enrolledAt <= s[0].enrolledAt {
        if rest[j] != x {
          var m :| 0 <= m < |s[1..]| && s[1..][m] == rest[j];
          assert s[m + 1] == rest[j];
        }
      }
      var r := [s[0]] + rest;
      forall i, j | 0 <= i < j < |r| ensures r[i].enrolledAt >= r[j].enrolledAt {
        if i > 0 {
          assert r[i] == rest[i - 1] && r[j] == rest[j - 1];
        }
      }
    }
  }

  lemma {:induction false} InsertAtTime(x: Inscricao, s: seq<Inscricao>, t: int)
    ensures AtTime(Insert(x, s), t) == (if x.enrolledAt == t then [x] else []) + AtTime(s, t)
  {
    if s == [] || s[0].enrolledAt <= x.enrolledAt {
      assert ([x] + s)[1..] == s;
    } else {
      var rest := Insert(x, s[1..]);
      InsertAtTime(x, s[1..], t);
      assert Insert(x, s) == [s[0]] + rest;
      assert ([s[0]] + rest)[1..] == rest;
      // s[0] is strictly newer than x, so at most one of them is at time t.
      var head, mine := if s[0].enrolledAt == t then [s[0]] else [], if x.enrolledAt == t then [x] else [];
      assert head == [] || mine == [];
      calc {
        AtTime(Insert(x, s), t);
        head + AtTime(rest, t);
        head + (mine + AtTime(s[1..], t));
        mine + (head + AtTime(s[1..], t));
        mine + AtTime(s, t);
      }
    }
  }

  /** A copy of the enrollments sorted by descending `enrolledAt`; equal
      timestamps keep their original order. */
  function SortNewestFirst(s: seq<Inscricao>): (r: seq<Inscricao>)
    ensures NewestFirst(r)
    ensures multiset(r) == multiset(s)
    ensures |r| == |s|
  {
    if s == [] then []
    else
      assert s == [s[0]] + s[1..];
      InsertKeepsOrder(s[0], SortNewestFirst(s[1..]));
      Insert(s[0], SortNewestFirst(s[1..]))
  }

  /** The sort is stable: enrollments with the same timestamp keep their order. */
  lemma {:induction false} SortIsStable(s: seq<Inscricao>, t: int)
    ensures AtTime(SortNewestFirst(s), t) == AtTime(s, t)
  {
    if s != [] {
      SortIsStable(s[1..], t);
      InsertAtTime(s[0], SortNewestFirst(s[1..]), t);
    }
  }

  // ---------------------------------------------------------------------
  // The current track
  // ---------------------------------------------------------------------

  datatype TrilhaAtual = TrilhaAtual(inscricao: Inscricao, trilha: Trilha, progresso: seq<Progresso>,
                                     modulosCompletos: nat, totalModulos: nat, percentualGeral: int)

  /** One iteration of the loop: the enrollment qualifies when its track was
      fetched, it has progress records and its rounded percentage is below 100. */
  function Candidate(i: Inscricao, trilhas: seq<Trilha>, all: seq<Progresso>): (r: Option<TrilhaAtual>)
    ensures r.Some? <==>
      && FindTrilha(trilhas, i.trilhaId).Some?
      && |ProgressOf(all, i.inscricaoId)| > 0
      && 200 * CompletedCount(ProgressOf(all, i.inscricaoId)) < 199 * |ProgressOf(all, i.inscricaoId)|
    ensures r.Some? ==>
      && r.value.inscricao == i
      && r.value.trilha == FindTrilha(trilhas, i.trilhaId).value
      && r.value.progresso == ProgressOf(all, i.inscricaoId)
      && r.value.totalModulos == |r.value.progresso| > 0
      && r.value.modulosCompletos == CompletedCount(r.value.progresso) <= r.value.totalModulos
      && r.value.percentualGeral == RoundPercent(r.value.modulosCompletos, r.value.totalModulos)
      && 0 <= r.value.percentualGeral <= 99
  {
    var trilha := FindTrilha(trilhas, i.trilhaId);
    var progresso := ProgressOf(all, i.inscricaoId);
    if trilha.Some? && |progresso| > 0 then
      var done := CompletedCount(progresso);
      var total := |progresso|;
      var pct := RoundPercent(done, total);
      RoundPercentFull(done, total);
      RoundPercentBounds(done, total);
      if pct < 100 then Some(TrilhaAtual(i, trilha.value, progresso, done, total, pct)) else None
    else None
  }

  /** The loop's test, as a predicate on enrollments. */
  function Qualifies(trilhas: seq<Trilha>, all: seq<Progresso>): Inscricao -> bool
  {
    (i: Inscricao) => Candidate(i, trilhas, all).Some?
  }

  /** The loop over the sorted enrollments: it returns at the first one that
      qualifies, and yields none iff none qualifies. */
  function FirstCandidate(sorted: seq<Inscricao>, trilhas: seq<Trilha>, all: seq<Progresso>): (r: Option<TrilhaAtual>)
    ensures r.None? <==> forall k :: 0 <= k < |sorted| ==> Candidate(sorted[k], trilhas, all).None?
    ensures r.Some? ==> exists k :: 0 <= k < |sorted| && Candidate(sorted[k], trilhas, all) == r &&
                                   forall j :: 0 <= j < k ==> Candidate(sorted[j], trilhas, all).None?
    ensures r.Some? ==> r.value.inscricao in sorted && Candidate(r.value.inscricao, trilhas, all) == r
  {
    var e := FindFirst(sorted, Qualifies(trilhas, all));
    if e.None? then None else Candidate(e.value, trilhas, all)
  }

  /** The track shown under "continue where you left off". */
  function CurrentTrack(inscricoes: Option<seq<Inscricao>>, trilhas: Option<seq<Trilha>>,
                        allProgresso: Option<seq<Progresso>>): (r: Option<TrilhaAtual>)
    ensures inscricoes.None? || trilhas.None? || allProgresso.None? ==> r.None?
    ensures r.Some? ==>
      && r.value.inscricao in inscricoes.value
      && Candidate(r.value.inscricao, trilhas.value, allProgresso.value) == r
      && 0 < r.value.totalModulos
      && r.value.modulosCompletos <= r.value.totalModulos
      && 0 <= r.value.percentualGeral <= 99
    ensures inscricoes.Some? && trilhas.Some? && allProgresso.Some? ==>
      (r.None? <==> forall k :: 0 <= k < |inscricoes.value| ==>
                      Candidate(inscricoes.value[k], trilhas.value, allProgresso.value).None?)
  {
    if inscricoes.None? || trilhas.None? || allProgresso.None? then None
    else
      var sorted := SortNewestFirst(inscricoes.value);
      var r := FirstCandidate(sorted, trilhas.value, allProgresso.value);
      assert r.Some? ==> r.value.inscricao in multiset(inscricoes.value) by {
        if r.Some? {
          assert r.value.inscricao in multiset(sorted);
        }
      }
      assert forall k :: 0 <= k < |inscricoes.value| ==> inscricoes.value[k] in multiset(sorted);
      r
  }

  /** Over a newest-first list, the loop stops at an enrollment at least as
      recent as any other that qualifies. */
  lemma FirstCandidateIsNewest(sorted: seq<Inscricao>, trilhas: seq<Trilha>, all: seq<Progresso>, m: int)
    requires NewestFirst(sorted) && 0 <= m < |sorted|
    requires Candidate(sorted[m], trilhas, all).Some?
    ensures FirstCandidate(sorted, trilhas, all).Some?
    ensures sorted[m].enrolledAt <= FirstCandidate(sorted, trilhas, all).value.inscricao.enrolledAt
  {
    var r := FirstCandidate(sorted, trilhas, all);
    var k :| 0 <= k < |sorted| && Candidate(sorted[k], trilhas, all) == r &&
             forall j :: 0 <= j < k ==> Candidate(sorted[j], trilhas, all).None?;
    assert k <= m;
  }

  /** The current track qualifies, and no qualifying enrollment is newer. */
  lemma {:induction false} CurrentTrackIsNewest(inscricoes: seq<Inscricao>, trilhas: seq<Trilha>,
                             allProgresso: seq<Progresso>, e: Inscricao)
    requires e in inscricoes && Candidate(e, trilhas, allProgresso).Some?
    ensures CurrentTrack(Some(inscricoes), Some(trilhas), Some(allProgresso)).Some?
    ensures var r := CurrentTrack(Some(inscricoes), Some(trilhas), Some(allProgresso));
            Candidate(r.value.inscricao, trilhas, allProgresso) == r
    ensures e.enrolledAt <=
            CurrentTrack(Some(inscricoes), Some(trilhas), Some(allProgresso)).value.inscricao.enrolledAt
  {
    var sorted := SortNewestFirst(inscricoes);
    assert CurrentTrack(Some(inscricoes), Some(trilhas), Some(allProgresso)) ==
           FirstCandidate(sorted, trilhas, allProgresso);
    assert e in multiset(sorted) by {
      assert e in multiset(inscricoes);
    }
    var m :| 0 <= m < |sorted| && sorted[m] == e;
    FirstCandidateIsNewest(sorted, trilhas, allProgresso, m);
  }

  /** Enrollments made at time t, as a test. */
  function SameTime(t: int): Inscricao -> bool
  {
    (i: Inscricao) => i.enrolledAt == t
  }

  lemma {:induction false} AtTimeIsFilter(s: seq<Inscricao>, t: int)
    ensures AtTime(s, t) == Filter(s, SameTime(t))
  {
    if s != [] {
      AtTimeIsFilter(s[1..], t);
      assert s == [s[0]] + s[1..];
      FilterCons(s[0], s[1..], SameTime(t));
    }
  }

  /** Ties: when some enrollment qualifies, then among the enrollments made
      at the time of the current track, the current track is the first
      qualifying one in the order the enrollments were fetched, because the
      sort is stable. */
  lemma {:induction false} CurrentTrackTieBreak(inscricoes: seq<Inscricao>, trilhas: seq<Trilha>,
                                                 allProgresso: seq<Progresso>, e: Inscricao)
    requires e in inscricoes && Candidate(e, trilhas, allProgresso).Some?
    ensures var r := CurrentTrack(Some(inscricoes), Some(trilhas), Some(allProgresso));
            r.Some? && FirstCandidate(AtTime(inscricoes, r.value.inscricao.enrolledAt), trilhas, allProgresso) == r
  {
    CurrentTrackIsNewest(inscricoes, trilhas, allProgresso, e);
    var sorted := SortNewestFirst(inscricoes);
    var q := Qualifies(trilhas, allProgresso);
    var first := FindFirst(sorted, q);
    var r := CurrentTrack(Some(inscricoes), Some(trilhas), Some(allProgresso));
    assert r == Candidate(first.value, trilhas, allProgresso);
    var t := first.value.enrolledAt;
    SortIsStable(inscricoes, t);
    AtTimeIsFilter(sorted, t);
    FindFirstFilter(sorted, q, SameTime(t));
  }

  /** Rounding: 199 of 200 completed rounds to 100%, so such an enrollment is
      not the current track. */
  lemma NearlyCompleteIsSkipped(i: Inscricao, trilhas: seq<Trilha>, all: seq<Progresso>)
    requires |ProgressOf(all, i.inscricaoId)| == 200
    requires CompletedCount(ProgressOf(all, i.inscricaoId)) == 199
    ensures Candidate(i, trilhas, all).None?
    ensures RoundPercent(199, 200) == 100
  {
  }

  /** Recent achievements: the first three (all of them when fewer). */
  function RecentAchievements(achievements: seq<Achievement>): (r: seq<Achievement>)
    ensures |r| == if |achievements| < 3 then |achievements| else 3
    ensures r <= achievements
    ensures |achievements| <= 3 ==> r == achievements
  {
    Take(achievements, 3)
  }

  /** A goal is marked as reached once its progress is at least 100; a goal
      past 100 still counts as reached. */
  function GoalReached(progresso: int): (reached: bool)
    ensures reached <==> 100 <= progresso
  {
    progresso >= 100
  }
}
