/** The landing page: the platform figures with their fallbacks and the
    featured track cards. */
module IndexPage {
  import opened Common
  import opened Records
  import Trilhas
  import TrilhaCard

  /** The three platform figures. Each field is absent when the statistics
      were not fetched; zero counts as absent. */
  datatype PlatformStats = PlatformStats(totalTrilhas: Option<int>, totalUsuarios: Option<int>,
                                         taxaConclusao: Option<int>)

  /** "N+" tracks, 50 when unknown or zero: the text ends in "+" and what
      precedes it reads back as the count or the fallback. */
  function TrilhasStat(stats: Option<PlatformStats>): (s: string)
    ensures |s| >= 2 && s[|s| - 1] == '+'
    ensures var n := if stats.Some? then stats.value.totalTrilhas else None;
            ParseInt(s[..|s| - 1]) == Some(if n.Some? && n.value != 0 then n.value else 50)
  {
    var n := if stats.Some? then stats.value.totalTrilhas else None;
    var v := OrDefault(n, 50);
    IntToStringRoundTrip(v);
    var s := IntToString(v) + "+";
    assert s[..|s| - 1] == IntToString(v);
    s
  }

  /** "Nk+" users: thousands rounded down, 10 when unknown or zero. */
  function UsuariosStat(stats: Option<PlatformStats>): (s: string)
    ensures var n := if stats.Some? then stats.value.totalUsuarios else None;
            exists k :: s == IntToString(k) + "k+" &&
              if OrDefault(n, 0) == 0 then k == 10
              else 1000 * k <= n.value < 1000 * (k + 1)
  {
    var n := if stats.Some? then stats.value.totalUsuarios else None;
    var k := if OrDefault(n, 0) != 0 then FloorDiv(n.value, 1000) else 10;
    IntToString(k) + "k+"
  }

  /** "N%" completion, 95 when unknown or zero: the text ends in "%" and
      what precedes it reads back as the rate or the fallback. */
  function TaxaStat(stats: Option<PlatformStats>): (s: string)
    ensures |s| >= 2 && s[|s| - 1] == '%'
    ensures var n := if stats.Some? then stats.value.taxaConclusao else None;
            ParseInt(s[..|s| - 1]) == Some(if n.Some? && n.value != 0 then n.value else 95)
  {
    var n := if stats.Some? then stats.value.taxaConclusao else None;
    var v := OrDefault(n, 95);
    IntToStringRoundTrip(v);
    var s := IntToString(v) + "%";
    assert s[..|s| - 1] == IntToString(v);
    s
  }

  /** Without statistics the page shows "50+", "10k+" and "95%". */
  lemma FallbackStats()
    ensures TrilhasStat(None) == IntToString(50) + "+"
    ensures UsuariosStat(None) == IntToString(10) + "k+"
    ensures TaxaStat(None) == IntToString(95) + "%"
  {
  }

  /** Of the (up to eight) featured tracks fetched, the first four are shown. */
  function Featured(trilhasDestaque: seq<Trilha>): (r: seq<Trilha>)
    ensures |r| == if |trilhasDestaque| < 4 then |trilhasDestaque| else 4
    ensures r <= trilhasDestaque
  {
    Take(trilhasDestaque, 4)
  }

  /** The props of a featured card. */
  datatype FeaturedCard = FeaturedCard(id: int, title: string, description: string, icon: Trilhas.Icon,
                                       duration: string, level: string, modules: int, image: Option<string>)

  /** A featured card as the page builds it: always the brain icon, the
      track's own image URL (the page's icon and picture tables are not
      consulted), and the track's raw difficulty value as the level. */
  function FeaturedCardAsWritten(t: Trilha): (c: FeaturedCard)
    ensures c.id == t.trilhaId && c.title == t.title && c.description == t.description
    ensures c.icon == Trilhas.Brain && c.image == Some(t.imageUrl)
    ensures c.modules == 8
    ensures c.level == t.difficulty
    ensures c.duration == WeeksLabel(t.durationHours)
  {
    FeaturedCard(t.trilhaId, t.title, t.description, Trilhas.Brain, WeeksLabel(t.durationHours),
                 t.difficulty, 8, Some(t.imageUrl))
  }

  /** The featured card shows a picture exactly when the track has its own
      image URL; otherwise the brain icon. The catalogue falls back to the
      bundled picture or the title's icon instead, so a track such as
      "Ciência de Dados" without a URL looks different on the two pages. */
  lemma FeaturedHeaderIgnoresTitle(t: Trilha)
    ensures TrilhaCard.HeaderFor(FeaturedCardAsWritten(t).image).Picture? <==> t.imageUrl != ""
    ensures t.imageUrl == "" && t.title == "Ciência de Dados" ==>
              && TrilhaCard.HeaderFor(FeaturedCardAsWritten(t).image) == TrilhaCard.IconHeader
              && FeaturedCardAsWritten(t).icon == Trilhas.Brain
              && Trilhas.ToCard(t).icon == Trilhas.Database
              && Trilhas.ToCard(t).image == Trilhas.DataImage
  {
  }

  /** As written, the badge of a featured track whose difficulty is not
      already a display label (every backend value, INICIANTE, INTERMEDIARIO
      and the rest, which the other pages translate) shows that raw value in
      the muted colour, while the catalogue shows the same track in colour. */
  lemma FeaturedLevelIsMutedAsWritten(t: Trilha)
    requires t.difficulty !in ["Iniciante", "Intermediário", "Avançado"]
    ensures TrilhaCard.LevelColorOf(FeaturedCardAsWritten(t).level) == TrilhaCard.Muted
    ensures TrilhaCard.LevelColorOf(Trilhas.ToCard(t).level) != TrilhaCard.Muted
  {
  }

  /** The featured card with the difficulty translated to its label, as the
      catalogue does. */
  function FeaturedCardOf(t: Trilha): (c: FeaturedCard)
    ensures c.id == t.trilhaId && c.title == t.title && c.description == t.description
    ensures c.icon == Trilhas.Brain && c.image == Some(t.imageUrl)
    ensures c.modules == 8
    ensures c.level == Trilhas.ToCard(t).level
    ensures exists w :: 4 * (w - 1) < t.durationHours <= 4 * w && c.duration == IntToString(w) + " semanas"
  {
    FeaturedCard(t.trilhaId, t.title, t.description, Trilhas.Brain, WeeksLabel(t.durationHours),
                 DifficultyLabel(t.difficulty), 8, Some(t.imageUrl))
  }

  /** With the translation, every featured badge is coloured, and in the same
      colour as the catalogue's. */
  lemma FeaturedLevelIsColoured(t: Trilha)
    ensures TrilhaCard.LevelColorOf(FeaturedCardOf(t).level) != TrilhaCard.Muted
    ensures TrilhaCard.LevelColorOf(FeaturedCardOf(t).level) == TrilhaCard.LevelColorOf(Trilhas.ToCard(t).level)
  {
    TrilhaCard.CatalogueLevelsAreColoured(t);
  }

  /** The cards the page shows, as written: one per shown featured track,
      each with the raw difficulty. */
  function FeaturedCardsAsWritten(trilhasDestaque: seq<Trilha>): (r: seq<FeaturedCard>)
    ensures |r| == |Featured(trilhasDestaque)| <= 4
    ensures forall k :: 0 <= k < |r| ==> r[k] == FeaturedCardAsWritten(trilhasDestaque[k])
  {
    var shown := Featured(trilhasDestaque);
    seq(|shown|, k requires 0 <= k < |shown| => FeaturedCardAsWritten(shown[k]))
  }

  /** The cards with the difficulty translated: the corrected page. */
  function FeaturedCards(trilhasDestaque: seq<Trilha>): (r: seq<FeaturedCard>)
    ensures |r| == |Featured(trilhasDestaque)| <= 4
    ensures forall k :: 0 <= k < |r| ==> r[k] == FeaturedCardOf(trilhasDestaque[k])
  {
    var shown := Featured(trilhasDestaque);
    seq(|shown|, k requires 0 <= k < |shown| => FeaturedCardOf(shown[k]))
  }

  /** The correction changes the level of each card and nothing else: the
      corrected card is the page's card with the difficulty's label as its
      level, and every corrected badge is coloured. */
  lemma FeaturedCardsOnlyLevelDiffers(trilhasDestaque: seq<Trilha>)
    ensures |FeaturedCards(trilhasDestaque)| == |FeaturedCardsAsWritten(trilhasDestaque)|
    ensures forall k :: 0 <= k < |FeaturedCards(trilhasDestaque)| ==>
              FeaturedCards(trilhasDestaque)[k] ==
              FeaturedCardsAsWritten(trilhasDestaque)[k].(level := DifficultyLabel(trilhasDestaque[k].difficulty))
    ensures forall k :: 0 <= k < |FeaturedCards(trilhasDestaque)| ==>
              TrilhaCard.LevelColorOf(FeaturedCards(trilhasDestaque)[k].level) != TrilhaCard.Muted
  {
    var r := FeaturedCards(trilhasDestaque);
    forall k | 0 <= k < |r|
      ensures TrilhaCard.LevelColorOf(r[k].level) != TrilhaCard.Muted
    {
      FeaturedLevelIsColoured(trilhasDestaque[k]);
    }
  }
}
