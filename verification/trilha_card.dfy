/** The card of one track in the catalogue, on the dashboard and on the
    landing page: level badge colour, header picture, module count and link. */
module TrilhaCard {
  import opened Common
  import opened Records
  import Trilhas

  datatype LevelColor = SuccessColor | WarningColor | DestructiveColor | Muted

  /** The badge colour of a level label; unknown labels are muted. */
  function LevelColorOf(level: string): (c: LevelColor)
    ensures c == SuccessColor <==> level == "Iniciante"
    ensures c == WarningColor <==> level == "Intermediário"
    ensures c == DestructiveColor <==> level == "Avançado"
    ensures c == Muted <==> level !in ["Iniciante", "Intermediário", "Avançado"]
  {
    match level
    case "Iniciante" => SuccessColor
    case "Intermediário" => WarningColor
    case "Avançado" => DestructiveColor
    case _ => Muted
  }

  /** Every catalogue card built from a fetched track gets a coloured badge. */
  lemma CatalogueLevelsAreColoured(t: Trilha)
    ensures LevelColorOf(Trilhas.ToCard(t).level) != Muted
  {
  }

  datatype Header = Picture(src: string) | IconHeader

  /** The header: the picture when `image` is a non-empty string, otherwise
      the track's icon. */
  function HeaderFor(image: Option<string>): (h: Header)
    ensures h.Picture? <==> image.Some? && image.value != ""
    ensures h.Picture? ==> h.src == image.value
  {
    if image.Some? && image.value != "" then Picture(image.value) else IconHeader
  }

  /** "N módulos". */
  function ModulesLabel(modules: int): (s: string)
    ensures |s| > |" módulos"| && s[|s| - |" módulos"|..] == " módulos"
    ensures ParseInt(s[..|s| - |" módulos"|]) == Some(modules)
  {
    IntToStringRoundTrip(modules);
    var s := IntToString(modules) + " módulos";
    assert s[..|s| - |" módulos"|] == IntToString(modules);
    s
  }

  /** The "Ver Trilha" link: the track page of the card's id, from which the
      id reads back. */
  function LinkTarget(id: int): (path: string)
    ensures |path| > 8 && path[..8] == "/trilhas"
    ensures path[8] == '/' && ParseInt(path[9..]) == Some(id)
  {
    IntToStringRoundTrip(id);
    var path := "/trilhas/" + IntToString(id);
    assert path[9..] == IntToString(id);
    path
  }

  /** Different tracks link to different pages. */
  lemma LinkTargetInjective(a: int, b: int)
    requires LinkTarget(a) == LinkTarget(b)
    ensures a == b
  {
    assert LinkTarget(a)[9..] == LinkTarget(b)[9..];
  }
}
