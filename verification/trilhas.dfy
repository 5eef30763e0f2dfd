/** The track catalogue: fetched tracks mapped to cards (with the built-in
    catalogue as fallback), the search and level filter, the result counter
    and the screen shown. */
module Trilhas {
  import opened Common
  import opened Records

  datatype Icon = Brain | Database | Users | Leaf | Shield | Briefcase

  /** Card image: the track's own URL or one of the two bundled pictures. */
  datatype CardImage = ImageUrl(url: string) | AiImage | DataImage | NoImage

  datatype Card = Card(id: int, title: string, description: string, icon: Icon,
                       duration: string, level: string, modules: int, image: CardImage)

  /** The icon for a track title; titles not in the table get the brain. */
  function IconFor(title: string): (icon: Icon)
    ensures icon == Database <==> title == "Ciência de Dados"
    ensures icon == Users <==> title == "Soft Skills"
    ensures icon == Leaf <==> title == "Green Skills"
    ensures icon == Shield <==> title == "Cybersegurança"
    ensures icon == Briefcase <==> title == "Carreiras Digitais"
  {
    if title == "IA & Automação" then Brain
    else if title == "Ciência de Dados" then Database
    else if title == "Soft Skills" then Users
    else if title == "Green Skills" then Leaf
    else if title == "Cybersegurança" then Shield
    else if title == "Carreiras Digitais" then Briefcase
    else Brain
  }

  /** The track's URL when it has one, else the bundled picture for its
      title, else none. */
  function ImageFor(imageUrl: string, title: string): (img: CardImage)
    ensures imageUrl != "" ==> img == ImageUrl(imageUrl)
    ensures imageUrl == "" ==>
      img == if title == "IA & Automação" then AiImage
             else if title == "Ciência de Dados" then DataImage
             else NoImage
  {
    if imageUrl != "" then ImageUrl(imageUrl)
    else if title == "IA & Automação" then AiImage
    else if title == "Ciência de Dados" then DataImage
    else NoImage
  }

  /** The card of a fetched track: the title's icon, the track's picture,
      twelve modules, duration in weeks of four hours rounded up, the
      difficulty's label. */
  function ToCard(t: Trilha): (c: Card)
    ensures c.id == t.trilhaId && c.title == t.title && c.description == t.description
    ensures c.level == DifficultyLabel(t.difficulty)
    ensures c.level in Levels()[1..]
    ensures c.icon == IconFor(t.title)
    ensures c.image == ImageFor(t.imageUrl, t.title)
    ensures c.modules == 12
    ensures exists w :: 4 * (w - 1) < t.durationHours <= 4 * w && c.duration == IntToString(w) + " semanas"
  {
    Card(t.trilhaId, t.title, t.description, IconFor(t.title), WeeksLabel(t.durationHours),
         DifficultyLabel(t.difficulty), 12, ImageFor(t.imageUrl, t.title))
  }

  /** The fetched tracks as cards, in order; none while nothing was fetched. */
  function FetchedCards(trilhasData: Option<seq<Trilha>>): (r: seq<Card>)
    ensures trilhasData.None? ==> r == []
    ensures trilhasData.Some? ==>
      && |r| == |trilhasData.value|
      && forall k :: 0 <= k < |r| ==> r[k] == ToCard(trilhasData.value[k])
  {
    if trilhasData.None? then []
    else seq(|trilhasData.value|, k requires 0 <= k < |trilhasData.value| => ToCard(trilhasData.value[k]))
  }

  // The built-in catalogue, column by column, for the card ids 1 to 6.

  function MockTitle(id: int): string
  {
    match id
    case 1 => "IA & Automação"
    case 2 => "Ciência de Dados"
    case 3 => "Soft Skills & Liderança"
    case 4 => "Green Skills"
    case 5 => "Cybersegurança"
    case _ => "Carreiras Digitais"
  }

  function MockIcon(id: int): Icon
  {
    match id
    case 1 => Brain
    case 2 => Database
    case 3 => Users
    case 4 => Leaf
    case 5 => Shield
    case _ => Briefcase
  }

  function MockDuration(id: int): string
  {
    match id
    case 1 => "8 semanas"
    case 2 => "10 semanas"
    case 3 => "6 semanas"
    case 4 => "7 semanas"
    case 5 => "9 semanas"
    case _ => "8 semanas"
  }

  function MockLevel(id: int): string
  {
    match id
    case 1 => "Intermediário"
    case 4 => "Intermediário"
    case 5 => "Avançado"
    case _ => "Iniciante"
  }

  function MockModules(id: int): int
  {
    match id
    case 1 => 12
    case 2 => 15
    case 3 => 10
    case 4 => 11
    case 5 => 14
    case _ => 13
  }

  function MockImage(id: int): CardImage
  {
    match id
    case 1 => AiImage
    case 2 => DataImage
    case _ => NoImage
  }

  /** The built-in card with the given id (1 to 6); its description text is
      not part of this model. */
  function MockCard(id: int): (c: Card)
    ensures c.id == id && c.level == MockLevel(id)
  {
    Card(id, MockTitle(id), "", MockIcon(id), MockDuration(id), MockLevel(id),
         MockModules(id), MockImage(id))
  }

  /** The built-in catalogue shown when no track was fetched: cards 1 to 6. */
  function MockTrilhas(): (r: seq<Card>)
    ensures |r| == 6
    ensures forall k :: 0 <= k < 6 ==> r[k] == MockCard(k + 1) && r[k].id == k + 1
  {
    seq(6, k requires 0 <= k < 6 => MockCard(k + 1))
  }

  /** Every level chip other than "Todos" selects at least one built-in card. */
  lemma MockCoversLevels(i: int)
    requires 1 <= i < |Levels()|
    ensures exists k :: 0 <= k < |MockTrilhas()| && MockTrilhas()[k].level == Levels()[i]
  {
    var w := if i == 1 then 1 else if i == 2 then 0 else 4;
    assert MockTrilhas()[w].level == MockLevel(w + 1);
  }

  /** The cards on offer: the fetched ones, or the built-in catalogue when
      there are none. Never empty. */
  function DisplayTrilhas(trilhasData: Option<seq<Trilha>>): (r: seq<Card>)
    ensures |r| > 0
    ensures trilhasData.Some? && |trilhasData.value| > 0 ==> r == FetchedCards(trilhasData)
    ensures trilhasData.None? || |trilhasData.value| == 0 ==> r == MockTrilhas()
  {
    var fetched := FetchedCards(trilhasData);
    if |fetched| > 0 then fetched else MockTrilhas()
  }

  /** The level chips, "Todos" first. */
  function Levels(): (r: seq<string>)
    ensures |r| == 4 && r[0] == "Todos"
  {
    ["Todos", "Iniciante", "Intermediário", "Avançado"]
  }

  /** A card passes the filter when the lower-cased search term occurs in its
      lower-cased title or description, and the level is "Todos" or its own. */
  predicate Matches(c: Card, searchTerm: string, selectedLevel: string)
  {
    var needle := ToLower(searchTerm);
    (Contains(ToLower(c.title), needle) || Contains(ToLower(c.description), needle))
    && (selectedLevel == "Todos" || c.level == selectedLevel)
  }

  /** The cards shown: those on offer that pass the filter, in order. */
  function Filtered(cards: seq<Card>, searchTerm: string, selectedLevel: string): (r: seq<Card>)
    ensures |r| <= |cards|
    ensures forall k :: 0 <= k < |r| ==> r[k] in cards && Matches(r[k], searchTerm, selectedLevel)
    ensures forall k :: 0 <= k < |cards| && Matches(cards[k], searchTerm, selectedLevel) ==> cards[k] in r
  {
    Filter(cards, (c: Card) => Matches(c, searchTerm, selectedLevel))
  }

  /** The shown cards keep the catalogue order. */
  lemma FilteredKeepsOrder(cards: seq<Card>, searchTerm: string, selectedLevel: string)
    ensures IsSubsequence(Filtered(cards, searchTerm, selectedLevel), cards)
  {
    FilterIsSubsequence(cards, (c: Card) => Matches(c, searchTerm, selectedLevel));
  }

  /** With the filters cleared ("" and "Todos") every card is shown. */
  lemma {:induction false} ClearedShowsAll(cards: seq<Card>)
    ensures Filtered(cards, ClearFilters().0, ClearFilters().1) == cards
  {
    var p := (c: Card) => Matches(c, "", "Todos");
    forall k | 0 <= k < |cards| ensures p(cards[k]) {
      assert ToLower("") == "";
    }
    FilterKeepsAll(cards, p);
  }

  /** The search ignores the case of the search term. */
  lemma SearchIgnoresCase(cards: seq<Card>, searchTerm: string, selectedLevel: string)
    ensures Filtered(cards, ToLower(searchTerm), selectedLevel) == Filtered(cards, searchTerm, selectedLevel)
  {
    ToLowerIdempotent(searchTerm);
    FilterSamePredicate(cards, (c: Card) => Matches(c, ToLower(searchTerm), selectedLevel),
                        (c: Card) => Matches(c, searchTerm, selectedLevel));
  }

  /** Choosing a level shows only cards of that level, and never more than
      "Todos" with the same search. */
  lemma {:induction false} LevelNarrows(cards: seq<Card>, searchTerm: string, level: string)
    ensures forall k :: 0 <= k < |Filtered(cards, searchTerm, level)| ==>
              level == "Todos" || Filtered(cards, searchTerm, level)[k].level == level
    ensures |Filtered(cards, searchTerm, level)| <= |Filtered(cards, searchTerm, "Todos")|
  {
    if cards != [] {
      LevelNarrows(cards[1..], searchTerm, level);
      assert cards == [cards[0]] + cards[1..];
      FilterCons(cards[0], cards[1..], (c: Card) => Matches(c, searchTerm, level));
      FilterCons(cards[0], cards[1..], (c: Card) => Matches(c, searchTerm, "Todos"));
    }
  }

  /** "1 trilha encontrada", otherwise "N trilhas encontradas": the count
      reads back from the text before the first space, and the words after it
      are singular exactly when the count is one. */
  function ResultCounter(n: nat): (r: string)
    ensures exists k :: 0 < k < |r| && r[k] == ' ' && (forall j :: 0 <= j < k ==> r[j] != ' ') &&
                        ParseInt(r[..k]) == Some(n) &&
                        (r[k + 1..] == "trilha encontrada" <==> n == 1) &&
                        (r[k + 1..] == "trilhas encontradas" <==> n != 1)
  {
    var digits := IntToString(n);
    IntToStringRoundTrip(n);
    var r := digits + " " + (if n == 1 then "trilha encontrada" else "trilhas encontradas");
    assert r[..|digits|] == digits;
    assert forall j :: 0 <= j < |digits| ==> r[j] == digits[j] && IsDigit(digits[j]);
    assert r[|digits| + 1..] == (if n == 1 then "trilha encontrada" else "trilhas encontradas");
    r
  }

  /** The values "Limpar filtros" sets: empty search, all levels. */
  function ClearFilters(): (r: (string, string))
    ensures r.0 == [] && r.1 == Levels()[0]
  {
    ("", "Todos")
  }

  datatype CatalogScreen = Skeletons | LoadError | Grid(cards: seq<Card>) | NoResults

  /** Loading first, then the error, then the grid or the empty state. */
  function CatalogScreenFor(isLoading: bool, isError: bool, filtered: seq<Card>): (s: CatalogScreen)
    ensures s == Skeletons <==> isLoading
    ensures s == LoadError <==> !isLoading && isError
    ensures s.Grid? <==> !isLoading && !isError && |filtered| > 0
    ensures s.Grid? ==> s.cards == filtered
  {
    if isLoading then Skeletons
    else if isError then LoadError
    else if |filtered| > 0 then Grid(filtered)
    else NoResults
  }
}
