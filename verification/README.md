# SkillRise front end: a verified model of its derived state

SkillRise is a learning platform. Users enrol in tracks (*trilhas*) made of
modules (*módulos*), record progress per module, collect achievements and
receive notifications. The React front end fetches these records over HTTP.
Its pages then compute what to show from them: completion flags, percentages,
the track to continue, filters, counters, labels and badges. This project
models that derived state in Dafny, one module per page, component or hook,
and proves what each computation guarantees.

Modules:

- `Common`: the JavaScript built-ins the pages rely on.
  - `filter`, `slice`, `find`, `findIndex`, `includes`, `toLowerCase`.
  - Number-to-text conversion and its parser.
  - `Math.round(100 * c / t)` as the integer `(200c + t) / (2t)`, `Math.ceil(h / 4)` and `Math.floor`.
- `Records`: the fetched records (progress, enrollment, module, track, notification, achievement) and the rules several pages share: "module complete", "completed count" and the difficulty label. Dates are integer millisecond timestamps. A route parameter is `Missing`, `NonNumeric` (`Number(...)` is NaN) or `Numeric(n)`.
- `TrilhaDetalhes`: the track page.
- `Dashboard`: the dashboard statistics and the "current track" choice.
- `ModuloPage`: the module page.
- `Perfil`: the profile page.
- `Trilhas`: the catalogue page.
- `Notificacoes`: the notifications page.
- `NotificationBell`: the navigation-bar notification bell.
- `ModuloCard`: the module card component.
- `TrilhaCard`: the track card component.
- `UseNotifications`: the notification hooks. Their toasts and cache refreshes are returned as a list of effects.
- `IndexPage`: the landing page.

JavaScript truthiness is explicit. An optional number is `Option<int>`, and `Some(0)` counts as absent wherever the source uses `||` or `&&`. An absent image URL is the empty string.

## Model

| member | source | states |
|---|---|---|
| Common.FilterIsSubsequence | src/pages/Trilhas.tsx:139-146 | a filtered list is an order-preserving subsequence of its input |
| Common.FilterIdempotent | src/pages/Trilhas.tsx:139-146 | filtering twice by the same rule equals filtering once |
| Common.FilterPartition | src/pages/Notificacoes.tsx:138-144 | filtering by a rule and by its negation splits the list: the two lengths add up to the total |
| Common.ContainsIff | src/pages/Trilhas.tsx:140-141 | `includes` holds exactly when the term occurs at some position |
| Common.ToLowerIdempotent | src/pages/Trilhas.tsx:140-141 | lower-casing twice equals lower-casing once |
| Common.IntToStringRoundTrip | src/components/TrilhaCard.tsx:83 | the decimal text of an integer parses back to the same integer |
| Common.ParseIntExact | src/components/TrilhaCard.tsx:83 | a text reads back as n only if it is exactly the decimal text of n: no leading zeros and no "-0", so every read-back clause pins the rendered number |
| Common.RoundPercentBounds | src/pages/TrilhaDetalhes.tsx:240 | the rounded percentage of c out of t, with 0 <= c <= t, lies in 0..100 |
| Common.RoundPercentFull | src/pages/Dashboard.tsx:162-164 | the rounded percentage reaches 100 exactly when 200c >= 199t |
| Records.CompletedCount | src/pages/TrilhaDetalhes.tsx:239 | the number of records at exactly 100% never exceeds the number of records |
| Records.CompletedCountExtremes | src/pages/TrilhaDetalhes.tsx:239 | no record done gives 0; every record done gives the full count |
| Records.IsModuleCompleted | src/pages/TrilhaDetalhes.tsx:248-249 | a module is complete iff the first progress record for it exists and is at exactly 100% |
| Records.ModuleCompletedWhenUnique | src/pages/TrilhaDetalhes.tsx:248-249 | with one record per module, "first record done" equals "some record done" |
| Records.ProgressOf | src/pages/Dashboard.tsx:158 | every record kept belongs to the enrollment and comes from the input |
| Records.ProgressOfComplete | src/pages/Dashboard.tsx:158 | every record of the enrollment is kept, in the order of the fetched list |
| Records.FindTrilha | src/pages/Dashboard.tsx:157 | the found track has the requested id; none is found iff no track has it |
| Records.FindTrilhaIsFirst | src/pages/Dashboard.tsx:157 | with several tracks sharing the id, the first one in the fetched list is found |
| Records.DifficultyLabel | src/pages/TrilhaDetalhes.tsx:323-324 | INICIANTE iff "Iniciante", INTERMEDIARIO iff "Intermediário", any other value iff "Avançado" |
| Records.WeeksLabel | src/pages/TrilhaDetalhes.tsx:358 | the label is w + " semanas", where w is the least integer with 4w >= hours |
| TrilhaDetalhes.FindInscricao | src/pages/TrilhaDetalhes.tsx:214-217 | none without enrollments or a numeric route id; otherwise the first enrollment of the route's track, none iff there is no such enrollment (Modulo.tsx:82-85 does the same lookup) |
| TrilhaDetalhes.ProgressoGeral | src/pages/TrilhaDetalhes.tsx:236-241 | 0 without data or modules; otherwise the completed count over the module count, rounded half up |
| TrilhaDetalhes.ProgressoGeralBounds | src/pages/TrilhaDetalhes.tsx:236-241 | a percentage in 0..100 while completed <= modules; exactly 100 when all modules are complete |
| TrilhaDetalhes.ModuloViews | src/pages/TrilhaDetalhes.tsx:244-262 | one view per module, in order, with its id and title. Completed iff its first record is done. Not enrolled: nothing locked or current. Enrolled: locked iff index > completed count; current iff index = completed count and not completed |
| TrilhaDetalhes.AtMostOneCurrent | src/pages/TrilhaDetalhes.tsx:257-258 | at most one module is current and no module is both locked and current |
| TrilhaDetalhes.ContinueTarget | src/pages/TrilhaDetalhes.tsx:385-388 | the first current, incomplete module, else the first module, else nothing (only for an empty list) |
| TrilhaDetalhes.ContinuePath | src/pages/TrilhaDetalhes.tsx:385-388 | a path exists iff there are modules, and it names the continue target's module under the route's track |
| TrilhaDetalhes.ContinueOpensCurrent | src/pages/TrilhaDetalhes.tsx:385-388 | when enrolled, "continue" opens the module at index = completed count if it exists and is incomplete, else the first module |
| TrilhaDetalhes.DifficultyTone | src/pages/TrilhaDetalhes.tsx:326-328 | success, warning or destructive exactly when the label is Iniciante, Intermediário or Avançado |
| TrilhaDetalhes.UpdateErrorTolerated | src/pages/TrilhaDetalhes.tsx:123 | a failed progress update counts as success iff the response has status 500 |
| Dashboard.ComputeStats | src/pages/Dashboard.tsx:127-145 | missing data gives level 1 and zeros. Otherwise: completed = records at 100%; hours = 2 × completed; badges = number of achievements; level = user level, else session level, else 1 (0 falls through); never 0 |
| Dashboard.SortNewestFirst | src/pages/Dashboard.tsx:152-154 | the copy is sorted by descending enrollment date and is a permutation of the input |
| Dashboard.SortIsStable | src/pages/Dashboard.tsx:152-154 | enrollments with the same date keep their relative order (the sort is stable) |
| Dashboard.Candidate | src/pages/Dashboard.tsx:156-175 | an enrollment qualifies iff its track is found, it has progress records, and its rounded percentage is below 100. The result then carries the enrollment, the found track and its records, the completed count, the total (> 0) and the rounded percentage of the two, in 0..99 |
| Dashboard.FirstCandidate | src/pages/Dashboard.tsx:156-178 | the outcome of the first qualifying enrollment in the sorted order (every earlier one fails); none iff none qualifies |
| Dashboard.CurrentTrack | src/pages/Dashboard.tsx:148-179 | none when any list is missing. Otherwise the result is the loop outcome of an input enrollment that qualifies, and it is none iff no enrollment qualifies |
| Dashboard.FirstCandidateIsNewest | src/pages/Dashboard.tsx:152-178 | in a newest-first list, the chosen enrollment is at least as recent as any qualifying one |
| Dashboard.CurrentTrackIsNewest | src/pages/Dashboard.tsx:148-179 | when some enrollment qualifies, the current track exists, qualifies, and is at least as recent as every qualifying enrollment |
| Dashboard.CurrentTrackTieBreak | src/pages/Dashboard.tsx:152-178 | when some enrollment qualifies, the current track exists and, among the enrollments made at its date, is the first qualifying one in the fetched order (the sort is stable) |
| Dashboard.NearlyCompleteIsSkipped | src/pages/Dashboard.tsx:162-164 | 199 of 200 completed records round to 100, so that enrollment is not chosen |
| Dashboard.RecentAchievements | src/pages/Dashboard.tsx:411 | exactly the first three achievements (all of them when fewer), as a prefix |
| Dashboard.GoalReached | src/pages/Dashboard.tsx:448 | a goal is reached iff its progress is at least 100 |
| ModuloPage.ModuloCompleto | src/pages/Modulo.tsx:96-100 | true iff progress data and a numeric module id are present and the first record for that module is at 100% |
| ModuloPage.CurrentIndex | src/pages/Modulo.tsx:155 | the first index holding the route's module, -1 when there is none |
| ModuloPage.ProximoAnterior | src/pages/Modulo.tsx:153-162 | next is the element after the current index while one exists; previous is the element before when index > 0; both none without data or id |
| ModuloPage.EndsHaveNoNeighbour | src/pages/Modulo.tsx:156-161 | the first module has no previous and the last has no next |
| ModuloPage.UnknownModuleGoesToFirst | src/pages/Modulo.tsx:156-161 | for a module id not in the track: no previous, and the first module (if any) as next |
| ModuloPage.Aulas | src/pages/Modulo.tsx:165-172 | six lessons numbered 1 to 6; the first two are done, the third once a later lesson is selected, the others never |
| ModuloPage.LessonProgress | src/pages/Modulo.tsx:438 | the sidebar percentage lies in 0..100 |
| ModuloPage.LessonProgressValues | src/pages/Modulo.tsx:438 | with the fixed lessons it is 33 up to lesson 3 and 50 after it |
| ModuloPage.SelectedLesson | src/pages/Modulo.tsx:306 | a lesson is shown iff the selection is 1..6, and it is the selected one |
| ModuloPage.UpdateErrorTolerated | src/pages/Modulo.tsx:109-113 | a failure counts as success iff the status is 500 and the message contains "progresso" |
| ModuloPage.ToleranceNarrowerThanTrackPage | src/pages/Modulo.tsx:109-113 | every failure tolerated here is tolerated by the track page (TrilhaDetalhes.tsx:123), but not conversely |
| ModuloPage.UpdateOutcomeOf | src/pages/Modulo.tsx:104-116 | success when the call succeeds or the failure is tolerated; otherwise the same failure is rethrown |
| ModuloPage.ScreenFor | src/pages/Modulo.tsx:174-268 | login prompt iff no user; then enrollment prompt, spinner, not-found and content, each iff the earlier checks passed |
| Perfil.ComputeStats | src/pages/Perfil.tsx:98-119 | missing data gives zeros with level 1. Otherwise: hours = 2 × completed; rate is 0 without records, else the rounded share; level = completed/5 + 1 and badges = completed/3, both rounded down; streak = draw + 1 with enrollments, else 0 |
| Perfil.TaxaFullIffAllDone | src/pages/Perfil.tsx:112-113 | below 200 records, the rate is 100 iff every record is complete |
| Perfil.ItemFor | src/pages/Perfil.tsx:126-140 | none iff the track is missing; otherwise the track's title, progress 0 without records or the rounded share, and "Concluída" iff progress = 100 |
| Perfil.Entries | src/pages/Perfil.tsx:125-141 | no more entries than enrollments, each with progress in 0..100 |
| Perfil.Historico | src/pages/Perfil.tsx:122-142 | empty when any list is missing; otherwise at most one entry per enrollment |
| Perfil.EntriesAreFoundTracks | src/pages/Perfil.tsx:125-141 | the history is exactly the entries of the enrollments whose track was found, in enrollment order |
| Perfil.Badges | src/pages/Perfil.tsx:181-218 | the six badges with thresholds: completed >= 5, streak >= 7, completed >= 3, level >= 2, completed >= 12, never |
| Perfil.BadgeChain | src/pages/Perfil.tsx:181-218 | IA Expert implies Mestre em ML, which implies Aprendiz Dedicado; Mestre em ML unlocks with the level badge; Mentor never unlocks |
| Perfil.SkillLevel | src/pages/Perfil.tsx:220-226 | the weighted count capped at 100 |
| Perfil.Competencias | src/pages/Perfil.tsx:220-226 | five named bars with weights 8, 9, 7, 8 and 6; each is in 0..100, full iff count × weight >= 100, else exactly count × weight |
| Perfil.CompetenciasMonotone | src/pages/Perfil.tsx:220-226 | more completed modules never lower a bar, and from 17 on every bar is full |
| Perfil.Split | src/pages/Perfil.tsx:240 | at least one piece and no piece contains a space |
| Perfil.SplitJoin | src/pages/Perfil.tsx:240 | joining the pieces with spaces gives the name back |
| Perfil.Heads | src/pages/Perfil.tsx:240 | at most one character per piece |
| Perfil.WordStarts | src/pages/Perfil.tsx:240 | word starts are non-space characters of the name |
| Perfil.HeadsAreWordStarts | src/pages/Perfil.tsx:240 | the first characters of the pieces are the characters that begin a word |
| Perfil.Initials | src/pages/Perfil.tsx:240 | the first two word-initial characters, or "US" when there is no user or no such character; always 1 or 2 characters |
| Trilhas.IconFor | src/pages/Trilhas.tsx:26-33 | the icon of each listed title; every other title gets the brain |
| Trilhas.ImageFor | src/pages/Trilhas.tsx:68 | the track's URL if non-empty, else the bundled picture for the two listed titles, else none |
| Trilhas.ToCard | src/pages/Trilhas.tsx:59-69 | same id, title and description; the icon is the title's icon-map entry (Brain by default); the image is the track's URL, else the title's bundled picture, else none; level is the difficulty label; 12 modules; duration is the weeks label |
| Trilhas.FetchedCards | src/pages/Trilhas.tsx:56-70 | one card per fetched track, in order; none without data |
| Trilhas.MockCard | src/pages/Trilhas.tsx:72-133 | the built-in card carries the requested id and that card's level in the built-in table |
| Trilhas.MockTrilhas | src/pages/Trilhas.tsx:72-133 | six built-in cards with ids 1 to 6 |
| Trilhas.MockCoversLevels | src/pages/Trilhas.tsx:72-133 | each level chip other than "Todos" matches a built-in card |
| Trilhas.DisplayTrilhas | src/pages/Trilhas.tsx:136 | the fetched cards when there are any, otherwise the built-in six; never empty |
| Trilhas.Levels | src/pages/Trilhas.tsx:148 | four chips with "Todos" first |
| Trilhas.Filtered | src/pages/Trilhas.tsx:139-146 | a card is shown iff its lower-cased title or description contains the lower-cased term and the level is "Todos" or its own |
| Trilhas.FilteredKeepsOrder | src/pages/Trilhas.tsx:139-146 | the shown cards are an order-preserving subsequence |
| Trilhas.ClearedShowsAll | src/pages/Trilhas.tsx:247-250 | after clearing the filters every card is shown |
| Trilhas.SearchIgnoresCase | src/pages/Trilhas.tsx:140-141 | lower-casing the search term does not change the result |
| Trilhas.LevelNarrows | src/pages/Trilhas.tsx:144 | a chosen level shows only cards of that level, never more than "Todos" |
| Trilhas.ResultCounter | src/pages/Trilhas.tsx:201 | the text before the first space reads back as the count; the rest is "trilha encontrada" iff the count is 1, "trilhas encontradas" otherwise |
| Trilhas.ClearFilters | src/pages/Trilhas.tsx:247-250 | empty search and the "Todos" chip |
| Trilhas.CatalogScreenFor | src/pages/Trilhas.tsx:206-252 | skeletons while loading, then the error card, then the grid of the shown cards when there are any, else the empty state |
| Notificacoes.Filtradas | src/pages/Notificacoes.tsx:90-96 | all notifications under "todas"; only unread under "nao-lidas"; only read under "lidas"; every qualifying notification is kept |
| Notificacoes.FiltradasOrderAndIdempotence | src/pages/Notificacoes.tsx:90-96 | each tab keeps the order of the list, and filtering again changes nothing |
| Notificacoes.Counts | src/pages/Notificacoes.tsx:138-144 | each tab counter equals the number of notifications that tab lists |
| Notificacoes.CountsAddUp | src/pages/Notificacoes.tsx:138-144 | unread plus read equals the total |
| Notificacoes.MarkAllDisabled | src/pages/Notificacoes.tsx:128 | disabled iff the request is pending or every notification is read |
| Notificacoes.MarkAllEnabledIffUnread | src/pages/Notificacoes.tsx:128 | with no pending request, enabled iff the unread counter is positive |
| Notificacoes.TipoColorOf | src/pages/Notificacoes.tsx:98-111 | yellow, green, blue or purple exactly for ACHIEVEMENT, CERTIFICADO, TRILHA or OPORTUNIDADE; gray otherwise |
| Notificacoes.ColorClass | src/pages/Notificacoes.tsx:98-111 | a "bg-…-500" background class, the gray one exactly for the default colour |
| Notificacoes.TipoClassDistinct | src/pages/Notificacoes.tsx:98-111 | types with different colours get different classes; the gray class iff the type is none of the four known ones |
| Notificacoes.EmptyText | src/pages/Notificacoes.tsx:158-160 | "Nenhuma notificação não lida" exactly under the unread tab, "Nenhuma notificação encontrada" otherwise |
| Notificacoes.ListScreenFor | src/pages/Notificacoes.tsx:149-165 | loading first; then the tab's empty text iff its list is empty; else that list |
| NotificationBell.ElapsedSeconds | src/components/NotificationBell.tsx:73 | whole seconds elapsed, rounded down |
| NotificationBell.AgeOf | src/components/NotificationBell.tsx:75-78 | "agora" under 60 s (future dates included); minutes 1..59, hours 1..23 or days >= 1, each the elapsed time rounded down to that unit |
| NotificationBell.AgeText | src/components/NotificationBell.tsx:75-78 | "agora", or the amount followed by m, h or d, whose number reads back as the amount |
| NotificationBell.TimeSince | src/components/NotificationBell.tsx:70-79 | "agora" iff less than 60000 ms have passed; otherwise the text ends with m, h or d |
| NotificationBell.AgeMonotone | src/components/NotificationBell.tsx:70-79 | an older notification never shows a smaller unit, or a smaller number in the same unit |
| NotificationBell.BadgeLabel | src/components/NotificationBell.tsx:86-92 | shown iff the count is positive; "9+" above 9; otherwise one digit that reads back as the count |
| NotificationBell.Kept | src/components/NotificationBell.tsx:35 | the first five unread notifications (fewer if fewer exist), as a prefix |
| NotificationBell.DropdownFor | src/components/NotificationBell.tsx:97-112 | mark-all shown iff the count is positive; the empty message iff nothing was kept |
| NotificationBell.MarkAllWithBadge | src/components/NotificationBell.tsx:86-99 | the mark-all button appears exactly when the badge does |
| ModuloCard.DisplayOf | src/components/ModuloCard.tsx:26-82 | check if completed, else lock if locked, else play; dimmed iff locked; "Atual" iff current and not completed; "Concluir" iff not completed, not locked, a non-zero enrollment id and a handler; it completes the card's own id and is disabled with a spinner while updating |
| ModuloCard.PropsFor | src/pages/TrilhaDetalhes.tsx:429-436 | the card receives the module's id and flags, "current" as given, a handler, "updating" iff it is the module being completed, and the enrollment's id iff enrolled |
| ModuloCard.TrackPageCards | src/pages/TrilhaDetalhes.tsx:429-436 | on the track page at most one card shows "Atual"; without enrollment no card offers "Concluir"; enrolled, it is offered exactly on incomplete modules up to the completed count |
| TrilhaCard.LevelColorOf | src/components/TrilhaCard.tsx:28-39 | success, warning or destructive exactly for the three labels; muted for anything else |
| TrilhaCard.CatalogueLevelsAreColoured | src/components/TrilhaCard.tsx:28-39 | every catalogue card built from a fetched track has a coloured level badge |
| TrilhaCard.HeaderFor | src/components/TrilhaCard.tsx:45-55 | the picture iff the image is a non-empty string, otherwise the icon |
| TrilhaCard.ModulesLabel | src/components/TrilhaCard.tsx:79 | the text ends in " módulos" and its number reads back as the count |
| TrilhaCard.LinkTarget | src/components/TrilhaCard.tsx:83 | "/trilhas/" followed by text that reads back as the id |
| TrilhaCard.LinkTargetInjective | src/components/TrilhaCard.tsx:83 | different ids give different links |
| UseNotifications.AchievementToast | src/hooks/useNotifications.ts:30-34 | the trophy title, "name - +xp XP" and 5000 ms |
| UseNotifications.Toasts | src/hooks/useNotifications.ts:29-35 | one toast per achievement, in order |
| UseNotifications.CheckForNewAchievements | src/hooks/useNotifications.ts:17-40 | nothing without a user, after a failed call, or for an empty list; otherwise the achievements and notifications caches are refreshed, then one toast per achievement |
| UseNotifications.OneToastPerAchievement | src/hooks/useNotifications.ts:23-35 | the number of toasts equals the number of new achievements, and is 0 without a user |
| UseNotifications.TituloFor | src/hooks/useNotifications.ts:80 | Informação, Nova Conquista or Certificado exactly for INFO, CONQUISTA or CERTIFICADO; Lembrete otherwise |
| UseNotifications.CreateRequest | src/hooks/useNotifications.ts:71-83 | a request iff there is a user, carrying the user, the message, the type (INFO by default) and its title |
| UseNotifications.AfterCreate | src/hooks/useNotifications.ts:85-86 | both notification caches are refreshed only after a request that succeeded |
| UseNotifications.NoUserNoEffects | src/hooks/useNotifications.ts:18 | without a user neither hook sends anything or has any effect (also line 75) |
| IndexPage.TrilhasStat | src/pages/Index.tsx:89 | the text ends in "+" and the rest reads back as the track count, or 50 when it is missing or 0 |
| IndexPage.UsuariosStat | src/pages/Index.tsx:90 | thousands of users rounded down followed by "k+", 10 when missing or 0 |
| IndexPage.TaxaStat | src/pages/Index.tsx:91 | the text ends in "%" and the rest reads back as the completion rate, or 95 when it is missing or 0 |
| IndexPage.FallbackStats | src/pages/Index.tsx:88-92 | without statistics: 50+, 10k+ and 95% |
| IndexPage.Featured | src/pages/Index.tsx:63 | the first four featured tracks (fewer if fewer exist), as a prefix |
| IndexPage.FeaturedCardAsWritten | src/pages/Index.tsx:209-221 | the page's card: the track's id, title and description, always the Brain icon, the track's own image URL, raw difficulty as level, 8 modules, the weeks label |
| IndexPage.FeaturedHeaderIgnoresTitle | src/pages/Index.tsx:214-219 | the featured card shows a picture iff the track has its own image URL, because the page's icon and picture tables are never used; a "Ciência de Dados" track without a URL shows the Brain icon here but the Database icon and the bundled picture in the catalogue |
| IndexPage.FeaturedLevelIsMutedAsWritten | src/pages/Index.tsx:217 | as written, a track whose difficulty is not already a display label (INICIANTE, INTERMEDIARIO or any other backend code) gets a muted badge here but a coloured one in the catalogue |
| IndexPage.FeaturedCardOf | src/pages/Index.tsx:209-221 | the card with the difficulty translated to the catalogue's label; id, title, description, Brain icon, image URL, 8 modules and the weeks duration as on the page |
| IndexPage.FeaturedLevelIsColoured | src/pages/Index.tsx:217 | with the translation, every featured badge is coloured, in the catalogue's colour |
| IndexPage.FeaturedCardsAsWritten | src/pages/Index.tsx:209-221 | as written: at most four cards, one per shown featured track, in order, each the page's card with the raw difficulty |
| IndexPage.FeaturedCards | src/pages/Index.tsx:209-221 | corrected: at most four cards, one per shown featured track, in order, each with the difficulty's label |
| IndexPage.FeaturedCardsOnlyLevelDiffers | src/pages/Index.tsx:209-221 | the correction changes only each card's level, to the difficulty's label, and makes every badge coloured |

## Left out

- HTTP calls, React Query caching, and the services and authentication context behind them. Fetched data is a parameter of each function. A failed or pending fetch is `None` or a flag.
- The mutations' own effects: enrolling, updating progress and marking notifications as read. Their toasts are left out too. Only the error predicates that decide success are modelled.
- Timers and polling: the bell's 30-second refresh and the periodic notification refresh hook. Fetching the bell's list and count is not modelled either. `Kept` and `BadgeLabel` take their results as inputs.
- Perfil.ComputeStats: `Math.random()` is a parameter `draw`, the value of `Math.floor(Math.random() * 30)`, required to be in 0..29.
- Dates are integer millisecond timestamps. Parsing and locale formatting are not modelled.
- Common.RoundPercent: rounding is exact integer half-up rounding of c/t × 100. The source rounds a floating-point product, which can land just below an exact half. Then the displayed integer is one less than the model's. For example, 23/40 × 100 is 57.49999999999999, so `Math.round` gives 57 where the model gives 58. Likewise 57/200 gives 28 against the model's 29. The 100% boundary that RoundPercentFull and NearlyCompleteIsSkipped rest on is not affected: 199/200 × 100 is exactly 99.5. Decimal formatting of non-integers (`toFixed`) is not modelled.
- Common.ToLower: lower-cases A–Z and À–Þ (except ×) only. Other Unicode case mappings are not modelled.
- Strings are sequences of Unicode scalar values (Dafny's `char`), while JavaScript strings are UTF-16 code units. The two agree on text inside the Basic Multilingual Plane. For a name whose word starts with a character outside it (an emoji, say), `n[0]` in the avatar initials is half of a surrogate pair in the source but the whole character in the model.
- ModuloCard.DisplayOf: on an incomplete, unlocked module with an enrollment id of 0, `inscricaoId && onComplete && (…)` evaluates to 0, and React renders a stray "0" where the button would be. The model records only that no button is shown.
- The Web Share / clipboard fallback and the salary formatting on the track page.
- Animations and pure markup.
- The Dashboard `sortBy` toggle is not modelled because it affects no computed value.
- TrilhaDetalhes.ContinuePath takes the route's track id as the raw route text, as the page does.
- Perfil.Badges lists the titles and unlock flags. Icons and descriptions are left out.
- Trilhas.MockCard: the description texts of the six built-in cards are left empty. Title, icon, duration, level, module count and picture are as in the source. Searching the built-in catalogue therefore matches titles only. `Filtered` states the search for any description.
- The Dashboard's recommended-track cards (src/pages/Dashboard.tsx:364-374) pass the raw difficulty the same way as the landing page. They are not modelled separately.

## Findings

| source | as written | input that shows it | evidently intended | confidence | as-written member | corrected member |
|---|---|---|---|---|---|---|
| src/pages/Index.tsx:217 | the featured card receives the backend difficulty code (`INICIANTE`, `INTERMEDIARIO`, …) as its `level`. `getLevelColor` only knows the display labels, so the badge reads the raw code and is always muted | a featured track with difficulty `INICIANTE`: the badge shows "INICIANTE" in the muted colour, while the catalogue shows "Iniciante" in the success colour | translate the difficulty to its label, as the catalogue and track pages do | medium; not executed | IndexPage.FeaturedLevelIsMutedAsWritten | IndexPage.FeaturedLevelIsColoured |
