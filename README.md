# AssurBot: a Dafny model of the bundle explorer, the chat front-ends and the answer pipeline

This project models the core of AssurBot, an insurance-bundle advisor, in three parts.

- **The Bundle Explorer page** (`frontend/src/BundleExplorer.jsx`). It covers:
  - the fixed catalog of ten bundles;
  - the category / search / sort chain that decides which cards are shown and in which order;
  - the selected and pinned sets;
  - the comparison list and when its panel appears;
  - what a click on a card does in grid and in list view;
  - the floating AssurBot chat bubble, whose `send` is split at its `await` into a begin step and a finish step.
- **The MedAssist chat page** (`frontend/src/script.js`). It covers:
  - the list of conversations and the one on screen;
  - creating, activating and deleting conversations;
  - `handleSend`, again split at its `await`, including the rule that a first question becomes the title (cut to 40 characters plus "...");
  - the reply chosen from the backend's answer;
  - the "clear chat" button;
  - the light/dark theme;
  - page start-up.
- **The backend's `RAG_Solution`** (`backend/rag_model.py`). It covers:
  - the greeting test;
  - the extraction of the answer after the last "Answer:" marker;
  - the error message an exception turns into.

Modules:

| module | file | what it holds |
|---|---|---|
| `Wrappers` | wrappers.dfy | `Option` |
| `Seqs` | seqs.dfy | `Filter` (JavaScript's `Array.prototype.filter`); subsequence and distinctness facts |
| `Text` | text.dfy | ASCII lowercasing; substring search; JavaScript `trim` and Python `strip`, each with its own white-space set |
| `Chat` | chat.dfy | the `user` / `ai` role of a message |
| `Catalog` | catalog.dfy | the ten `BUNDLES` records; facts about their ids, premiums, scores and coverage |
| `Sorting` | sorting.dfy | a stable insertion sort by an integer rank, as `Array.prototype.sort` performs it with a rank-difference comparator |
| `Pipeline` | pipeline.dfy | the `filtered` list: the two filters, then a stable sort by the chosen key |
| `Explorer` | explorer.dfy | class `ExplorerState`, the page's state and handlers; the comparison list |
| `ChatBubble` | bubble.dfy | class `Bubble`, the AssurBot bubble |
| `Conversations` | conversations.dfy | class `ConversationStore`, the MedAssist chat state |
| `Theme` | theme.dfy | class `ThemeState`, the theme switch |
| `Rag` | rag.dfy | the greeting test, answer extraction and `RAG_Solution` |

How the source is modelled:

- **Sorting.** The comparator of `Array.prototype.sort` is kept exactly as the source writes it (`Pipeline.Compare`). The comparator is a difference of ranks (`Pipeline.CompareIsRankDifference`), so the sort is a stable insertion sort by rank (`Sorting.Sort` with `Pipeline.RankOf`), since the language guarantees a stable sort. It is proved to:
  - be a permutation;
  - be sorted;
  - keep the catalog order among bundles whose keys are equal.
- **The `await` in both send handlers.** The `await` is where other handlers may run, so each handler is split in two: `BeginSend` runs up to the request and `FinishSend` runs after it.
  - The request's outcome is a parameter.
  - A composite method (`Send`, `HandleSend`) proves the case where nothing happens in between.
- **The object `handleSend` writes its reply to.** `handleSend` keeps the conversation object it started with across the `await`. The store records that conversation's id in `pending`.
  - If the conversation was deleted in the meantime, the reply is stored nowhere.
  - If it was cleared, the reply lands in the now-empty conversation.

## Model

| member | source | states |
|---|---|---|
| Catalog.CatalogIds | frontend/src/BundleExplorer.jsx:185-466 | the set of catalog ids holds exactly the ids of the ten bundles |
| Catalog.DecimalValue | frontend/src/BundleExplorer.jsx:817 | `parseInt` of a string of digits: its value read left to right in base 10 |
| Catalog.CatalogIdsUnique | frontend/src/BundleExplorer.jsx:185-466 | the catalog has ten bundles and no two of them share an id |
| Catalog.CatalogDistinct | frontend/src/BundleExplorer.jsx:185-466 | each bundle occurs in the catalog exactly once |
| Catalog.CatalogEntries | frontend/src/BundleExplorer.jsx:185-466 | the fourth entry is Premium Health & Life and the ninth is Renter's Basic |
| Catalog.PremiumHealthLifeId | frontend/src/BundleExplorer.jsx:270-271 | the id "premium_health_life" names exactly one catalog entry, Premium Health & Life |
| Catalog.PremiumExtremes | frontend/src/BundleExplorer.jsx:185-466 | Renter's Basic has the strictly lowest monthly premium and Premium Health & Life the strictly highest |
| Catalog.MatchScoreExtremes | frontend/src/BundleExplorer.jsx:185-466 | Premium Health & Life has the strictly highest match score and Renter's Basic the strictly lowest |
| Catalog.ComprehensivenessExtremes | frontend/src/BundleExplorer.jsx:185-466 | the same two bundles are the strict extremes of the comprehensiveness stat |
| Catalog.PremiumCategoryEntry | frontend/src/BundleExplorer.jsx:185-466 | Premium Health & Life is the only entry in the "Premium" category |
| Catalog.DigitsOf | frontend/src/BundleExplorer.jsx:817 | deleting the non-digits of the coverage text leaves only digits, and no more characters than the text had |
| Catalog.DigitsOfIsFilter | frontend/src/BundleExplorer.jsx:817 | deleting the non-digits keeps every digit, as often as it occurs and in its order, and nothing else: it is the filter by "is a digit" |
| Catalog.CoverageAmount | frontend/src/BundleExplorer.jsx:817 | the coverage as the comparator reads it: the number its digit characters form |
| Catalog.DigitsOfConcat | frontend/src/BundleExplorer.jsx:817 | the digits of a concatenation are the digits of each part, in order |
| Catalog.DigitsOfTwoMillion | frontend/src/BundleExplorer.jsx:817 | the non-digits of "$2,000,000" are deleted to leave "2000000" |
| Catalog.CoverageReading | frontend/src/BundleExplorer.jsx:817 | the coverage "$2,000,000" reads as the number 2000000 when the sort compares coverage |
| Text.Lower | frontend/src/BundleExplorer.jsx:813 | lowercasing keeps the length and maps each character on its own, leaving no upper-case ASCII letter |
| Text.LowerChar | frontend/src/BundleExplorer.jsx:813 | no result is an upper-case ASCII letter, and a lower-case letter is left alone |
| Text.Contains | frontend/src/BundleExplorer.jsx:813 | `includes`: the needle is a prefix of the text at some start position, scanned from the left |
| Text.ContainsIff | frontend/src/BundleExplorer.jsx:813 | `includes` holds exactly when the needle occurs at some position |
| Text.ContainsEmpty | frontend/src/BundleExplorer.jsx:813 | every text includes the empty search text |
| Text.OccursAtStart | frontend/src/BundleExplorer.jsx:813 | an occurrence at position 0 is exactly a prefix |
| Text.OccursShift | frontend/src/BundleExplorer.jsx:813 | past the first character, the occurrences in a text are those in its tail, one position further |
| Text.FirstIndexOf | backend/rag_model.py:151 | the scan finds the leftmost occurrence of the separator, and finds nothing exactly when it occurs nowhere |
| Text.TrimStart | frontend/src/script.js:229 | trimming the front leaves a suffix of the text |
| Text.TrimStartDrops | frontend/src/script.js:229 | only white space is cut from the front |
| Text.TrimStartFirst | frontend/src/script.js:229 | what is left after trimming the front does not start with white space |
| Text.TrimEnd | frontend/src/script.js:229 | trimming the back leaves a prefix of the text |
| Text.TrimEndDrops | frontend/src/script.js:229 | only white space is cut from the back |
| Text.TrimEndLast | frontend/src/script.js:229 | what is left after trimming the back does not end with white space |
| Text.TrimEnds | frontend/src/script.js:229 | a trimmed text has no white space at either end |
| Text.UnpaddedIffTrimFixed | frontend/src/script.js:229 | trimming leaves a text unchanged exactly when it has no white space at either end |
| Text.JsTrim | frontend/src/script.js:229 | `trim`: JavaScript white space is removed from both ends |
| Text.PyStrip | backend/rag_model.py:151 | `strip`: Python white space is removed from both ends |
| Text.TrimSpec | frontend/src/script.js:229 | trimming leaves no white space at either end, cuts off only white space, and gives the empty text exactly when the input is all white space |
| Text.TrimIdempotent | frontend/src/script.js:229 | trimming a trimmed text changes nothing |
| Text.TrimKeepsAbsence | backend/rag_model.py:151 | stripping cannot create an occurrence of a text that was absent |
| Pipeline.EmptySearchKeepsAll | frontend/src/BundleExplorer.jsx:813 | an empty search box keeps every bundle |
| Pipeline.PassesCategory | frontend/src/BundleExplorer.jsx:812 | "All" keeps every bundle; any other value keeps the bundles of exactly that category |
| Pipeline.PassesSearch | frontend/src/BundleExplorer.jsx:813 | the lower-cased query occurs in the lower-cased name or in the lower-cased category |
| Seqs.Filter | frontend/src/BundleExplorer.jsx:812-813 | `filter` keeps every copy of an element that passes, in order, and nothing else |
| Pipeline.KeyOf | frontend/src/BundleExplorer.jsx:814-820 | the comparator orders by nothing exactly when the sort value is none of the four options |
| Pipeline.Compare | frontend/src/BundleExplorer.jsx:814-819 | match score and comprehensiveness descending, premium ascending, coverage amount descending, and 0 for any other sort value |
| Pipeline.Rank | frontend/src/BundleExplorer.jsx:814-819 | the quantity each comparator branch orders by, ascending |
| Pipeline.CompareIsRankDifference | frontend/src/BundleExplorer.jsx:814-820 | the comparator's result is the difference of the two bundles' ranks, so it is a consistent total preorder |
| Sorting.SortedHead | frontend/src/BundleExplorer.jsx:814 | the head of a sorted list ranks no higher than any element, and the tail is sorted |
| Sorting.Insert | frontend/src/BundleExplorer.jsx:814 | inserting into a sorted list adds exactly one copy of the element and keeps the list sorted |
| Sorting.Sort | frontend/src/BundleExplorer.jsx:814 | the sort returns a permutation of its input, ascending by rank |
| Sorting.WithRankCons | frontend/src/BundleExplorer.jsx:814 | the elements of one rank in a list with a head: the head if it has that rank, then those of the rest |
| Sorting.InsertWithRank | frontend/src/BundleExplorer.jsx:814 | insertion puts the element in front of those of its own rank and keeps the order of every rank |
| Sorting.SortIsStable | frontend/src/BundleExplorer.jsx:814 | the sort is stable: for every rank, the elements of that rank keep their input order |
| Sorting.UniformRankKeepsOrder | frontend/src/BundleExplorer.jsx:814 | when every element has the same rank the order is unchanged |
| Pipeline.SortBundles | frontend/src/BundleExplorer.jsx:814-820 | the sort returns a permutation of its input, ordered by the comparator |
| Pipeline.UnknownSortKeepsOrder | frontend/src/BundleExplorer.jsx:819 | when the comparator returns 0 for every pair the order is unchanged |
| Pipeline.Matching | frontend/src/BundleExplorer.jsx:812-813 | the two filters keep every copy of a bundle that passes both and nothing else |
| Pipeline.MatchingInCatalogOrder | frontend/src/BundleExplorer.jsx:812-813 | the filters keep catalog order |
| Pipeline.MatchingIdempotent | frontend/src/BundleExplorer.jsx:812-813 | filtering a list that already matches, by the same category and query, gives the same list |
| Pipeline.Filtered | frontend/src/BundleExplorer.jsx:812-820 | the shown list is a permutation of the passing bundles, ordered by the chosen key |
| Pipeline.FilteredMembership | frontend/src/BundleExplorer.jsx:812-820 | a bundle is shown exactly when it is in the catalog, matches the category pill and matches the search in name or category |
| Pipeline.FilteredDistinct | frontend/src/BundleExplorer.jsx:812-820 | over a catalog without repetitions no card is shown twice |
| Pipeline.FilteredSize | frontend/src/BundleExplorer.jsx:812-820 | never more cards than catalog entries |
| Pipeline.SortOptionMeaning | frontend/src/BundleExplorer.jsx:815-818 | for each option, the field ordering: match score descending, premium ascending, coverage descending, comprehensiveness descending |
| Pipeline.UnknownSortShowsCatalogOrder | frontend/src/BundleExplorer.jsx:812-820 | with an unrecognised sort value the passing bundles appear in catalog order |
| Pipeline.AllEmptyShowsCatalog | frontend/src/BundleExplorer.jsx:812-820 | category "All" and an empty search show the whole catalog, each entry as often as it occurs |
| Pipeline.EndsOfSortedCatalog | frontend/src/BundleExplorer.jsx:814-820 | in a sorted permutation, the strictly lowest-ranked entry comes first and the strictly highest-ranked comes last |
| Pipeline.OnlyElement | frontend/src/BundleExplorer.jsx:812-820 | a list holding exactly one copy of one bundle is that one-element list |
| Pipeline.PremiumCategoryMembers | frontend/src/BundleExplorer.jsx:812 | a catalog bundle is in the "Premium" category exactly when it is Premium Health & Life |
| Pipeline.SingleMatch | frontend/src/BundleExplorer.jsx:812-820 | when exactly one catalog entry passes both filters, whatever the sort, that entry alone is shown |
| Pipeline.PremiumCategoryIsOneBundle | frontend/src/BundleExplorer.jsx:812-820 | the "Premium" pill with an empty search shows Premium Health & Life alone, under any sort |
| Pipeline.SortEnds | frontend/src/BundleExplorer.jsx:812-820 | with every bundle shown, a key's strict extremes are the first and last cards |
| Pipeline.LowestPremiumEnds | frontend/src/BundleExplorer.jsx:816 | "Lowest Premium" shows ten cards, from Renter's Basic to Premium Health & Life |
| Pipeline.MatchScoreEnds | frontend/src/BundleExplorer.jsx:815 | "Match Score" shows ten cards, from Premium Health & Life to Renter's Basic |
| Pipeline.ComprehensivenessEnds | frontend/src/BundleExplorer.jsx:818 | "Comprehensiveness" shows ten cards, from Premium Health & Life to Renter's Basic |
| Explorer.Toggled | frontend/src/BundleExplorer.jsx:822-836 | a toggle flips the membership of that id and leaves every other id as it was |
| Explorer.ToggleTwice | frontend/src/BundleExplorer.jsx:822-828 | clicking the same card twice restores the selection |
| Explorer.ToggleCommutes | frontend/src/BundleExplorer.jsx:822-828 | two toggles give the same set in either order |
| Explorer.ToggledWithin | frontend/src/BundleExplorer.jsx:822-836 | toggling a catalog id keeps a set of catalog ids a set of catalog ids |
| Explorer.CompareList | frontend/src/BundleExplorer.jsx:838 | the comparison holds exactly the catalog entries whose id is selected, each as often as in the catalog |
| Explorer.CompareListInCatalogOrder | frontend/src/BundleExplorer.jsx:838 | the comparison columns keep catalog order, whatever the order of selection |
| Explorer.CompareListDistinct | frontend/src/BundleExplorer.jsx:838 | over a catalog without repetitions each selected bundle has one column |
| Explorer.CompareListOfOne | frontend/src/BundleExplorer.jsx:838 | selecting an id that names exactly one entry compares that entry alone |
| Explorer.InitialComparison | frontend/src/BundleExplorer.jsx:805 | the initial selection compares Premium Health & Life alone |
| Explorer.ComparePanelShown | frontend/src/BundleExplorer.jsx:1022 | the panel is rendered exactly when compare mode is on and some catalog entry is selected |
| Explorer.PanelShownWhenIdsListed | frontend/src/BundleExplorer.jsx:964-965 | over any catalog naming every selected id, the panel shows exactly when compare mode is on and the selection is non-empty |
| Explorer.CompareGating | frontend/src/BundleExplorer.jsx:964-965 | while every selected id names an entry, the panel shows exactly when compare mode is on and the selection is non-empty |
| Explorer.ExplorerState.constructor | frontend/src/BundleExplorer.jsx:802-809 | the initial values of the page's eight state hooks; the one selected id is a catalog id |
| Explorer.ExplorerState.Shown | frontend/src/BundleExplorer.jsx:812-820 | the cards shown are exactly the passing catalog bundles, each once, sorted by the chosen key, at most ten; while the sort value is an offered option, the key is one of the four orderings, never catalog order |
| Explorer.ExplorerState.SetCategory | frontend/src/BundleExplorer.jsx:941 | a category pill sets the category and keeps the state valid |
| Explorer.ExplorerState.SetSort | frontend/src/BundleExplorer.jsx:954 | the drop-down sets the sort option and keeps the state valid |
| Explorer.ExplorerState.SetSearch | frontend/src/BundleExplorer.jsx:891 | the search box sets the search text |
| Explorer.ExplorerState.SetViewMode | frontend/src/BundleExplorer.jsx:903 | the grid/list switch sets the view mode |
| Explorer.ExplorerState.ToggleSelect | frontend/src/BundleExplorer.jsx:822-828 | the selection becomes the old selection with that card's id toggled, so it still holds catalog ids only |
| Explorer.ExplorerState.TogglePin | frontend/src/BundleExplorer.jsx:830-836 | the pins become the old pins with that card's id toggled, so they still hold catalog ids only; the selection is untouched |
| Explorer.ExplorerState.OnSelect | frontend/src/BundleExplorer.jsx:1010-1013 | in list view a click opens the card's detail and keeps the selection; in grid view it toggles the selection and keeps the detail; only catalog ids stay selected |
| Explorer.ExplorerState.OpenDetail | frontend/src/BundleExplorer.jsx:1011 | a click in list view opens the detail panel on that card's bundle |
| Explorer.ExplorerState.OpenCompare | frontend/src/BundleExplorer.jsx:964-965 | the Compare button, which exists only while something is selected, turns compare mode on, and the side-by-side panel is then shown |
| Explorer.ExplorerState.CloseCompare | frontend/src/BundleExplorer.jsx:1033 | Close turns compare mode off |
| Explorer.ExplorerState.CloseDetail | frontend/src/BundleExplorer.jsx:1084 | closing the detail panel clears it |
| ChatBubble.ReplyText | frontend/src/BundleExplorer.jsx:30-34 | the AI message is the backend's response, or the fixed apology when the request throws |
| ChatBubble.CanSend | frontend/src/BundleExplorer.jsx:24-25 | a send goes ahead exactly when nothing is loading and the input has a non-white-space character |
| ChatBubble.Posted | frontend/src/BundleExplorer.jsx:27 | appending a reply, or a non-empty trimmed question, keeps the conversation well formed |
| ChatBubble.Bubble.constructor | frontend/src/BundleExplorer.jsx:6-11 | the bubble starts closed, with the welcome message only, an empty input and nothing loading |
| ChatBubble.Bubble.ToggleOpen | frontend/src/BundleExplorer.jsx:75 | the round button flips the open flag |
| ChatBubble.Bubble.Type | frontend/src/BundleExplorer.jsx:147 | typing sets the input |
| ChatBubble.Bubble.BeginSend | frontend/src/BundleExplorer.jsx:23-29 | a blank input or a request under way changes nothing; otherwise the input is cleared, the trimmed question is appended and loading starts |
| ChatBubble.Bubble.Post | frontend/src/BundleExplorer.jsx:26-28 | a non-empty question without surrounding white space is appended, the input is cleared and loading starts |
| ChatBubble.Bubble.FinishSend | frontend/src/BundleExplorer.jsx:30-35 | the reply or the apology is appended and loading ends; the conversation stays well formed |
| ChatBubble.Bubble.Send | frontend/src/BundleExplorer.jsx:23-36 | an uninterrupted send appends the trimmed question and then its reply, or changes nothing |
| Conversations.IdsOf | frontend/src/script.js:81 | the id set holds exactly the ids of the listed conversations |
| Conversations.NewConversation | frontend/src/script.js:66-71 | a new conversation has the given id and creation time, the default title and no messages |
| Conversations.FindIndex | frontend/src/script.js:81 | the lookup finds the first conversation with the id, and finds nothing exactly when no conversation has it |
| Conversations.Without | frontend/src/script.js:102 | deleting keeps every conversation with another id and removes exactly that id |
| Conversations.WithoutKeepsOrder | frontend/src/script.js:102 | deletion keeps the order of the remaining conversations |
| Conversations.TitleFrom | frontend/src/script.js:249 | a message of up to 40 characters is its own title; a longer one gives its first 40 characters followed by "..." |
| Conversations.ReplyFor | frontend/src/script.js:211-225 | the reply is never empty: the response field, else the answer field, else the fallback text; any failure gives the connection apology |
| Conversations.IdsAfterUpdate | frontend/src/script.js:245 | updating a conversation in place keeps the set of ids in use |
| Conversations.FindIndexAfterUpdate | frontend/src/script.js:245 | updating a conversation in place leaves where the lookup finds its id unchanged |
| Conversations.WithQuestion | frontend/src/script.js:245-252 | the question is appended; the first question becomes the title, later ones leave it alone |
| Conversations.Outgoing | frontend/src/script.js:229 | the chip's query unless it is empty, else the text area's value, trimmed |
| Conversations.ConversationStore.Active | frontend/src/script.js:115-117 | the conversation on screen is found exactly when its id is listed |
| Conversations.ConversationStore.Init | frontend/src/script.js:22-24 | start-up puts the first stored conversation on screen, or creates one when none are stored; nothing is in flight |
| Conversations.ConversationStore.CreateConversation | frontend/src/script.js:66-77 | a new untitled, empty conversation goes first in the list and goes on screen |
| Conversations.ConversationStore.SetActiveConversation | frontend/src/script.js:79-82 | the id goes on screen; it names a conversation exactly when it is listed |
| Conversations.ConversationStore.DeleteConversation | frontend/src/script.js:101-113 | the id is removed; if it was on screen, the new first conversation goes on screen, or a new one is created when none is left |
| Conversations.ConversationStore.TypeDraft | frontend/src/script.js:59-63 | typing sets the text area's value |
| Conversations.ConversationStore.BeginSend | frontend/src/script.js:228-255 | a blank message or a question in flight changes nothing; otherwise the draft is cleared, the question is appended to the conversation on screen and that conversation awaits the reply |
| Conversations.ConversationStore.Ask | frontend/src/script.js:232-252 | the draft is cleared, the question is appended to the conversation on screen (titled after a first question) and that conversation awaits the reply; ids and the screen are unchanged |
| Conversations.ConversationStore.FinishSend | frontend/src/script.js:259-268 | the reply goes to the conversation the question was asked in, wherever it is now, or nowhere if it was deleted; processing ends |
| Conversations.ConversationStore.ClearChat | frontend/src/script.js:285-293 | a conversation on screen with messages is emptied and its title reset; otherwise nothing changes |
| Conversations.ConversationStore.HandleSend | frontend/src/script.js:228-271 | an uninterrupted send returns nothing and changes nothing for a blank message or a question in flight; otherwise it returns the trimmed message, appends it with the title rule and then the reply, and clears the draft |
| Theme.InitialTheme | frontend/src/script.js:28 | the saved theme, or light when nothing non-empty is saved |
| Theme.NextTheme | frontend/src/script.js:35 | the toggle always yields light or dark, and dark exactly when the current theme is light |
| Theme.Label | frontend/src/script.js:30 | the button reads "Dark mode" exactly when the theme is light, and "Light mode" otherwise: it names the mode a click switches to |
| Theme.ToggleTwice | frontend/src/script.js:33-39 | toggling twice restores a light or dark theme |
| Theme.LabelNamesNextTheme | frontend/src/script.js:33-39 | the button names the theme that a click switches to |
| Theme.ThemeState.Init | frontend/src/script.js:27-31 | start-up applies the saved theme, labels the button to match, and writes nothing back |
| Theme.ThemeState.Toggle | frontend/src/script.js:33-39 | a click switches to the next theme, saves it and keeps the label matching |
| Rag.AnyOpensIff | backend/rag_model.py:88 | the scan over the greeting words succeeds exactly when some word opens the query |
| Rag.CleanQuery | backend/rag_model.py:86 | the query lowercased, then stripped |
| Rag.OpensWith | backend/rag_model.py:88 | the cleaned query is the word, or starts with it followed by a space |
| Rag.AnyOpens | backend/rag_model.py:88 | `any` over the greeting words, scanned from the first |
| Rag.IsGreeting | backend/rag_model.py:85-88 | a greeting is a lowercased, stripped query under 15 characters that is a greeting word or starts with one followed by a space |
| Rag.FirstWord | backend/rag_model.py:88 | the first word is a prefix without spaces, followed by a space unless it is the whole text |
| Rag.FirstWordOfPrefix | backend/rag_model.py:88 | a space-free word that opens a text is that text's first word |
| Rag.GreetingIsFirstWord | backend/rag_model.py:85-88 | a query is a greeting exactly when its cleaned form is under 15 characters and its first word is a greeting word |
| Rag.OpensIffFirstWord | backend/rag_model.py:88 | among space-free words, one opens the text exactly when the text's first word is in the list |
| Rag.PieceStart | backend/rag_model.py:151 | the last piece starts at 0 or right after an occurrence of the separator, and the separator never occurs in it |
| Rag.SeparatorBeforeStep | backend/rag_model.py:151 | a separator, then a piece that starts after a separator in the rest, places that separator in the whole text |
| Rag.PieceAfterSeparator | backend/rag_model.py:151 | a piece of the text after a separator is the suffix of the whole text that starts after both, with a separator right before it |
| Rag.AfterLast | backend/rag_model.py:151 | the last element of the split at "Answer:": the text from where the last piece starts |
| Rag.AfterLastSpec | backend/rag_model.py:151 | the last piece of a split is a suffix without the separator, preceded by a separator unless it is the whole text |
| Rag.AfterLastWithoutSeparator | backend/rag_model.py:151 | a text without the separator is its own last piece |
| Rag.ExtractAnswer | backend/rag_model.py:151 | the answer is no longer than the decoded text and never contains "Answer:" |
| Rag.AnswerFollowsEveryMarker | backend/rag_model.py:151 | every occurrence of "Answer:" in the decoded text ends at or before the start of the answer |
| Rag.MarkersApart | backend/rag_model.py:131 | two occurrences of "Answer:" never overlap |
| Rag.AnswerIsContinuation | backend/rag_model.py:131-151 | after a prompt ending in "Answer:", a continuation without the marker is the answer, stripped |
| Rag.RagSolution | backend/rag_model.py:82-158 | a greeting gets the fixed introduction; otherwise the extracted answer, or the error prefix followed by the exception's text |
| Rag.GreetingSkipsPipeline | backend/rag_model.py:88-89 | a greeting's reply does not depend on retrieval or generation |

## Left out

- Rendering, styling, the DOM and scrolling are not modelled: the radar chart, stat bars, icons, accents, badges, the typing indicator, focus and text-area auto-resize.
- The comparison table's cells are not modelled. That includes the feature lookup that tolerates a missing feature row. Only which bundles get a column is modelled.
- The sidebar toggle of the chat page has no effect on the modelled state, so it is not modelled.
- `localStorage` and JSON (de)serialisation are parameters.
  - The stored conversation list and the saved theme are passed in.
  - Writes are recorded as the new state, not as storage.
- `Date.now()` and `generateId()` are parameters. A new conversation's id is assumed fresh: Conversations.ConversationStore.CreateConversation and DeleteConversation require it to name no listed conversation and not the deleted one a question is still in flight for. The source's reply goes to the orphaned conversation object it captured, so a reused id would not receive it; the model does not cover id reuse.
- The network (`fetch`, `axios`) is not modelled. Each request is replaced by the way it ended: `RagOutcome` for the bubble and `BackendOutcome` for the chat page.
  - JavaScript truthiness is modelled for the two text fields (absent, `null` or empty).
  - A non-text `response` or `answer` value is not modelled.
- Retrieval, the prompt, tokenisation and generation are not modelled; the temperature is left out. `RAG_Solution` takes them as one function from the query to the decoded text or to the raised exception's text.
- Rag.AnswerIsContinuation assumes the decoded output is the prompt followed by the continuation. The tokenizer does not guarantee this.
- The console output of the backend and of the chat page is left out.
- Text.Lower lowercases ASCII letters only. JavaScript's `toLowerCase` and Python's `lower` also fold non-ASCII letters.
- Conversations.TitleFrom counts characters, where `length` and `slice` count UTF-16 code units, so its 40-character cut differs from the source on text outside the Basic Multilingual Plane. (Python's `len` counts code points, as the model does, so the greeting limit agrees.)
- Catalog.CoverageReading is proved for one bundle only. The numeric reading of the coverage texts is defined for every bundle, but no lemma places the bundles at the two ends under "Coverage Amount".
- `parseInt` of a text without digits gives NaN in the source. The model reads it as 0. Every catalog coverage has digits, so the catalog is unaffected.
- Conversations.ConversationStore.BeginSend requires a conversation on screen. The source would throw without one, but start-up, creation and deletion keep one on screen at all times (`Valid`).
- Messages are not required to be in time order. Timestamps are parameters and nothing orders them.
